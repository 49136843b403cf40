/** The regular-expression matcher of user/grep.c: literals, `.`, `*`, a leading `^` and a trailing `$`.

    A string is the part of a C string before its NUL, and a pointer into it is the suffix it
    points at.  The three methods are proved against a language given by splitting the text. */
module Regex {

  /** A pattern is a sequence of items, each matching one character or any number of them. */
  datatype Item = One(c: char) | Many(c: char)
  datatype Pattern = Pattern(items: seq<Item>, atEnd: bool)

  predicate NoNul(s: string) { '\0' !in s }

  /** `*p` for the pointer at the start of s. */
  function Head(s: string): char { if s == [] then '\0' else s[0] }

  /** A star makes the character before it a repetition, whatever that character is; only then is a
      final `$` an anchor. */
  function Parse(re: string): Pattern {
    if re == [] then Pattern([], false)
    else if |re| > 1 && re[1] == '*' then var p := Parse(re[2..]); Pattern([Many(re[0])] + p.items, p.atEnd)
    else if re == ['$'] then Pattern([], true)
    else var p := Parse(re[1..]); Pattern([One(re[0])] + p.items, p.atEnd)
  }

  // ----- the language of a pattern -----

  predicate Fits(c: char, x: char) { c == '.' || c == x }

  predicate AllFit(c: char, s: string) { forall i: nat :: i < |s| ==> Fits(c, s[i]) }

  predicate Accepts(item: Item, s: string) {
    match item
    case One(c) => |s| == 1 && Fits(c, s[0])
    case Many(c) => AllFit(c, s)
  }

  function Concat(parts: seq<string>): string {
    if parts == [] then [] else parts[0] + Concat(parts[1..])
  }

  /** One part for every item, and together they make s. */
  predicate SplitsInto(items: seq<Item>, s: string, parts: seq<string>) {
    && |parts| == |items| && Concat(parts) == s
    && forall i: nat :: i < |items| ==> Accepts(items[i], parts[i])
  }

  ghost predicate InLanguage(items: seq<Item>, s: string) {
    exists parts: seq<string> :: SplitsInto(items, s, parts)
  }

  /** The substring text[i..j] is where p matches. */
  ghost predicate MatchesAt(p: Pattern, text: string, i: nat, j: nat) {
    i <= j <= |text| && (p.atEnd ==> j == |text|) && InLanguage(p.items, text[i..j])
  }

  ghost predicate MatchesFrom(p: Pattern, text: string, i: nat) {
    exists j: nat :: MatchesAt(p, text, i, j)
  }

  /** What matchhere decides: a match at the beginning of the text. */
  ghost predicate Here(re: string, text: string) { MatchesFrom(Parse(re), text, 0) }

  /** What match decides: a match of some substring, which is a prefix under `^` and a suffix under a
      trailing `$`. */
  ghost predicate Matches(re: string, text: string) {
    if Head(re) == '^' then MatchesFrom(Parse(re[1..]), text, 0)
    else exists i: nat :: MatchesFrom(Parse(re), text, i)
  }

  // ----- one item at a time -----

  lemma Cons(item: Item, items: seq<Item>, first: string, rest: string)
    requires Accepts(item, first) && InLanguage(items, rest)
    ensures InLanguage([item] + items, first + rest)
  {
    var parts: seq<string> :| SplitsInto(items, rest, parts);
    assert ([first] + parts)[1..] == parts;
    assert SplitsInto([item] + items, first + rest, [first] + parts);
  }

  lemma Uncons(item: Item, items: seq<Item>, s: string) returns (t: nat)
    requires InLanguage([item] + items, s)
    ensures t <= |s| && Accepts(item, s[..t]) && InLanguage(items, s[t..])
  {
    var parts: seq<string> :| SplitsInto([item] + items, s, parts);
    t := |parts[0]|;
    assert s == parts[0] + Concat(parts[1..]);
    assert s[..t] == parts[0] && s[t..] == Concat(parts[1..]);
    forall i: nat | i < |items|
      ensures Accepts(items[i], parts[1..][i])
    {
      assert ([item] + items)[i + 1] == items[i];
    }
    assert SplitsInto(items, s[t..], parts[1..]);
  }

  lemma HereEmpty(text: string)
    ensures Here([], text)
  {
    assert SplitsInto([], text[0..0], []);
    assert MatchesAt(Parse([]), text, 0, 0);
  }

  lemma HereEnd(text: string)
    ensures Here(['$'], text) <==> text == []
  {
    assert Parse(['$']) == Pattern([], true);
    if text == [] {
      assert SplitsInto([], text[0..0], []);
      assert MatchesAt(Pattern([], true), text, 0, 0);
    }
    if Here(['$'], text) {
      var j: nat :| MatchesAt(Pattern([], true), text, 0, j);
      var parts: seq<string> :| SplitsInto([], text[0..j], parts);
      assert parts == [];
    }
  }

  /** A match begins with a first part for the first item and goes on behind it. */
  lemma HereStep(re: string, rest: string, item: Item, text: string, t: nat)
    requires Parse(re) == Pattern([item] + Parse(rest).items, Parse(rest).atEnd)
    requires t <= |text| && Accepts(item, text[..t]) && Here(rest, text[t..])
    ensures Here(re, text)
  {
    var j: nat :| MatchesAt(Parse(rest), text[t..], 0, j);
    assert text[..t] + text[t..][0..j] == text[0..t + j];
    Cons(item, Parse(rest).items, text[..t], text[t..][0..j]);
    assert MatchesAt(Parse(re), text, 0, t + j);
  }

  lemma HereSplit(re: string, rest: string, item: Item, text: string) returns (t: nat)
    requires Parse(re) == Pattern([item] + Parse(rest).items, Parse(rest).atEnd)
    requires Here(re, text)
    ensures t <= |text| && Accepts(item, text[..t]) && Here(rest, text[t..])
  {
    var j: nat :| MatchesAt(Parse(re), text, 0, j);
    t := Uncons(item, Parse(rest).items, text[0..j]);
    assert text[0..j][..t] == text[..t];
    assert text[0..j][t..] == text[t..][0..j - t];
    assert MatchesAt(Parse(rest), text[t..], 0, j - t);
  }

  lemma HereOne(re: string, text: string)
    requires re != [] && re != ['$'] && !(|re| > 1 && re[1] == '*')
    ensures Here(re, text) <==> text != [] && Fits(re[0], text[0]) && Here(re[1..], text[1..])
  {
    if text != [] && Fits(re[0], text[0]) && Here(re[1..], text[1..]) {
      HereStep(re, re[1..], One(re[0]), text, 1);
    }
    if Here(re, text) {
      var t := HereSplit(re, re[1..], One(re[0]), text);
      assert text[..t][0] == text[0];
    }
  }

  /** A starred character takes any number of characters that fit it. */
  ghost predicate StarHere(c: char, re: string, text: string, t: nat) {
    t <= |text| && AllFit(c, text[..t]) && Here(re, text[t..])
  }

  lemma HereMany(re: string, text: string)
    requires |re| > 1 && re[1] == '*'
    ensures Here(re, text) <==> exists t: nat :: StarHere(re[0], re[2..], text, t)
  {
    forall t: nat | StarHere(re[0], re[2..], text, t)
      ensures Here(re, text)
    {
      HereStep(re, re[2..], Many(re[0]), text, t);
    }
    if Here(re, text) {
      var t := HereSplit(re, re[2..], Many(re[0]), text);
      assert StarHere(re[0], re[2..], text, t);
    }
  }

  // ----- the matcher -----

  method MatchHere(re: string, text: string) returns (r: bool)
    requires NoNul(re) && NoNul(text)
    ensures r <==> Here(re, text)
    decreases |re|, 0
  {
    if Head(re) == '\0' {
      HereEmpty(text);
      return true;
    }
    if Head(re[1..]) == '*' {
      HereMany(re, text);
      r := MatchStar(re[0], re[2..], text);
      return;
    }
    if re[0] == '$' && Head(re[1..]) == '\0' {
      assert re == ['$'];
      HereEnd(text);
      return Head(text) == '\0';
    }
    HereOne(re, text);
    if Head(text) != '\0' && (re[0] == '.' || re[0] == text[0]) {
      r := MatchHere(re[1..], text[1..]);
      return;
    }
    return false;
  }

  method MatchStar(c: char, re: string, text: string) returns (r: bool)
    requires NoNul(re) && NoNul(text)
    ensures r <==> exists t: nat :: StarHere(c, re, text, t)
    decreases |re|, 1
  {
    var p := text;
    ghost var t: nat := 0;
    while true
      invariant t <= |text| && p == text[t..] && AllFit(c, text[..t])
      invariant forall u: nat :: u < t ==> !StarHere(c, re, text, u)
      decreases |p|
    {
      var here := MatchHere(re, p);
      if here {
        assert StarHere(c, re, text, t);
        return true;
      }
      if Head(p) == '\0' || !(p[0] == c || c == '.') {
        forall u: nat | u > t
          ensures !StarHere(c, re, text, u)
        {
          assert u <= |text| ==> text[..u][t] == Head(p);
        }
        return false;
      }
      assert text[..t + 1] == text[..t] + [text[t]];
      p, t := p[1..], t + 1;
    }
  }

  method Match(re: string, text: string) returns (r: bool)
    requires NoNul(re) && NoNul(text)
    ensures r <==> Matches(re, text)
  {
    if Head(re) == '^' {
      r := MatchHere(re[1..], text);
      return;
    }
    var p := text;
    ghost var t: nat := 0;
    while true
      invariant t <= |text| && p == text[t..]
      invariant forall u: nat :: u < t ==> !MatchesFrom(Parse(re), text, u)
      decreases |p|
    {
      SuffixMatches(Parse(re), text, t);
      r := MatchHere(re, p);
      if r {
        return;
      }
      if Head(p) == '\0' {
        assert t == |text|;
        return;
      }
      p, t := p[1..], t + 1;
    }
  }

  /** A match at the beginning of a suffix is a match there in the text. */
  lemma SuffixMatches(p: Pattern, text: string, t: nat)
    requires t <= |text|
    ensures MatchesFrom(p, text[t..], 0) <==> MatchesFrom(p, text, t)
  {
    forall j: nat | MatchesAt(p, text[t..], 0, j)
      ensures MatchesAt(p, text, t, t + j)
    {
      assert text[t..][0..j] == text[t..t + j];
    }
    forall j: nat | MatchesAt(p, text, t, j)
      ensures MatchesAt(p, text[t..], 0, j - t)
    {
      assert text[t..][0..j - t] == text[t..j];
    }
  }

  // ----- searching for a word -----

  /** A word without any of the matcher's special characters. */
  predicate Plain(w: string) { forall i: nat :: i < |w| ==> w[i] != '.' && w[i] != '*' && w[i] != '$' && w[i] != '^' }

  function Ending(atEnd: bool): string { if atEnd then "$" else "" }

  lemma {:induction false} WordHere(w: string, atEnd: bool, text: string)
    requires Plain(w)
    ensures Here(w + Ending(atEnd), text) <==> if atEnd then text == w else w <= text
  {
    var re := w + Ending(atEnd);
    if w == [] {
      HereEmpty(text);
      HereEnd(text);
      assert re == Ending(atEnd);
    } else {
      assert !(|re| > 1 && re[1] == '*');
      HereOne(re, text);
      assert re[1..] == w[1..] + Ending(atEnd);
      if text != [] {
        WordHere(w[1..], atEnd, text[1..]);
        assert text == [text[0]] + text[1..] && w == [w[0]] + w[1..];
      }
    }
  }

  lemma WordFrom(w: string, atEnd: bool, text: string, i: nat)
    requires Plain(w)
    ensures MatchesFrom(Parse(w + Ending(atEnd)), text, i) <==>
            i <= |text| && if atEnd then text[i..] == w else w <= text[i..]
  {
    if i <= |text| {
      SuffixMatches(Parse(w + Ending(atEnd)), text, i);
      WordHere(w, atEnd, text[i..]);
    }
  }

  lemma WordAnywhere(w: string, atEnd: bool, text: string)
    requires Plain(w)
    ensures Matches(w + Ending(atEnd), text) <==>
            exists i: nat :: i <= |text| && if atEnd then text[i..] == w else w <= text[i..]
    ensures Matches("^" + w + Ending(atEnd), text) <==> if atEnd then text == w else w <= text
  {
    var re := w + Ending(atEnd);
    forall i: nat
      ensures MatchesFrom(Parse(re), text, i) <==>
              i <= |text| && if atEnd then text[i..] == w else w <= text[i..]
    {
      WordFrom(w, atEnd, text, i);
    }
    assert Head(re) != '^' && text[0..] == text;
    assert ("^" + w + Ending(atEnd))[1..] == re;
    if i: nat :| i <= |text| && if atEnd then text[i..] == w else w <= text[i..] {
      assert MatchesFrom(Parse(re), text, i);
    }
  }

  /** A plain word is found exactly where it stands: anywhere, at the beginning with `^`, at the end with `$`, and
      as the whole line with both. */
  lemma WordMatches(w: string, text: string)
    requires Plain(w)
    ensures Matches(w, text) <==> exists i: nat :: i <= |text| && w <= text[i..]
    ensures Matches("^" + w, text) <==> w <= text
    ensures Matches(w + "$", text) <==> |w| <= |text| && text[|text| - |w|..] == w
    ensures Matches("^" + w + "$", text) <==> text == w
  {
    WordAnywhere(w, false, text);
    WordAnywhere(w, true, text);
    assert w + Ending(false) == w && "^" + w + Ending(false) == "^" + w;
  }

  /** `.` stands for any one character. */
  lemma DotIsAny(text: string)
    ensures Matches(".", text) <==> text != []
  {
    HereOne(".", text);
    if text != [] {
      HereEmpty(text[1..]);
      assert Here(".", text);
    }
    forall i: nat | MatchesFrom(Parse("."), text, i)
      ensures text != []
    {
      SuffixMatches(Parse("."), text, i);
      HereOne(".", text[i..]);
    }
  }

  /** A starred character stands for any number of it, and for anything if it is `.`. */
  lemma StarIsAll(c: char, text: string)
    ensures Matches("^" + [c] + "*$", text) <==> c == '.' || forall i: nat :: i < |text| ==> text[i] == c
  {
    var re := [c] + "*$";
    assert ("^" + [c] + "*$")[1..] == re && re[2..] == "$";
    HereMany(re, text);
    forall t: nat | StarHere(c, "$", text, t)
      ensures t == |text|
    {
      HereEnd(text[t..]);
    }
    assert text[..|text|] == text;
    HereEnd(text[|text|..]);
    hide Here;
    assert StarHere(c, "$", text, |text|) <==> AllFit(c, text);
  }
}
