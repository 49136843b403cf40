/** Small notions the other modules share. */
module Basics {

  datatype Option<T> = None | Some(value: T)

  ghost predicate Distinct<T>(s: seq<T>) { forall i: nat, j: nat :: i < j < |s| ==> s[i] != s[j] }

  /** Different numbers below n are at most n. */
  lemma {:induction false} AtMost(s: seq<nat>, n: nat)
    requires Distinct(s) && forall i: nat :: i < |s| ==> s[i] < n
    ensures |s| <= n
    decreases n
  {
    if s != [] {
      assert s[0] < n;
      if n - 1 in s {
        var i: nat :| i < |s| && s[i] == n - 1;
        var s' := s[..i] + s[i + 1..];
        assert forall k: nat :: k < |s'| ==> s'[k] == s[if k < i then k else k + 1];
        AtMost(s', n - 1);
      } else {
        AtMost(s, n - 1);
      }
    }
  }
}
