/** Sequences without repetitions: the worklists and the macro-state lists are kept free of
    duplicates, which bounds their length by the size of the set they are drawn from. */
module Sequences {

  /** No element occurs twice. */
  ghost predicate NoDuplicates<T>(s: seq<T>) {
    forall i, j :: 0 <= i < j < |s| ==> s[i] != s[j]
  }

  lemma NoDuplicatesConcat<T>(a: seq<T>, b: seq<T>)
    requires NoDuplicates(a) && NoDuplicates(b)
    requires forall x :: x in a ==> x !in b
    ensures NoDuplicates(a + b)
  {
    var s := a + b;
    forall i, j | 0 <= i < j < |s|
      ensures s[i] != s[j]
    {
      if j < |a| {
        assert s[i] == a[i] && s[j] == a[j];
      } else if i >= |a| {
        assert s[i] == b[i - |a|] && s[j] == b[j - |a|];
      } else {
        assert s[i] == a[i] && s[j] == b[j - |a|];
        assert a[i] in a;
      }
    }
  }

  /** A sequence without repetitions drawn from `P` is no longer than `P` is large. */
  lemma {:induction false} DistinctWithin<T>(s: seq<T>, P: set<T>)
    requires NoDuplicates(s) && forall i :: 0 <= i < |s| ==> s[i] in P
    ensures |s| <= |P|
    decreases |s|
  {
    if s != [] {
      var last := s[|s| - 1];
      var init := s[..|s| - 1];
      forall i | 0 <= i < |init|
        ensures init[i] in P - {last}
      {
        assert init[i] == s[i];
      }
      DistinctWithin(init, P - {last});
    }
  }
}
