/** Reachability in a finite directed graph given by its set of edges. The engine uses it
    three times: callers of a CFG (the call graph read backwards), the epsilon closure of an
    automaton state, and the states an automaton can reach at all. */
module Graphs {

  /** The nodes one edge away from `x`. */
  function Successors<T(==,!new)>(E: set<(T, T)>, x: T): (r: set<T>)
    ensures forall y :: y in r <==> (x, y) in E
  {
    set e | e in E && e.0 == x :: e.1
  }

  /** The nodes one edge away from some node of `src`. */
  function Image<T(==,!new)>(E: set<(T, T)>, src: set<T>): (r: set<T>)
    ensures forall y :: y in r <==> exists x :: x in src && (x, y) in E
  {
    set e | e in E && e.0 in src :: e.1
  }

  /** Every node that is the destination of some edge. */
  function Targets<T(==,!new)>(E: set<(T, T)>): (r: set<T>)
    ensures forall y :: y in r <==> exists x :: (x, y) in E
  {
    set e | e in E :: e.1
  }

  /** The edges of `E`, each turned around. */
  function Reversed<T(==,!new)>(E: set<(T, T)>): (r: set<(T, T)>)
    ensures forall x, y :: (x, y) in r <==> (y, x) in E
  {
    set e | e in E :: (e.1, e.0)
  }

  /** A non-empty walk along edges of `E`. */
  ghost predicate IsPath<T(!new)>(E: set<(T, T)>, p: seq<T>) {
    |p| >= 1 && forall i :: 0 <= i < |p| - 1 ==> (p[i], p[i + 1]) in E
  }

  /** `x` is reachable in zero or more steps from some node of `src`. */
  ghost predicate Reaches<T(!new)>(E: set<(T, T)>, src: set<T>, x: T) {
    exists p :: IsPath(E, p) && p[0] in src && p[|p| - 1] == x
  }

  /** `x` is reachable in one or more steps from some node of `src`. */
  ghost predicate ReachesPlus<T(!new)>(E: set<(T, T)>, src: set<T>, x: T) {
    exists p :: IsPath(E, p) && |p| >= 2 && p[0] in src && p[|p| - 1] == x
  }

  /** No edge leaves `S`. */
  ghost predicate Closed<T(!new)>(E: set<(T, T)>, S: set<T>) {
    forall x, y :: x in S && (x, y) in E ==> y in S
  }

  /** The set of nodes reachable from `src`: the specification of every closure algorithm. */
  ghost function Closure<T(!new)>(E: set<(T, T)>, src: set<T>): (r: set<T>)
    ensures forall x :: x in r <==> Reaches(E, src, x)
  {
    ReachesIsBounded(E, src);
    set x | x in src + Targets(E) && Reaches(E, src, x)
  }

  lemma ReachesStart<T(!new)>(E: set<(T, T)>, src: set<T>, x: T)
    requires x in src
    ensures Reaches(E, src, x)
  {
    assert IsPath(E, [x]);
  }

  lemma ReachesStep<T(!new)>(E: set<(T, T)>, src: set<T>, x: T, y: T)
    requires Reaches(E, src, x) && (x, y) in E
    ensures Reaches(E, src, y)
  {
    var p :| IsPath(E, p) && p[0] in src && p[|p| - 1] == x;
    var q := p + [y];
    assert forall i :: 0 <= i < |q| - 1 ==> q[i] == p[i];
    assert IsPath(E, q);
  }

  lemma ReachesIsBounded<T(!new)>(E: set<(T, T)>, src: set<T>)
    ensures forall x :: Reaches(E, src, x) ==> x in src + Targets(E)
  {
    forall x | Reaches(E, src, x)
      ensures x in src + Targets(E)
    {
      var p :| IsPath(E, p) && p[0] in src && p[|p| - 1] == x;
      if |p| > 1 {
        assert (p[|p| - 2], p[|p| - 1]) in E;
      }
    }
  }

  /** A closed set holding the sources holds everything they reach. */
  lemma {:induction false} ClosedHoldsReachable<T(!new)>(E: set<(T, T)>, src: set<T>, S: set<T>, x: T)
    requires src <= S && Closed(E, S) && Reaches(E, src, x)
    ensures x in S
  {
    var p :| IsPath(E, p) && p[0] in src && p[|p| - 1] == x;
    PathStaysIn(E, p, S);
  }

  lemma {:induction false} PathStaysIn<T(!new)>(E: set<(T, T)>, p: seq<T>, S: set<T>)
    requires IsPath(E, p) && p[0] in S && Closed(E, S)
    ensures p[|p| - 1] in S
    decreases |p|
  {
    if |p| > 1 {
      var q := p[..|p| - 1];
      assert forall i :: 0 <= i < |q| ==> q[i] == p[i];
      assert IsPath(E, q);
      PathStaysIn(E, q, S);
      assert (p[|p| - 2], p[|p| - 1]) in E;
    }
  }

  /** Reaching in one or more steps is reaching from the image of the sources. */
  lemma ReachesPlusFromImage<T(!new)>(E: set<(T, T)>, src: set<T>, x: T)
    ensures ReachesPlus(E, src, x) <==> Reaches(E, Image(E, src), x)
  {
    if ReachesPlus(E, src, x) {
      var p :| IsPath(E, p) && |p| >= 2 && p[0] in src && p[|p| - 1] == x;
      var q := p[1..];
      assert (p[0], p[1]) in E;
      assert forall i :: 0 <= i < |q| ==> q[i] == p[i + 1];
      assert IsPath(E, q) && q[0] in Image(E, src) && q[|q| - 1] == x;
    }
    if Reaches(E, Image(E, src), x) {
      var q :| IsPath(E, q) && q[0] in Image(E, src) && q[|q| - 1] == x;
      var s :| s in src && (s, q[0]) in E;
      var p := [s] + q;
      assert forall i :: 1 <= i < |p| - 1 ==> p[i] == q[i - 1] && p[i + 1] == q[i];
      assert IsPath(E, p);
    }
  }

  /** The closure of a union is the union of the closures. */
  lemma ClosureOfUnion<T(!new)>(E: set<(T, T)>, A: set<T>, B: set<T>)
    ensures Closure(E, A + B) == Closure(E, A) + Closure(E, B)
  {
    forall x | Reaches(E, A + B, x)
      ensures Reaches(E, A, x) || Reaches(E, B, x)
    {
      var p :| IsPath(E, p) && p[0] in A + B && p[|p| - 1] == x;
      if p[0] in A { assert Reaches(E, A, x); } else { assert Reaches(E, B, x); }
    }
    forall x | Reaches(E, A, x) || Reaches(E, B, x)
      ensures Reaches(E, A + B, x)
    {
      if Reaches(E, A, x) {
        var p :| IsPath(E, p) && p[0] in A && p[|p| - 1] == x;
        assert p[0] in A + B;
      } else {
        var p :| IsPath(E, p) && p[0] in B && p[|p| - 1] == x;
        assert p[0] in A + B;
      }
    }
  }

  /** A subset of a finite set is no larger. */
  lemma {:induction false} SubsetCardinality<T(!new)>(A: set<T>, B: set<T>)
    requires A <= B
    ensures |A| <= |B|
    decreases |A|
  {
    if A != {} {
      var x :| x in A;
      SubsetCardinality(A - {x}, B - {x});
    }
  }
}
