/** The abstract states of an analysis are kept abstract: a lattice is a record of its
    bottom element, its least upper bound and its partial order, and `Laws` states what
    every domain plugged into the engine must satisfy. */
module Lattices {

  datatype Lattice<!S> = Lattice(bottom: S, lub: (S, S) -> S, leq: (S, S) -> bool)

  predicate Leq<S>(L: Lattice<S>, a: S, b: S) {
    L.leq(a, b)
  }

  function Lub<S>(L: Lattice<S>, a: S, b: S): S {
    L.lub(a, b)
  }

  /** `leq` is a preorder, `lub` is a least upper bound and `bottom` is below everything. */
  ghost predicate Laws<S(!new)>(L: Lattice<S>) {
    (forall a :: Leq(L, a, a))
    && (forall a, b, c :: Leq(L, a, b) && Leq(L, b, c) ==> Leq(L, a, c))
    && (forall a, b :: Leq(L, a, Lub(L, a, b)) && Leq(L, b, Lub(L, a, b)))
    && (forall a, b, c :: Leq(L, a, c) && Leq(L, b, c) ==> Leq(L, Lub(L, a, b), c))
    && (forall a :: Leq(L, L.bottom, a))
  }
}
