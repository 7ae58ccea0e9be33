/** The Tarsis string domain: an abstract string is a regex automaton. The automaton itself is
    not part of this model; the operations the domain uses are given by `RegexOps`. What is
    modelled here is the domain's own logic: the capped size difference that drives widening,
    the decision of `contains` for two finite languages, and the evaluation of constants and
    binary expressions. */
module Tarsis {

  /** The widening threshold cap, and the threshold when both automata have the same size. */
  const WideningCap := 5

  /** The operations of the regex automaton that the domain calls. `language` is meaningful
      for an automaton with no cycle that never reads the unknown string. */
  datatype RegexOps<!A> = RegexOps(
    topString: A,
    ofString: string -> A,
    concat: (A, A) -> A,
    stateCount: A -> nat,
    hasCycle: A -> bool,
    acceptsTopEventually: A -> bool,
    language: A -> seq<string>)

  datatype Tarsis<A> = Tarsis(a: A)

  function Top<A>(ops: RegexOps<A>): Tarsis<A> {
    Tarsis(ops.topString)
  }

  /** The size of an abstract string: the number of states of its automaton. */
  function Size<A>(ops: RegexOps<A>, t: Tarsis<A>): nat {
    ops.stateCount(t.a)
  }

  /** The difference of the two sizes, capped at `WideningCap`; the cap itself when the sizes
      are equal. */
  function GetSizeDiffCapped<A>(ops: RegexOps<A>, t: Tarsis<A>, other: Tarsis<A>): (r: int)
    ensures 1 <= r <= WideningCap
    ensures r < WideningCap ==> r == Size(ops, t) - Size(ops, other) || r == Size(ops, other) - Size(ops, t)
    ensures Size(ops, t) != Size(ops, other) ==>
      r <= Size(ops, t) - Size(ops, other) || r <= Size(ops, other) - Size(ops, t)
  {
    var size := Size(ops, t);
    var otherSize := Size(ops, other);
    if size > otherSize then Min(size - otherSize, WideningCap)
    else if size < otherSize then Min(otherSize - size, WideningCap)
    else WideningCap
  }

  function Min(a: int, b: int): int {
    if a <= b then a else b
  }

  /** The capped difference does not depend on the order of the operands. */
  lemma SizeDiffCappedIsSymmetric<A>(ops: RegexOps<A>, t: Tarsis<A>, other: Tarsis<A>)
    ensures GetSizeDiffCapped(ops, t, other) == GetSizeDiffCapped(ops, other, t)
  {
  }

  datatype Satisfiability = SATISFIED | NOT_SATISFIED | UNKNOWN

  /** `b` occurs in `a`, as Java's `String.contains` decides. */
  predicate Occurs(b: string, a: string) {
    exists k | 0 <= k <= |a| - |b| :: OccursAt(b, a, k)
  }

  /** `b` occurs in `a` at position `k`. */
  predicate OccursAt(b: string, a: string, k: nat) {
    k + |b| <= |a| && a[k..k + |b|] == b
  }

  /** Every string of `left` contains every string of `right`. */
  predicate AllContained(left: seq<string>, right: seq<string>) {
    forall i, j :: 0 <= i < |left| && 0 <= j < |right| ==> Occurs(right[j], left[i])
  }

  /** Some string of `left` contains some string of `right`. */
  predicate SomeContained(left: seq<string>, right: seq<string>) {
    exists i, j :: 0 <= i < |left| && 0 <= j < |right| && Occurs(right[j], left[i])
  }

  /** Compares two finite languages pair by pair, keeping two flags: whether some pair is
      contained and whether all are. All contained is SATISFIED (also when either language is
      empty), some but not all is UNKNOWN, none is NOT_SATISFIED. */
  method CompareLanguages(left: seq<string>, right: seq<string>) returns (r: Satisfiability)
    ensures r == SATISFIED <==> AllContained(left, right)
    ensures r == UNKNOWN <==> !AllContained(left, right) && SomeContained(left, right)
    ensures r == NOT_SATISFIED <==> !AllContained(left, right) && !SomeContained(left, right)
    ensures left == [] || right == [] ==> r == SATISFIED
  {
    var atLeastOne, all := false, true;
    for i := 0 to |left|
      invariant atLeastOne <==> exists i', j :: 0 <= i' < i && 0 <= j < |right| && Occurs(right[j], left[i'])
      invariant all <==> forall i', j :: 0 <= i' < i && 0 <= j < |right| ==> Occurs(right[j], left[i'])
    {
      for j := 0 to |right|
        invariant atLeastOne <==>
          (exists i', j' :: 0 <= i' < i && 0 <= j' < |right| && Occurs(right[j'], left[i'])) ||
          (exists j' :: 0 <= j' < j && Occurs(right[j'], left[i]))
        invariant all <==>
          (forall i', j' :: 0 <= i' < i && 0 <= j' < |right| ==> Occurs(right[j'], left[i'])) &&
          (forall j' :: 0 <= j' < j ==> Occurs(right[j'], left[i]))
      {
        var cont := Occurs(right[j], left[i]);
        atLeastOne := atLeastOne || cont;
        all := all && cont;
      }
    }
    if all {
      return SATISFIED;
    }
    if atLeastOne {
      return UNKNOWN;
    }
    return NOT_SATISFIED;
  }

  /** Both automata have no cycle and never read the unknown string, so their languages can
      be compared string by string. */
  predicate BothFinite<A>(ops: RegexOps<A>, left: Tarsis<A>, other: Tarsis<A>) {
    !ops.hasCycle(left.a) && !ops.hasCycle(other.a) &&
    !ops.acceptsTopEventually(left.a) && !ops.acceptsTopEventually(other.a)
  }

  /** Whether the strings of `left` contain those of `other`. With two finite languages, the
      answer comes from comparing them; otherwise it is the outcome of the automaton-based
      checks, given here as `cyclicOutcome`. */
  method Contains<A>(ops: RegexOps<A>, left: Tarsis<A>, other: Tarsis<A>, cyclicOutcome: Satisfiability)
    returns (r: Satisfiability)
    ensures BothFinite(ops, left, other) ==>
      (r == SATISFIED <==> AllContained(ops.language(left.a), ops.language(other.a))) &&
      (r == NOT_SATISFIED <==> !SomeContained(ops.language(left.a), ops.language(other.a)) &&
                               !AllContained(ops.language(left.a), ops.language(other.a)))
    ensures !BothFinite(ops, left, other) ==> r == cyclicOutcome
  {
    if BothFinite(ops, left, other) {
      r := CompareLanguages(ops.language(left.a), ops.language(other.a));
    } else {
      r := cyclicOutcome;
    }
  }

  datatype BinaryOperator = StringConcat | StringContains | OtherOperator(name: string)

  /** Only `contains` is decided; every other operator is UNKNOWN. */
  method SatisfiesBinaryExpression<A>(ops: RegexOps<A>, operator: BinaryOperator, left: Tarsis<A>,
                                      right: Tarsis<A>, cyclicOutcome: Satisfiability)
    returns (r: Satisfiability)
    ensures operator != StringContains ==> r == UNKNOWN
    ensures operator == StringContains && BothFinite(ops, left, right) ==>
      (r == SATISFIED <==> AllContained(ops.language(left.a), ops.language(right.a))) &&
      (r == NOT_SATISFIED <==> !SomeContained(ops.language(left.a), ops.language(right.a)) &&
                               !AllContained(ops.language(left.a), ops.language(right.a)))
    ensures operator == StringContains && !BothFinite(ops, left, right) ==> r == cyclicOutcome
  {
    if operator == StringContains {
      r := Contains(ops, left, right, cyclicOutcome);
    } else {
      r := UNKNOWN;
    }
  }

  /** Only concatenation is evaluated, to the concatenation of the automata; every other
      operator gives top. */
  function EvalBinaryExpression<A>(ops: RegexOps<A>, operator: BinaryOperator, left: Tarsis<A>, right: Tarsis<A>)
    : (r: Tarsis<A>)
    ensures operator != StringConcat ==> r == Top(ops)
    ensures operator == StringConcat ==> r.a == ops.concat(left.a, right.a)
  {
    if operator == StringConcat then Tarsis(ops.concat(left.a, right.a)) else Top(ops)
  }

  datatype ConstantValue = StringValue(s: string) | IntValue(i: int) | BoolValue(b: bool)

  /** A string constant becomes the automaton of that one string; any other constant is top. */
  function EvalNonNullConstant<A>(ops: RegexOps<A>, constant: ConstantValue): (r: Tarsis<A>)
    ensures constant.StringValue? ==> r.a == ops.ofString(constant.s)
    ensures !constant.StringValue? ==> r == Top(ops)
  {
    if constant.StringValue? then Tarsis(ops.ofString(constant.s)) else Top(ops)
  }
}
