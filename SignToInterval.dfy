/** The decoupler from the sign domain to the interval domain. It turns the results of an
    analysis run with sign environments into a seed for a run with interval environments,
    statement by statement. Heap state, type state, computed expressions and aliasing are
    carried over unchanged; only the value environment is converted, one identifier at a time. */
module SignToInterval {
  import opened Wrappers

  // ---------------------------------------------------------------------------------------
  // The two value domains

  /** The abstract signs. The source compares signs by reference with the five shared
      constants; `Unshared` stands for a sign object that is none of them. */
  datatype Sign = SignBottom | SignTop | Zero | Pos | Neg | Unshared

  /** The integers a sign stands for. `Unshared` is treated as the top sign. */
  predicate SignHolds(s: Sign, n: int) {
    match s
    case SignBottom => false
    case Zero => n == 0
    case Pos => n > 0
    case Neg => n < 0
    case SignTop => true
    case Unshared => true
  }

  /** Integers extended with the two infinities. */
  datatype MathNumber = MinusInfinity | Finite(n: int) | PlusInfinity

  predicate AtMost(a: MathNumber, n: int) {
    a.MinusInfinity? || (a.Finite? && a.n <= n)
  }

  predicate AtLeast(b: MathNumber, n: int) {
    b.PlusInfinity? || (b.Finite? && n <= b.n)
  }

  /** An interval: the empty one, or the integers between two extended bounds. */
  datatype Interval = IntervalBottom | Interval(low: MathNumber, high: MathNumber)

  const IntervalTop := Interval(MinusInfinity, PlusInfinity)
  const IntervalZero := Interval(Finite(0), Finite(0))

  predicate IntervalHolds(i: Interval, n: int) {
    i.Interval? && AtMost(i.low, n) && AtLeast(i.high, n)
  }

  /** The case map from signs to intervals: bottom to bottom, top to top, zero to [0, 0],
      positive to [1, +inf], negative to [-inf, -1], and any other sign object to top. Only
      the bottom sign yields the empty interval. */
  function Apply(s: Sign): (r: Interval)
    ensures r == IntervalBottom <==> s == SignBottom
    ensures s == SignTop || s == Unshared ==> r == IntervalTop
  {
    if s == SignBottom then IntervalBottom
    else if s == SignTop then IntervalTop
    else if s == Zero then IntervalZero
    else if s == Pos then Interval(Finite(1), PlusInfinity)
    else if s == Neg then Interval(MinusInfinity, Finite(-1))
    else IntervalTop
  }

  /** The interval a sign is mapped to holds exactly the integers the sign stands for: no
      integer is lost, and none is added. */
  lemma ApplyIsExact(s: Sign, n: int)
    ensures IntervalHolds(Apply(s), n) <==> SignHolds(s, n)
  {
  }

  /** The images of the positive and the negative sign share no integer, and neither holds 0. */
  lemma PosAndNegImagesAreDisjoint(n: int)
    ensures !(IntervalHolds(Apply(Pos), n) && IntervalHolds(Apply(Neg), n))
    ensures !IntervalHolds(Apply(Pos), 0) && !IntervalHolds(Apply(Neg), 0)
  {
  }

  // ---------------------------------------------------------------------------------------
  // Value environments

  type Identifier = string

  /** A value environment: a lattice element (whose bottom and top stand for the bottom and
      top environment) and a map from identifiers, which may be missing altogether. */
  datatype Env<V> = Env(lattice: V, bindings: Option<map<Identifier, V>>)

  /** The bottom interval environment. */
  const IntervalEnvBottom: Env<Interval> := Env(IntervalBottom, None)

  /** A sign environment is bottom when its lattice element is the bottom sign and it has no
      map. */
  predicate IsBottom(e: Env<Sign>) {
    e.lattice == SignBottom && e.bindings.None?
  }

  /** The top sign environment. */
  const SignEnvTop: Env<Sign> := Env(SignTop, None)

  /** Binding `id` to `v`, on a copy of the map (an empty one when there is none). */
  function PutState(e: Env<Interval>, id: Identifier, v: Interval): (r: Env<Interval>)
    ensures r.lattice == e.lattice && r.bindings.Some?
    ensures r.bindings.value == (if e.bindings.Some? then e.bindings.value else map[])[id := v]
  {
    Env(e.lattice, Some((if e.bindings.Some? then e.bindings.value else map[])[id := v]))
  }

  /** The top interval environment. */
  const IntervalEnvTop: Env<Interval> := Env(IntervalTop, None)

  /** The conversion of a whole environment as the source writes it: bottom, or one with no
      map, gives the bottom interval environment; otherwise each identifier of the map is
      bound to the image of its sign. The top environment has no map, so it is sent to bottom. */
  function DecoupledEnvironmentAsWritten(signEnv: Env<Sign>): (r: Env<Interval>)
    ensures signEnv.bindings.None? ==> r == IntervalEnvBottom
  {
    if IsBottom(signEnv) || signEnv.bindings.None? || signEnv.bindings.value == map[] then
      IntervalEnvBottom
    else
      var f := signEnv.bindings.value;
      Env(IntervalBottom, Some(map id | id in f :: Apply(f[id])))
  }

  /** The conversion of a whole environment, with the top environment sent to the top
      interval environment: bottom, or one with no map other than top, gives the bottom
      interval environment; otherwise each identifier of the map is bound to the image of its
      sign. An empty map binds nothing and leaves the bottom environment. */
  function DecoupledEnvironment(signEnv: Env<Sign>): Env<Interval> {
    if signEnv == SignEnvTop then IntervalEnvTop
    else if IsBottom(signEnv) || signEnv.bindings.None? || signEnv.bindings.value == map[] then
      IntervalEnvBottom
    else
      var f := signEnv.bindings.value;
      Env(IntervalBottom, Some(map id | id in f :: Apply(f[id])))
  }

  /** Converts a sign environment by rebinding, one identifier at a time, a new interval
      environment that starts at bottom. */
  method DecoupleEnvironment(signEnv: Env<Sign>) returns (r: Env<Interval>)
    ensures r == DecoupledEnvironment(signEnv)
  {
    var intervalEnv := Env(IntervalBottom, None);
    if IsBottom(signEnv) {
      return IntervalEnvBottom;
    }
    if signEnv.bindings.None? {
      return if signEnv.lattice == SignTop then IntervalEnvTop else IntervalEnvBottom;
    }
    var f := signEnv.bindings.value;
    var todo := f.Keys;
    ghost var done: set<Identifier> := {};
    while todo != {}
      invariant todo + done == f.Keys && todo !! done
      invariant done == {} ==> intervalEnv == IntervalEnvBottom
      invariant done != {} ==> intervalEnv == Env(IntervalBottom, Some(map id | id in done :: Apply(f[id])))
      decreases todo
    {
      var id :| id in todo;
      intervalEnv := PutState(intervalEnv, id, Apply(f[id]));
      assert intervalEnv.bindings.value == map i | i in done + {id} :: Apply(f[i]);
      todo, done := todo - {id}, done + {id};
    }
    if f != map[] {
      assert done == f.Keys;
    } else {
      assert done == {};
    }
    return intervalEnv;
  }

  /** A sign environment with identifiers keeps exactly those identifiers, each bound to the
      interval of its sign. */
  lemma DecouplingKeepsIdentifiers(signEnv: Env<Sign>, id: Identifier)
    requires signEnv.bindings.Some? && signEnv.bindings.value != map[] && !IsBottom(signEnv)
    ensures DecoupledEnvironment(signEnv).bindings.Some?
    ensures id in DecoupledEnvironment(signEnv).bindings.value <==> id in signEnv.bindings.value
    ensures id in signEnv.bindings.value ==>
      DecoupledEnvironment(signEnv).bindings.value[id] == Apply(signEnv.bindings.value[id])
  {
  }

  /** As written, bottom decouples to bottom and so does the top environment, which has no
      map: the top sign environment loses every value. */
  lemma TopDecouplesToBottomAsWritten()
    ensures DecoupledEnvironmentAsWritten(SignEnvTop) == IntervalEnvBottom
    ensures DecoupledEnvironmentAsWritten(SignEnvTop) != IntervalEnvTop
  {
  }

  /** Decoupling keeps the extreme environments: bottom goes to bottom and top to top. */
  lemma ExtremeEnvironmentsAreKept(signEnv: Env<Sign>)
    requires IsBottom(signEnv) || signEnv == SignEnvTop
    ensures IsBottom(signEnv) ==> DecoupledEnvironment(signEnv) == IntervalEnvBottom
    ensures signEnv == SignEnvTop ==> DecoupledEnvironment(signEnv) == IntervalEnvTop
  {
  }

  /** The correction touches the top environment alone: on every other environment the
      decoupling is the one the source computes. */
  lemma CorrectionOnlyChangesTop(signEnv: Env<Sign>)
    ensures signEnv != SignEnvTop ==> DecoupledEnvironment(signEnv) == DecoupledEnvironmentAsWritten(signEnv)
    ensures DecoupledEnvironment(SignEnvTop) != DecoupledEnvironmentAsWritten(SignEnvTop)
  {
  }

  // ---------------------------------------------------------------------------------------
  // Analysis states and statement stores

  /** A state of the simple abstract domain: heap, value and type parts. */
  datatype SimpleState<H, V, T> = SimpleState(heap: H, value: V, typeState: T)

  /** Aliasing between symbols, which the decoupler only carries over. */
  type SymbolAliasing = map<string, set<string>>

  /** An analysis state: an abstract state, the expressions computed last (of type `X`) and
      the aliasing. */
  datatype AnalysisState<H, V, T, X> = AnalysisState(state: SimpleState<H, V, T>, computed: X,
                                                     aliasing: SymbolAliasing)

  type SignState<H, T, X> = AnalysisState<H, Env<Sign>, T, X>
  type IntervalState<H, T, X> = AnalysisState<H, Env<Interval>, T, X>

  /** The analysis state of one statement, converted: the value environment is decoupled and
      everything else is kept. */
  function DecoupledState<H, T, X>(s: SignState<H, T, X>): IntervalState<H, T, X> {
    AnalysisState(SimpleState(s.state.heap, DecoupledEnvironment(s.state.value), s.state.typeState),
                  s.computed, s.aliasing)
  }

  /** A converted state differs from its original in the value environment alone. */
  lemma DecoupledStateKeepsTheRest<H, T, X>(s: SignState<H, T, X>)
    ensures DecoupledState(s).state.heap == s.state.heap
    ensures DecoupledState(s).state.typeState == s.state.typeState
    ensures DecoupledState(s).computed == s.computed && DecoupledState(s).aliasing == s.aliasing
    ensures DecoupledState(s).state.value == DecoupledEnvironment(s.state.value)
  {
  }

  /** Converts every entry of a statement store, putting the converted states into a new
      store one statement at a time. The new store has the same statements, and each is
      mapped to the conversion of its state. */
  method DecoupleStatementStore<St, H, T, X>(store: map<St, SignState<H, T, X>>)
    returns (r: map<St, IntervalState<H, T, X>>)
    ensures r.Keys == store.Keys
    ensures forall st :: st in r ==> r[st] == DecoupledState(store[st])
  {
    r := map[];
    var todo := store.Keys;
    while todo != {}
      invariant todo <= store.Keys
      invariant r.Keys == store.Keys - todo
      invariant forall st :: st in r ==> r[st] == DecoupledState(store[st])
      decreases todo
    {
      var st :| st in todo;
      var s := store[st];
      var env := DecoupleEnvironment(s.state.value);
      r := r[st := AnalysisState(SimpleState(s.state.heap, env, s.state.typeState), s.computed, s.aliasing)];
      todo := todo - {st};
    }
  }

  /** The results of one CFG: the CFG, the states at its entry statements and the states
      after each statement. */
  datatype CfgResults<C, St, S> = CfgResults(cfg: C, entryStates: map<St, S>, results: map<St, S>)

  /** The decoupler object. Its two states are set, after construction, by the
      interprocedural analysis that uses it. */
  class SignToIntervalDecoupler<H, T> {
    var ascendingState: Option<SimpleState<H, Env<Sign>, T>>
    var descendingState: Option<SimpleState<H, Env<Interval>, T>>

    /** The heap and type arguments are not used: both states are left unset. */
    constructor(heap: H, typeState: T)
      ensures ascendingState.None? && descendingState.None?
    {
      ascendingState := None;
      descendingState := None;
    }

    method SetStates(ascending: SimpleState<H, Env<Sign>, T>, descending: SimpleState<H, Env<Interval>, T>)
      modifies this
      ensures ascendingState == Some(ascending) && descendingState == Some(descending)
    {
      descendingState := Some(descending);
      ascendingState := Some(ascending);
    }

    function GetAscendingState(): (r: Option<SimpleState<H, Env<Sign>, T>>)
      reads this
      ensures r == ascendingState
    {
      ascendingState
    }

    function GetDescendingState(): (r: Option<SimpleState<H, Env<Interval>, T>>)
      reads this
      ensures r == descendingState
    {
      descendingState
    }

    /** Converts the results of one CFG: the same CFG, with both its entry-state store and its
        results store converted. */
    method Decouple<C, St, X>(ascending: CfgResults<C, St, SignState<H, T, X>>)
      returns (r: CfgResults<C, St, IntervalState<H, T, X>>)
      ensures r == DecoupledResults(ascending)
      ensures r.cfg == ascending.cfg
      ensures r.entryStates.Keys == ascending.entryStates.Keys && r.results.Keys == ascending.results.Keys
      ensures forall st :: st in r.entryStates ==> r.entryStates[st] == DecoupledState(ascending.entryStates[st])
      ensures forall st :: st in r.results ==> r.results[st] == DecoupledState(ascending.results[st])
    {
      var entries := DecoupleStatementStore(ascending.entryStates);
      var results := DecoupleStatementStore(ascending.results);
      r := CfgResults(ascending.cfg, entries, results);
    }
  }

  /** The conversion of one CFG's results, as a function of the input. */
  function DecoupledResults<C, St, H, T, X>(ascending: CfgResults<C, St, SignState<H, T, X>>)
    : CfgResults<C, St, IntervalState<H, T, X>>
  {
    CfgResults(ascending.cfg,
               map st | st in ascending.entryStates :: DecoupledState(ascending.entryStates[st]),
               map st | st in ascending.results :: DecoupledState(ascending.results[st]))
  }
}
