/** The interprocedural analysis that runs in two domains: an ascending modular worst-case
    run with sign environments, a conversion of its per-CFG results into interval seeds, and
    a descending run with interval environments from those seeds. */
module DecouplingModular {
  import opened Wrappers
  import opened SignToInterval
  import opened ContextBased

  type SignResults<C, St, H, T, X> = CfgResults<C, St, SignState<H, T, X>>
  type IntervalResults<C, St, H, T, X> = CfgResults<C, St, IntervalState<H, T, X>>

  /** The modular worst-case analysis is not part of this model. Its runs are given as
      functions from their arguments to the per-CFG results they leave: `ascending` takes
      the entry state and the fixpoint configuration, `descending` takes the entry state, the
      working set, the descending mode and glb threshold, and the seeds. `heapBottom` and
      `typeBottom` are the bottoms of the heap and type parts, and `skip` is the expression
      that does nothing. */
  datatype ModularRuns<!C, !St, !H, !T, !X> = ModularRuns(
    heapBottom: H -> H,
    typeBottom: T -> T,
    skip: X,
    ascending: (SignState<H, T, X>, FixpointConfig) -> map<C, Option<SignResults<C, St, H, T, X>>>,
    descending: (IntervalState<H, T, X>, nat, DescendingPhaseType, int,
                 map<C, Option<IntervalResults<C, St, H, T, X>>>) -> map<C, Option<IntervalResults<C, St, H, T, X>>>)

  datatype DecouplingError<C> =
    | ApplicationMissing    // `init` was not called: the application is null
    | ResultMissing(cfg: C) // the ascending results have no entry for a CFG of the application
    | AbsentSeed(cfg: C)    // an absent ascending result reaches `Optional.of(null)`

  /** The seed of one CFG as the source builds it: a present result is converted; an absent
      one is wrapped in `Optional.of(null)`, which throws. */
  function SeedAsWritten<C, St, H, T, X>(cfg: C, ascending: Option<SignResults<C, St, H, T, X>>)
    : (r: Result<Option<IntervalResults<C, St, H, T, X>>, DecouplingError<C>>)
    ensures r.Failure? <==> ascending.None?
    ensures r.Success? ==> r.value == Seed(ascending)
  {
    if ascending.Some? then Success(Some(DecoupledResults(ascending.value)))
    else Failure(AbsentSeed(cfg))
  }

  /** The seed of one CFG: the conversion of a present result, and no seed for an absent one
      (a CFG the ascending run never reached). */
  function Seed<C, St, H, T, X>(ascending: Option<SignResults<C, St, H, T, X>>)
    : (r: Option<IntervalResults<C, St, H, T, X>>)
    ensures r.None? <==> ascending.None?
    ensures r.Some? ==> r.value.cfg == ascending.value.cfg &&
                        r.value.results.Keys == ascending.value.results.Keys &&
                        r.value.entryStates.Keys == ascending.value.entryStates.Keys
  {
    if ascending.Some? then Some(DecoupledResults(ascending.value)) else None
  }

  /** The seeds of all the CFGs. */
  function Seeds<C, St, H, T, X>(cfgs: set<C>, ascending: map<C, Option<SignResults<C, St, H, T, X>>>)
    : (r: map<C, Option<IntervalResults<C, St, H, T, X>>>)
    requires cfgs <= ascending.Keys
    ensures r.Keys == cfgs
  {
    map c | c in cfgs :: Seed(ascending[c])
  }

  /** The bottom of a state with sign environments. */
  function SignBottomOf<C, St, H, T, X>(runs: ModularRuns<C, St, H, T, X>, s: SimpleState<H, Env<Sign>, T>)
    : SimpleState<H, Env<Sign>, T>
  {
    SimpleState(runs.heapBottom(s.heap), Env(SignBottom, None), runs.typeBottom(s.typeState))
  }

  /** The bottom of a state with interval environments. */
  function IntervalBottomOf<C, St, H, T, X>(runs: ModularRuns<C, St, H, T, X>, s: SimpleState<H, Env<Interval>, T>)
    : SimpleState<H, Env<Interval>, T>
  {
    SimpleState(runs.heapBottom(s.heap), IntervalEnvBottom, runs.typeBottom(s.typeState))
  }

  class DecouplingModularAnalysis<C(==), St(==), H, T, X> {
    const decoupler: SignToIntervalDecoupler<H, T>
    const ascendingState: SimpleState<H, Env<Sign>, T>
    const descendingState: SimpleState<H, Env<Interval>, T>
    /** The CFGs of the application, once `Init` has run. */
    var allCfgs: Option<set<C>>
    var results: Option<map<C, Option<IntervalResults<C, St, H, T, X>>>>

    /** Keeps the decoupler and the two states, and hands both states to the decoupler. */
    constructor(decoupler: SignToIntervalDecoupler<H, T>, ascendingState: SimpleState<H, Env<Sign>, T>,
                descendingState: SimpleState<H, Env<Interval>, T>)
      modifies decoupler
      ensures this.decoupler == decoupler
      ensures this.ascendingState == ascendingState && this.descendingState == descendingState
      ensures decoupler.ascendingState == Some(ascendingState)
      ensures decoupler.descendingState == Some(descendingState)
      ensures allCfgs.None? && results.None?
    {
      this.decoupler := decoupler;
      this.ascendingState := ascendingState;
      this.descendingState := descendingState;
      allCfgs := None;
      results := None;
      new;
      decoupler.SetStates(ascendingState, descendingState);
    }

    /** Records the application's CFGs. */
    method Init(cfgs: set<C>)
      modifies this`allCfgs
      ensures allCfgs == Some(cfgs)
    {
      allCfgs := Some(cfgs);
    }

    /** The entry state of the ascending run: the bottom of the ascending state, whatever the
        caller's entry state. */
    function AscendingEntry(runs: ModularRuns<C, St, H, T, X>): SignState<H, T, X>
    {
      AnalysisState(SignBottomOf(runs, ascendingState), runs.skip, map[])
    }

    /** The entry state of the descending run: the bottom of the descending state. */
    function DescendingEntry(runs: ModularRuns<C, St, H, T, X>): IntervalState<H, T, X>
    {
      AnalysisState(IntervalBottomOf(runs, descendingState), runs.skip, map[])
    }

    /** The configuration of the ascending run: the caller's working set and widening
        threshold, no descending phase, and glb threshold 0. */
    static function AscendingConfig(config: FixpointConfig): (r: FixpointConfig)
      ensures r.workingSet == config.workingSet && r.wideningThreshold == config.wideningThreshold
      ensures r.descendingPhase == NONE && r.descendingGlbThreshold == 0
    {
      FixpointConfig(config.workingSet, config.wideningThreshold, NONE, 0)
    }

    /** Runs the ascending analysis from bottom, seeds every CFG of the application from its
        ascending result, and runs the descending analysis from those seeds with the
        caller's descending mode and threshold; its results become `results`. The run fails,
        leaving `results` as it was, when the application is unknown or a CFG has no entry in
        the ascending results. The caller's entry state plays no part. */
    method Fixpoint(entryState: IntervalState<H, T, X>, config: FixpointConfig, runs: ModularRuns<C, St, H, T, X>)
      returns (r: Result<(), DecouplingError<C>>)
      modifies this`results
      ensures var asc := runs.ascending(AscendingEntry(runs), AscendingConfig(config));
        r.Failure? <==> allCfgs.None? || !(allCfgs.value <= asc.Keys)
      ensures r.Failure? ==> results == old(results)
      ensures r.Success? ==>
        var asc := runs.ascending(AscendingEntry(runs), AscendingConfig(config));
        results == Some(runs.descending(DescendingEntry(runs), config.workingSet, config.descendingPhase,
                                        config.descendingGlbThreshold, Seeds(allCfgs.value, asc)))
    {
      var asc := runs.ascending(AscendingEntry(runs), AscendingConfig(config));
      if allCfgs.None? {
        return Failure(ApplicationMissing);
      }
      var cfgs := allCfgs.value;
      var seeds: map<C, Option<IntervalResults<C, St, H, T, X>>> := map[];
      var todo := cfgs;
      while todo != {}
        invariant todo <= cfgs
        invariant cfgs - todo <= asc.Keys && results == old(results)
        invariant seeds.Keys == cfgs - todo
        invariant forall c :: c in seeds ==> seeds[c] == Seed(asc[c])
        decreases todo
      {
        var c :| c in todo;
        if c !in asc {
          return Failure(ResultMissing(c));
        }
        if asc[c].Some? {
          var d := decoupler.Decouple(asc[c].value);
          seeds := seeds[c := Some(d)];
        } else {
          seeds := seeds[c := None];
        }
        todo := todo - {c};
      }
      assert seeds == Seeds(cfgs, asc);
      results := Some(runs.descending(DescendingEntry(runs), config.workingSet, config.descendingPhase,
                                      config.descendingGlbThreshold, seeds));
      return Success(());
    }

    /** Not implemented: always null. */
    function GetAnalysisResultsOf(cfg: C): (r: Option<seq<IntervalResults<C, St, H, T, X>>>)
      ensures r.None?
    {
      None
    }

    /** Not implemented, for calls to CFGs and for open calls alike: always null. */
    function GetAbstractResultOf<Call>(call: Call, entryState: IntervalState<H, T, X>): (r: Option<IntervalState<H, T, X>>)
      ensures r.None?
    {
      None
    }

    /** Not implemented: always null. */
    function Resolve<Call>(call: Call): (r: Option<Call>)
      ensures r.None?
    {
      None
    }

    /** Not implemented: changes nothing. */
    method DescendingPhase(entryState: IntervalState<H, T, X>, config: FixpointConfig,
                           ascending: map<C, Option<IntervalResults<C, St, H, T, X>>>)
      ensures unchanged(this)
    {
    }
  }
}
