/**
 * The context-sensitive interprocedural driver. It keeps a result cache keyed by CFG and then
 * by calling-context token, re-analyses the entry points until no CFG is triggered, forgets the
 * transitive callers of the triggered CFGs after every pass, and resolves each call either by
 * reusing a cached exit state or by computing (and caching) a new fixpoint of the callee.
 *
 * Abstract states, the intraprocedural fixpoint, the parameter-assigning strategy and the
 * scope push/pop on states are collaborators whose code is not part of this model: they are
 * the functions of a `Collaborators` record.
 */
module ContextBased {
  import opened Wrappers
  import opened Graphs
  import opened Lattices
  import opened Sequences

  // ---------------------------------------------------------------------------------------
  // Diagnostic ordinals ("1st", "2nd", "3rd", "4th", ..., "11th", ..., "21st")

  /** Java's `/` on `int`: the quotient is truncated toward zero. */
  function JavaQuot(a: int, b: int): int
    requires b > 0
  {
    if a >= 0 then a / b else -((-a) / b)
  }

  /** Java's `%` on `int`: the remainder has the sign of the dividend, and quotient times
      divisor plus remainder gives back the dividend. */
  function JavaRem(a: int, b: int): (r: int)
    requires b > 0
    ensures a >= 0 ==> r == a % b
    ensures a < 0 ==> -b < r <= 0
    ensures b * JavaQuot(a, b) + r == a
  {
    if a >= 0 then a % b else -((-a) % b)
  }

  /** The value of a string of decimal digits, most significant first. */
  ghost function DigitsValue(s: string): int
    decreases |s|
  {
    if s == [] then 0 else 10 * DigitsValue(s[..|s| - 1]) + (s[|s| - 1] as int - '0' as int)
  }

  /** The decimal digits of `n`, most significant first, without leading zeros. */
  function Digits(n: nat): (s: string)
    ensures |s| >= 1 && forall k :: 0 <= k < |s| ==> '0' <= s[k] <= '9'
    ensures DigitsValue(s) == n
    ensures |s| > 1 ==> s[0] != '0'
  {
    if n < 10 then [('0' as int + n) as char] else Digits(n / 10) + Digits(n % 10)
  }

  /** Java's decimal rendering of an `int` (the left operand of `i + "th"`). */
  function DecimalString(i: int): (r: string)
    ensures i >= 0 ==> |r| >= 1 && DigitsValue(r) == i && '0' <= r[0] <= '9'
    ensures i < 0 ==> |r| >= 2 && r[0] == '-' && DigitsValue(r[1..]) == -i
  {
    if i < 0 then "-" + Digits(-i) else Digits(i)
  }

  lemma LastDigitOfLastTwo(i: nat)
    ensures (i % 100) % 10 == i % 10
  {
    var q, m := i / 100, i % 100;
    assert i == 100 * q + m;
    var s, d := m / 10, m % 10;
    assert m == 10 * s + d;
    RemainderOfTen(i, 10 * q + s, d);
  }

  /** The remainder by ten of `10 * k + d`, for a digit `d`, is `d`. */
  lemma RemainderOfTen(a: int, k: int, d: int)
    requires 0 <= d < 10 && a == 10 * k + d
    ensures a % 10 == d
  {
  }

  /** The English ordinal suffix of an iteration number. For a negative argument Java's
      truncating `%` makes every suffix other than "th" come out as "rd". */
  function OrdinalSuffix(i: int): (r: string)
    ensures |r| == 2
    ensures i >= 0 ==> (r == "th" <==> i % 100 in {11, 12, 13} || i % 10 == 0 || i % 10 > 3)
    ensures i >= 0 && i % 100 !in {11, 12, 13} ==>
      (i % 10 == 1 ==> r == "st") && (i % 10 == 2 ==> r == "nd") && (i % 10 == 3 ==> r == "rd")
    ensures i < 0 ==> r in {"th", "rd"}
  {
    assert i >= 0 ==> (i % 100) % 10 == i % 10 by {
      if i >= 0 { LastDigitOfLastTwo(i); }
    }
    var n := JavaRem(i, 100);
    if n == 11 || n == 12 || n == 13 || JavaRem(n, 10) == 0 || JavaRem(n, 10) > 3 then "th"
    else if JavaRem(n, 10) == 1 then "st"
    else if JavaRem(n, 10) == 2 then "nd"
    else "rd"
  }

  /** The iteration number followed by its English ordinal suffix. */
  function Ordinal(i: int): (r: string)
    ensures |r| == |DecimalString(i)| + 2 && r[..|DecimalString(i)|] == DecimalString(i)
    ensures i >= 0 ==>
      (r[|DecimalString(i)|..] == "th" <==> i % 100 in {11, 12, 13} || i % 10 == 0 || i % 10 > 3)
    ensures i >= 0 && i % 100 !in {11, 12, 13} ==>
      (i % 10 == 1 ==> r[|DecimalString(i)|..] == "st") &&
      (i % 10 == 2 ==> r[|DecimalString(i)|..] == "nd") &&
      (i % 10 == 3 ==> r[|DecimalString(i)|..] == "rd")
    ensures i < 0 ==> r[|DecimalString(i)|..] in {"th", "rd"}
  {
    var digits, suffix := DecimalString(i), OrdinalSuffix(i);
    assert (digits + suffix)[|digits|..] == suffix;
    digits + suffix
  }

  // ---------------------------------------------------------------------------------------
  // Tokens, configuration, results and the result cache

  datatype DescendingPhaseType = NONE | NARROWING | GLB

  /** The parameters that the driver hands, unchanged, to every intraprocedural fixpoint. */
  datatype FixpointConfig = FixpointConfig(
    workingSet: nat,
    wideningThreshold: int,
    descendingPhase: DescendingPhaseType,
    descendingGlbThreshold: int)

  /** What the fixpoint of one CFG yields, as far as the driver looks at it. */
  datatype CfgResult<S> = CfgResult(entry: S, exit: S)

  predicate ResultLeq<S>(L: Lattice<S>, a: CfgResult<S>, b: CfgResult<S>) {
    Leq(L, a.entry, b.entry) && Leq(L, a.exit, b.exit)
  }

  function ResultLub<S>(L: Lattice<S>, a: CfgResult<S>, b: CfgResult<S>): CfgResult<S> {
    CfgResult(Lub(L, a.entry, b.entry), Lub(L, a.exit, b.exit))
  }

  /** The fixpoint results: for each CFG, its results per context token `Tok`. A CFG that is
      not a key has not been computed (or has been forgotten). */
  type Cache<Cfg, Tok, S> = map<Cfg, map<Tok, CfgResult<S>>>

  /** What storing a result reports: whether the stored value grew, and the value now stored. */
  datatype Stored<Cfg, Tok, S> = Stored(changed: bool, stored: CfgResult<S>, cache: Cache<Cfg, Tok, S>)

  /** Stores `computed` for (`cfg`, `tok`): a first result is stored as it is; a later one that is
      already covered leaves the previous one in place; otherwise the two are joined and the
      store reports a change. */
  function PutResult<Cfg(==), Tok(==), S>(L: Lattice<S>, cache: Cache<Cfg, Tok, S>, cfg: Cfg, tok: Tok,
                                          computed: CfgResult<S>): (r: Stored<Cfg, Tok, S>)
    ensures r.cache.Keys == cache.Keys + {cfg}
    ensures forall c :: c in cache && c != cfg ==> r.cache[c] == cache[c]
    ensures r.cache[cfg] == (if cfg in cache then cache[cfg] else map[])[tok := r.stored]
    ensures r.changed <==> cfg in cache && tok in cache[cfg] && !ResultLeq(L, computed, cache[cfg][tok])
    ensures !(cfg in cache && tok in cache[cfg]) ==> r.stored == computed
    ensures Grows(cache, r.cache)
  {
    var previous := if cfg in cache then cache[cfg] else map[];
    if tok !in previous then
      Stored(false, computed, cache[cfg := previous[tok := computed]])
    else if ResultLeq(L, computed, previous[tok]) then
      Stored(false, previous[tok], cache[cfg := previous])
    else
      var joined := ResultLub(L, previous[tok], computed);
      Stored(true, joined, cache[cfg := previous[tok := joined]])
  }

  /** With lattice laws, the stored value covers both the new and the previous result, a
      reported change means the stored value strictly grew, and no change means nothing moved. */
  lemma PutResultIsMonotone<Cfg, Tok, S(!new)>(L: Lattice<S>, cache: Cache<Cfg, Tok, S>, cfg: Cfg, tok: Tok,
                                             computed: CfgResult<S>)
    requires Laws(L)
    ensures var r := PutResult(L, cache, cfg, tok, computed);
      ResultLeq(L, computed, r.stored) &&
      (cfg in cache && tok in cache[cfg] ==>
        ResultLeq(L, cache[cfg][tok], r.stored) &&
        (r.changed <==> !ResultLeq(L, r.stored, cache[cfg][tok])) &&
        (!r.changed ==> r.stored == cache[cfg][tok] && r.cache == cache))
  {
    var r := PutResult(L, cache, cfg, tok, computed);
    if cfg in cache && tok in cache[cfg] {
      var prev := cache[cfg][tok];
      if r.changed {
        // the join is above the computed result, so it cannot be below the previous one
        assert ResultLeq(L, computed, r.stored);
        if ResultLeq(L, r.stored, prev) {
          assert Leq(L, computed.entry, r.stored.entry) && Leq(L, r.stored.entry, prev.entry);
          assert Leq(L, computed.exit, r.stored.exit) && Leq(L, r.stored.exit, prev.exit);
          assert ResultLeq(L, computed, prev);
          assert false;
        }
      } else {
        assert cache[cfg := cache[cfg]] == cache;
      }
    }
  }

  /** Removes every CFG of `stale` from the cache. */
  function Forget<Cfg(==), Tok, S>(cache: Cache<Cfg, Tok, S>, stale: set<Cfg>): (r: Cache<Cfg, Tok, S>)
    ensures r.Keys == cache.Keys - stale
    ensures forall c :: c in r ==> r[c] == cache[c]
  {
    map c | c in cache && c !in stale :: cache[c]
  }

  /** All the results cached for `cfg`, over every context; none when it is not cached. */
  function AllResults<Cfg(==), Tok, S(==)>(cache: Cache<Cfg, Tok, S>, cfg: Cfg): (r: set<CfgResult<S>>)
    ensures cfg !in cache ==> r == {}
    ensures forall t :: cfg in cache && t in cache[cfg] ==> cache[cfg][t] in r
    ensures forall x :: x in r ==> exists t :: cfg in cache && t in cache[cfg] && cache[cfg][t] == x
  {
    if cfg in cache then cache[cfg].Values else {}
  }

  /** A forgotten CFG has no results left, and any other CFG keeps all of its results. */
  lemma ForgetDropsExactlyTheStale<Cfg, Tok, S>(cache: Cache<Cfg, Tok, S>, stale: set<Cfg>, cfg: Cfg)
    ensures cfg in stale ==> AllResults(Forget(cache, stale), cfg) == {}
    ensures cfg !in stale ==> AllResults(Forget(cache, stale), cfg) == AllResults(cache, cfg)
  {
  }

  // ---------------------------------------------------------------------------------------
  // The collaborators the driver consults

  /** A call statement: its scope token, the CFG it belongs to and the CFGs it may target. */
  datatype CallSite<Cfg> = CallSite(scope: nat, caller: Cfg, targets: seq<Cfg>)

  /** The call-graph edges (caller, callee) that registering `site` records. */
  function CallEdges<Cfg(==,!new)>(site: CallSite<Cfg>): (r: set<(Cfg, Cfg)>)
    ensures forall e :: e in r <==> e.0 == site.caller && e.1 in site.targets
  {
    set t | t in site.targets :: (site.caller, t)
  }

  /**
   * The code the driver calls but does not own. The intraprocedural fixpoint of a CFG is
   * represented by the calls it resolves (in order), the state it reaches at each of them and
   * the exit state it ends with; `None` stands for an exception raised by that code.
   */
  datatype Collaborators<!Cfg, !S, !Tok> = Collaborators(
    lattice: Lattice<S>,
    // the calls resolved while computing the fixpoint of a CFG
    callsOf: Cfg -> seq<CallSite<Cfg>>,
    // the caller's state at a call, given its entry state and what earlier calls returned
    stateAtCall: (CallSite<Cfg>, S, seq<S>) -> S,
    // entry state of a target: scope push of the caller's state, then parameter assignment
    prepareCall: (CallSite<Cfg>, Cfg, S) -> S,
    // the callee's exit state with its return values assigned to the call's meta variable,
    // scope popped
    returnedState: (CallSite<Cfg>, S) -> S,
    // the exit state of the intraprocedural fixpoint, or None when it fails
    exitOf: (Cfg, S, seq<S>, FixpointConfig) -> Option<S>,
    // the entry state of an entry point, or None when it cannot be built
    prepareEntry: (Cfg, S) -> Option<S>,
    // the context-sensitivity token: the context of the entry points, and the push and the
    // pop of a call's scope
    emptyToken: Tok,
    pushToken: (Tok, nat) -> Tok,
    popToken: Tok -> Tok)

  /** Popping a scope gives back the token it was pushed on; the driver restores its token
      after a call only under this law. */
  ghost predicate PopUndoesPush<Cfg, S, Tok(!new)>(sem: Collaborators<Cfg, S, Tok>) {
    forall t, s :: sem.popToken(sem.pushToken(t, s)) == t
  }

  /** The lub, from bottom and in target order, of what each target returns to the caller. */
  function JoinReturns<Cfg, S, Tok>(sem: Collaborators<Cfg, S, Tok>, site: CallSite<Cfg>, exits: seq<S>): S
    decreases |exits|
  {
    if exits == [] then sem.lattice.bottom
    else Lub(sem.lattice, JoinReturns(sem, site, exits[..|exits| - 1]),
             sem.returnedState(site, exits[|exits| - 1]))
  }

  /** With lattice laws, `JoinReturns` is the least upper bound of the returned states: it is
      above each of them and below any common upper bound (so no target at all gives bottom). */
  lemma {:induction false} JoinReturnsIsLeastUpperBound<Cfg, S(!new), Tok>(
    sem: Collaborators<Cfg, S, Tok>, site: CallSite<Cfg>, exits: seq<S>, u: S)
    requires Laws(sem.lattice)
    ensures forall i :: 0 <= i < |exits| ==>
      Leq(sem.lattice, sem.returnedState(site, exits[i]), JoinReturns(sem, site, exits))
    ensures (forall i :: 0 <= i < |exits| ==> Leq(sem.lattice, sem.returnedState(site, exits[i]), u))
      ==> Leq(sem.lattice, JoinReturns(sem, site, exits), u)
    decreases |exits|
  {
    if exits != [] {
      var L := sem.lattice;
      var init := exits[..|exits| - 1];
      JoinReturnsIsLeastUpperBound(sem, site, init, u);
      var prefix := JoinReturns(sem, site, init);
      var last := sem.returnedState(site, exits[|exits| - 1]);
      var all := JoinReturns(sem, site, exits);
      assert all == Lub(L, prefix, last);
      forall i | 0 <= i < |exits|
        ensures Leq(L, sem.returnedState(site, exits[i]), all)
      {
        if i < |exits| - 1 {
          assert exits[i] == init[i];
          assert Leq(L, sem.returnedState(site, init[i]), prefix);
          assert Leq(L, prefix, all);
        }
      }
      if forall i :: 0 <= i < |exits| ==> Leq(L, sem.returnedState(site, exits[i]), u) {
        assert forall i :: 0 <= i < |init| ==> init[i] == exits[i];
        assert Leq(L, prefix, u);
        assert Leq(L, last, u);
      }
    }
  }

  /** The cached pair is reused when the prepared entry state is below its entry state. */
  predicate Reuses<S>(L: Lattice<S>, cached: Option<CfgResult<S>>, prepared: S) {
    cached.Some? && Leq(L, prepared, cached.value.entry)
  }

  /** Storing and resolving never lose a result: every (CFG, token) cached in `before` is still
      cached in `after`. */
  ghost predicate Grows<Cfg, Tok, S>(before: Cache<Cfg, Tok, S>, after: Cache<Cfg, Tok, S>) {
    forall c, t :: c in before && t in before[c] ==> c in after && t in after[c]
  }

  /** How one target of a call was resolved under token `tok`, from cache `before` to cache
      `after`, giving `exit`: when the pair cached for (target, tok) covers the prepared entry
      state, its exit state is the answer and the cache is left alone; otherwise the answer is
      the exit state that the cache then holds for (target, tok). */
  ghost predicate Resolved<Cfg, Tok, S>(L: Lattice<S>, before: Cache<Cfg, Tok, S>, after: Cache<Cfg, Tok, S>,
                                         target: Cfg, tok: Tok, prepared: S, exit: S) {
    var cached := if target in before && tok in before[target] then Some(before[target][tok]) else None;
    if Reuses(L, cached, prepared) then after == before && exit == cached.value.exit
    else target in after && tok in after[target] && exit == after[target][tok].exit
  }

  // ---------------------------------------------------------------------------------------
  // The visit-once FIFO worklist over callers

  /** Pushes every element of `xs` on a visit-once FIFO working set: an element is enqueued
      only the first time it is ever pushed, and every pushed element is recorded as seen. */
  method PushAll<T(==,!new)>(queue: seq<T>, seen: set<T>, xs: set<T>)
    returns (queue': seq<T>, seen': set<T>)
    ensures seen' == seen + xs
    ensures |queue'| >= |queue| && queue'[..|queue|] == queue
    ensures forall y :: y in queue'[|queue|..] <==> y in xs && y !in seen
    ensures NoDuplicates(queue'[|queue|..])
  {
    queue', seen' := queue, seen;
    var rest := xs;
    while rest != {}
      invariant rest <= xs
      invariant seen' == seen + (xs - rest)
      invariant |queue'| >= |queue| && queue'[..|queue|] == queue
      invariant forall y :: y in queue'[|queue|..] <==> y in xs - rest && y !in seen
      invariant NoDuplicates(queue'[|queue|..])
      decreases rest
    {
      var x :| x in rest;
      rest := rest - {x};
      if x !in seen' {
        ghost var before := queue'[|queue|..];
        queue', seen' := queue' + [x], seen' + {x};
        assert queue'[|queue|..] == before + [x];
        NoDuplicatesConcat(before, [x]);
      }
    }
  }

  /** Enqueues, once each, the nodes one edge away from `sources`. */
  method SeedWorklist<T(==,!new)>(E: set<(T, T)>, sources: set<T>) returns (queue: seq<T>, seen: set<T>)
    ensures seen == Image(E, sources)
    ensures forall y :: y in queue <==> y in seen
    ensures NoDuplicates(queue)
  {
    queue, seen := [], {};
    var pending := sources;
    while pending != {}
      invariant pending <= sources
      invariant seen == Image(E, sources - pending)
      invariant forall y :: y in queue <==> y in seen
      invariant NoDuplicates(queue)
      decreases pending
    {
      var t :| t in pending;
      pending := pending - {t};
      var queue', seen' := PushAll(queue, seen, Successors(E, t));
      assert queue' == queue + queue'[|queue|..];
      NoDuplicatesConcat(queue, queue'[|queue|..]);
      queue, seen := queue', seen';
    }
    assert sources - pending == sources;
  }

  /** Pops the head of the worklist and pushes its successors, visit-once. */
  method VisitNext<T(==,!new)>(E: set<(T, T)>, queue: seq<T>, seen: set<T>, ghost visits: seq<T>)
    returns (queue': seq<T>, seen': set<T>, ghost visits': seq<T>)
    requires queue != []
    requires NoDuplicates(visits + queue)
    requires forall y :: y in seen <==> y in visits || y in queue
    ensures visits' == visits + [queue[0]] && queue[0] !in visits
    ensures seen' == seen + Successors(E, queue[0])
    ensures NoDuplicates(visits' + queue')
    ensures forall y :: y in seen' <==> y in visits' || y in queue'
  {
    var c := queue[0];
    assert visits + queue == (visits + [c]) + queue[1..];
    assert (visits + queue)[|visits|] == c;
    forall k | 0 <= k < |visits|
      ensures visits[k] != c
    {
      assert (visits + queue)[k] == visits[k];
    }
    visits' := visits + [c];
    var rest := queue[1..];
    var pushed;
    queue', seen' := PushAll(rest, seen, Successors(E, c));
    pushed := queue'[|rest|..];
    assert queue' == rest + pushed;
    NoDuplicatesConcat(visits' + rest, pushed);
    assert visits' + queue' == (visits' + rest) + pushed;
  }

  /** Runs the visit-once FIFO worklist to exhaustion: every node popped pushes its
      successors. What has been seen at the end is everything reachable from the seeds, and
      `visits`, the order in which nodes were popped, holds each of them once. */
  method DrainWorklist<T(==,!new)>(E: set<(T, T)>, queue0: seq<T>, seeds: set<T>)
    returns (seen: set<T>, ghost visits: seq<T>)
    requires forall y :: y in queue0 <==> y in seeds
    requires NoDuplicates(queue0) && seeds <= Targets(E)
    ensures forall c :: c in seen <==> Reaches(E, seeds, c)
    ensures NoDuplicates(visits) && forall c :: c in visits <==> c in seen
  {
    var queue := queue0;
    seen := seeds;
    forall x | x in seen
      ensures Reaches(E, seeds, x)
    {
      ReachesStart(E, seeds, x);
    }
    visits := [];
    assert visits + queue == queue;
    ghost var done: set<T> := {};
    while queue != []
      invariant NoDuplicates(visits + queue)
      invariant forall y :: y in seen <==> y in visits || y in queue
      invariant forall y :: y in done <==> y in visits
      invariant seeds <= seen <= Targets(E)
      invariant forall x :: x in seen ==> Reaches(E, seeds, x)
      invariant forall x, y :: x in visits && (x, y) in E ==> y in seen
      decreases Targets(E) - done
    {
      var c := queue[0];
      ghost var before := seen;
      queue, seen, visits := VisitNext(E, queue, seen, visits);
      done := done + {c};
      forall y | y in seen - before
        ensures Reaches(E, seeds, y)
      {
        ReachesStep(E, seeds, c, y);
      }
    }
    assert visits + queue == visits;
    forall c | Reaches(E, seeds, c)
      ensures c in seen
    {
      ClosedHoldsReachable(E, seeds, seen, c);
    }
  }

  /**
   * The CFGs to forget after a pass: starting from the callers of the triggered CFGs, a
   * visit-once FIFO worklist follows callers until it runs dry. What it has seen is exactly
   * the set of CFGs reachable from a triggered CFG by one or more caller steps.
   */
  method TransitiveCallers<Cfg(==,!new)>(callGraph: set<(Cfg, Cfg)>, triggers: set<Cfg>)
    returns (seen: set<Cfg>, ghost visits: seq<Cfg>)
    ensures forall c :: c in seen <==> ReachesPlus(Reversed(callGraph), triggers, c)
    ensures NoDuplicates(visits) && forall c :: c in visits <==> c in seen
  {
    var E := Reversed(callGraph);
    var queue, seeds := SeedWorklist(E, triggers);
    seen, visits := DrainWorklist(E, queue, seeds);
    forall c
      ensures c in seen <==> ReachesPlus(E, triggers, c)
    {
      ReachesPlusFromImage(E, triggers, c);
    }
  }

  // ---------------------------------------------------------------------------------------
  // The driver

  datatype CallError = FixpointFailure | CallDepthExhausted

  datatype AnalysisError<Cfg> =
    | NoEntryPoint
    | EntryStateFailure(cfg: Cfg)
    | EntryFixpointFailure(cfg: Cfg)
    | IterationBudgetExhausted

  /** The outer loop ran `n` passes and stopped right after the first one that triggered no
      CFG: `history[i]` is the set of CFGs triggered during pass `i`. */
  ghost predicate StopsAtFirstQuietPass<Cfg>(history: seq<set<Cfg>>, n: nat) {
    |history| == n && n >= 1 && history[n - 1] == {} &&
    forall i :: 0 <= i < n - 1 ==> history[i] != {}
  }

  class ContextBasedAnalysis<Cfg(==,!new), S(==,!new), Tok(==,!new)> {
    const sem: Collaborators<Cfg, S, Tok>
    /** The application's entry points. */
    const entryPoints: set<Cfg>

    /** The cache of fixpoint results; `None` before the first entry point is processed. */
    var results: Option<Cache<Cfg, Tok, S>>
    /** The calling context of the call being resolved. */
    var token: Tok
    /** The CFGs whose cached result grew during the current pass. */
    var fixpointTriggers: set<Cfg>
    /** The registered calls of the call graph, as (caller, callee) edges. */
    var callGraph: set<(Cfg, Cfg)>
    var config: FixpointConfig

    constructor (sem: Collaborators<Cfg, S, Tok>, entryPoints: set<Cfg>, callGraph: set<(Cfg, Cfg)>)
      ensures this.sem == sem && this.entryPoints == entryPoints && this.callGraph == callGraph
      ensures results == None && token == sem.emptyToken && fixpointTriggers == {}
    {
      this.sem := sem;
      this.entryPoints := entryPoints;
      this.callGraph := callGraph;
      results := None;
      token := sem.emptyToken;
      fixpointTriggers := {};
      config := FixpointConfig(0, 0, NONE, 0);
    }

    /**
     * The whole-program fixpoint. It drops any previous results and records the configuration;
     * with no entry point it fails before any fixpoint work. `maxIterations` bounds the outer
     * loop and `maxDepth` the nesting of calls, both of which the source leaves unbounded.
     * On success every entry point has a result cached under the empty token.
     */
    method Fixpoint(entryState: S, config: FixpointConfig, maxIterations: nat, maxDepth: nat)
      returns (r: Result<nat, AnalysisError<Cfg>>, ghost history: seq<set<Cfg>>)
      requires PopUndoesPush(sem)
      modifies this
      ensures this.config == config
      ensures entryPoints == {} ==>
        r == Failure(NoEntryPoint) && results == None && token == old(token) &&
        fixpointTriggers == old(fixpointTriggers) && callGraph == old(callGraph)
      ensures entryPoints != {} ==> r != Failure(NoEntryPoint)
      ensures r.Success? ==>
        results.Some? && fixpointTriggers == {} && r.value <= maxIterations &&
        StopsAtFirstQuietPass(history, r.value) && history[r.value - 1] == fixpointTriggers
      ensures r.Success? ==>
        forall e :: e in entryPoints ==> e in results.value && sem.emptyToken in results.value[e]
      ensures old(callGraph) <= callGraph
    {
      results := None;
      this.config := config;
      if entryPoints == {} {
        return Failure(NoEntryPoint), [];
      }
      r, history := FixpointAux(entryState, maxIterations, maxDepth);
    }

    /**
     * The outer loop: each pass clears the triggers, analyses every entry point and stores its
     * result under the empty token, then forgets the transitive callers of the triggered CFGs;
     * `history[i]` is the set of CFGs triggered in pass `i`, and the loop stops after the first
     * pass in which nothing was triggered, when nothing is forgotten either.
     */
    method FixpointAux(entryState: S, maxIterations: nat, maxDepth: nat)
      returns (r: Result<nat, AnalysisError<Cfg>>, ghost history: seq<set<Cfg>>)
      requires entryPoints != {} && PopUndoesPush(sem)
      modifies this
      ensures config == old(config) && old(callGraph) <= callGraph
      ensures r != Failure(NoEntryPoint)
      ensures r.Success? ==>
        results.Some? && fixpointTriggers == {} && r.value <= maxIterations &&
        StopsAtFirstQuietPass(history, r.value) && history[r.value - 1] == fixpointTriggers
      ensures r.Success? ==>
        forall e :: e in entryPoints ==> e in results.value && sem.emptyToken in results.value[e]
    {
      var iter := 0;
      history := [];
      while true
        invariant iter == |history| <= maxIterations
        invariant forall i :: 0 <= i < |history| ==> history[i] != {}
        invariant iter > 0 ==> results.Some?
        invariant config == old(config) && old(callGraph) <= callGraph
        decreases maxIterations - iter
      {
        if iter == maxIterations {
          return Failure(IterationBudgetExhausted), history;
        }
        fixpointTriggers := {};
        var todo := entryPoints;
        while todo != {}
          invariant todo <= entryPoints
          invariant todo != entryPoints || iter > 0 ==> results.Some?
          invariant forall e :: e in entryPoints && e !in todo ==>
            results.Some? && e in results.value && sem.emptyToken in results.value[e]
          invariant config == old(config) && old(callGraph) <= callGraph
          decreases todo
        {
          var cfg :| cfg in todo;
          todo := todo - {cfg};
          var step := AnalyzeEntryPoint(cfg, entryState, maxDepth);
          if step.Failure? {
            return Failure(step.error), history;
          }
        }
        var forgotten := ForgetStaleCallers();
        iter := iter + 1;
        history := history + [fixpointTriggers];
        if fixpointTriggers == {} {
          assert forgotten == {};
          return Success(iter), history;
        }
      }
    }

    /** One entry point of one pass: its entry state is prepared (which may fail), the cache
        is created if this is the first entry point ever, and the result of its fixpoint is
        stored under the empty token; that store never triggers anything, and nothing cached
        before is lost. */
    method AnalyzeEntryPoint(cfg: Cfg, entryState: S, maxDepth: nat)
      returns (r: Result<(), AnalysisError<Cfg>>)
      requires PopUndoesPush(sem)
      modifies this
      ensures config == old(config) && old(callGraph) <= callGraph
      ensures old(fixpointTriggers) <= fixpointTriggers
      ensures old(results).Some? ==> results.Some? && Grows(old(results).value, results.value)
      ensures sem.prepareEntry(cfg, entryState).None? ==>
        r == Failure(EntryStateFailure(cfg)) && results == old(results) &&
        fixpointTriggers == old(fixpointTriggers) && callGraph == old(callGraph)
      ensures r.Failure? ==> r.error == EntryStateFailure(cfg) || r.error == EntryFixpointFailure(cfg)
      ensures r.Success? ==> results.Some? && cfg in results.value && sem.emptyToken in results.value[cfg]
    {
      var prepared := sem.prepareEntry(cfg, entryState);
      if prepared.None? {
        return Failure(EntryStateFailure(cfg));
      }
      if results.None? {
        results := Some(map[]);
      }
      var fixpointResult := IntraproceduralFixpoint(cfg, prepared.value, maxDepth);
      if fixpointResult.Failure? {
        return Failure(EntryFixpointFailure(cfg));
      }
      var put := PutResult(sem.lattice, results.value, cfg, sem.emptyToken, fixpointResult.value);
      results := Some(put.cache);
      r := Success(());
    }

    /** After a pass: the CFGs reachable by one or more caller steps from a triggered CFG are
        removed from the cache, and nothing else is. */
    method ForgetStaleCallers() returns (forgotten: set<Cfg>)
      requires results.Some?
      modifies this`results
      ensures forall c :: c in forgotten <==> ReachesPlus(Reversed(callGraph), fixpointTriggers, c)
      ensures results == Some(Forget(old(results.value), forgotten))
    {
      ghost var visits;
      forgotten, visits := TransitiveCallers(callGraph, fixpointTriggers);
      results := Some(Forget(results.value, forgotten));
    }

    /** Every result cached for `cfg`, in any context; none for a CFG not in the cache. */
    function GetAnalysisResultsOf(cfg: Cfg): (r: set<CfgResult<S>>)
      reads this
      requires results.Some?
      ensures r == AllResults(results.value, cfg)
    {
      AllResults(results.value, cfg)
    }

    /** The cached (entry, exit) pair of `cfg` for the current token, if there is one. */
    function GetEntryAndExit(cfg: Cfg): (r: Option<CfgResult<S>>)
      reads this
      requires results.Some?
      ensures r.Some? <==> cfg in results.value && token in results.value[cfg]
      ensures r.Some? ==> r.value == results.value[cfg][token]
    {
      if cfg !in results.value then None
      else if token !in results.value[cfg] then None
      else Some(results.value[cfg][token])
    }

    /**
     * Resolves a call: the call's scope is pushed on the token, every target contributes what
     * it returns, the contributions are joined from bottom, the token is popped and the call
     * is registered in the call graph. `exits` are the targets' exit states, in order, and
     * `caches` the cache before the first target and after each one: target `i` was resolved
     * under the pushed token from `caches[i]` to `caches[i + 1]`.
     */
    method GetAbstractResultOf(site: CallSite<Cfg>, entryState: S, depth: nat)
      returns (r: Result<S, CallError>, ghost exits: seq<S>, ghost caches: seq<Cache<Cfg, Tok, S>>)
      requires results.Some? && PopUndoesPush(sem)
      modifies this
      ensures results.Some? && config == old(config) && old(callGraph) <= callGraph
      ensures old(fixpointTriggers) <= fixpointTriggers && Grows(old(results).value, results.value)
      ensures r.Success? ==> token == old(token) && CallEdges(site) <= callGraph
      ensures r.Success? ==> |exits| == |site.targets| && r.value == JoinReturns(sem, site, exits)
      ensures r.Success? ==>
        |caches| == |site.targets| + 1 && caches[0] == old(results).value &&
        caches[|site.targets|] == results.value &&
        forall i :: 0 <= i < |site.targets| ==>
          Resolved(sem.lattice, caches[i], caches[i + 1], site.targets[i], sem.pushToken(old(token), site.scope),
                   sem.prepareCall(site, site.targets[i], entryState), exits[i])
      decreases depth, 3
    {
      token := sem.pushToken(token, site.scope);
      var result := sem.lattice.bottom;
      exits, caches := [], [results.value];
      var i := 0;
      while i < |site.targets|
        invariant 0 <= i <= |site.targets| && |exits| == i && |caches| == i + 1
        invariant token == sem.pushToken(old(token), site.scope)
        invariant results.Some? && config == old(config) && old(callGraph) <= callGraph
        invariant old(fixpointTriggers) <= fixpointTriggers && Grows(old(results).value, results.value)
        invariant result == JoinReturns(sem, site, exits)
        invariant caches[0] == old(results).value && caches[i] == results.value
        invariant forall j :: 0 <= j < i ==>
          Resolved(sem.lattice, caches[j], caches[j + 1], site.targets[j], token,
                   sem.prepareCall(site, site.targets[j], entryState), exits[j])
      {
        var exit := ResultForTarget(site, site.targets[i], entryState, depth);
        if exit.Failure? {
          return Failure(exit.error), exits, caches;
        }
        result := Lub(sem.lattice, result, sem.returnedState(site, exit.value));
        exits, caches := exits + [exit.value], caches + [results.value];
        i := i + 1;
      }
      token := sem.popToken(token);
      callGraph := callGraph + CallEdges(site);
      r := Success(result);
    }

    /**
     * The exit state of one target of a call, under the current token. When a pair is cached
     * for (target, token) and the prepared entry state is below its entry state, the cached
     * exit state is returned and nothing changes; otherwise the target's fixpoint is computed
     * and the exit state of the value the cache then holds is returned.
     */
    method ResultForTarget(site: CallSite<Cfg>, target: Cfg, entryState: S, depth: nat)
      returns (r: Result<S, CallError>)
      requires results.Some? && PopUndoesPush(sem)
      modifies this
      ensures results.Some? && config == old(config) && old(callGraph) <= callGraph
      ensures old(fixpointTriggers) <= fixpointTriggers && Grows(old(results).value, results.value)
      ensures r.Success? ==> token == old(token)
      ensures Reuses(sem.lattice, old(GetEntryAndExit(target)), sem.prepareCall(site, target, entryState)) ==>
        r == Success(old(GetEntryAndExit(target)).value.exit) &&
        results == old(results) && fixpointTriggers == old(fixpointTriggers) &&
        callGraph == old(callGraph) && token == old(token)
      ensures r.Success? ==>
        Resolved(sem.lattice, old(results).value, results.value, target, old(token),
                 sem.prepareCall(site, target, entryState), r.value)
      decreases depth, 2
    {
      var states := GetEntryAndExit(target);
      var prepared := sem.prepareCall(site, target, entryState);
      if states.Some? && Leq(sem.lattice, prepared, states.value.entry) {
        r := Success(states.value.exit);
      } else {
        var fixpointResult, cacheBefore, triggersBefore, computed := ComputeFixpoint(target, token, prepared, depth);
        if fixpointResult.Failure? {
          return Failure(fixpointResult.error);
        }
        r := Success(fixpointResult.value.exit);
      }
    }

    /**
     * Computes the fixpoint of `cfg` from `entry` and stores it under `localToken`; the CFG
     * becomes a trigger exactly when the store reports a change, and the value returned is the
     * one the cache now holds. The ghost outputs are the cache, the triggers and the computed
     * result at the moment of the store.
     */
    method ComputeFixpoint(cfg: Cfg, localToken: Tok, entry: S, depth: nat)
      returns (r: Result<CfgResult<S>, CallError>, ghost cacheBefore: Cache<Cfg, Tok, S>,
               ghost triggersBefore: set<Cfg>, ghost computed: CfgResult<S>)
      requires results.Some? && PopUndoesPush(sem)
      modifies this
      ensures results.Some? && config == old(config) && old(callGraph) <= callGraph
      ensures old(fixpointTriggers) <= fixpointTriggers && Grows(old(results).value, results.value)
      ensures r.Success? ==> token == old(token) && computed.entry == entry
      ensures r.Success? ==>
        var put := PutResult(sem.lattice, cacheBefore, cfg, localToken, computed);
        results == Some(put.cache) && r.value == put.stored &&
        fixpointTriggers == triggersBefore + (if put.changed then {cfg} else {})
      decreases depth, 1
    {
      var fixpointResult := IntraproceduralFixpoint(cfg, entry, depth);
      cacheBefore, triggersBefore := results.value, fixpointTriggers;
      if fixpointResult.Failure? {
        return Failure(fixpointResult.error), cacheBefore, triggersBefore, CfgResult(entry, entry);
      }
      computed := fixpointResult.value;
      var put := PutResult(sem.lattice, results.value, cfg, localToken, fixpointResult.value);
      results := Some(put.cache);
      if put.changed {
        fixpointTriggers := fixpointTriggers + {cfg};
      }
      r := Success(put.stored);
    }

    /**
     * The intraprocedural fixpoint of `cfg` from `entry`, an external routine: it resolves the
     * calls of `cfg` in order through this driver, then yields the exit state. Its entry state
     * is the one it was given.
     */
    method IntraproceduralFixpoint(cfg: Cfg, entry: S, depth: nat)
      returns (r: Result<CfgResult<S>, CallError>)
      requires results.Some? && PopUndoesPush(sem)
      modifies this
      ensures results.Some? && config == old(config) && old(callGraph) <= callGraph
      ensures old(fixpointTriggers) <= fixpointTriggers && Grows(old(results).value, results.value)
      ensures r.Success? ==> token == old(token) && r.value.entry == entry
      decreases depth, 0
    {
      var calls := sem.callsOf(cfg);
      var returned: seq<S> := [];
      var i := 0;
      while i < |calls|
        invariant 0 <= i <= |calls| && |returned| == i
        invariant results.Some? && token == old(token)
        invariant config == old(config) && old(callGraph) <= callGraph
        invariant old(fixpointTriggers) <= fixpointTriggers && Grows(old(results).value, results.value)
      {
        if depth == 0 {
          return Failure(CallDepthExhausted);
        }
        var state := sem.stateAtCall(calls[i], entry, returned);
        var value, exits, caches := GetAbstractResultOf(calls[i], state, depth - 1);
        if value.Failure? {
          return Failure(value.error);
        }
        returned := returned + [value.value];
        i := i + 1;
      }
      var exit := sem.exitOf(cfg, entry, returned, config);
      if exit.None? {
        return Failure(FixpointFailure);
      }
      r := Success(CfgResult(entry, exit.value));
    }
  }
}
