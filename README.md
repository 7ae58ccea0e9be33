# LiSA core, modelled in Dafny

LiSA (Library for Static Analysis) is a framework for abstract interpretation. This project
models eight of its parts and proves properties of the model:

- **`ContextBased`**: the context-sensitive interprocedural driver (`ContextBasedAnalysis`).
  - It keeps a cache of fixpoint results, keyed first by CFG and then by calling-context
    token.
  - It re-runs the entry points until a pass triggers no CFG.
  - After each pass it forgets every transitive caller of a triggered CFG. The callers are
    found with a visit-once FIFO worklist.
  - It resolves a call by reusing a cached exit state when the prepared entry state is below
    the cached entry state. Otherwise it computes, and caches, a new fixpoint of the callee.
- **`Automata`**: the epsilon-NFA of the string analysis (`Automaton`): epsilon closure, string
  validation, pruning to the reachable part, reversal, the subset construction, Brzozowski
  minimisation, union, and bounded language enumeration.
- **`SignToInterval`**: the decoupler that turns per-CFG results computed with sign
  environments into seeds with interval environments.
- **`DecouplingModular`**: the interprocedural analysis that runs an ascending worst-case
  pass with signs, decouples its results, and runs a descending pass with intervals.
- **`Tarsis`**: the Tarsis string domain's own logic:
  - the capped size difference that drives widening;
  - the `contains` decision for two finite languages;
  - constant and binary-expression evaluation.
- **`PointBasedHeap`**: the field-sensitive point-based heap's rewriting of heap allocations
  and field accesses into allocation sites.
- **`Calls`**: the call statement: its complete name, construction checks, equality, hash
  code and printed form.
- **`ReferenceTypes`**: the reference (pointer) type.

`Wrappers` (Option and Result), `Graphs` (paths, reachability, closure over an edge set) and
`Lattices` (a lattice given as bottom, lub and order) are shared helpers.

Some code that the model calls is not part of it. The model receives it as a parameter, a
function inside a record:

- the intraprocedural fixpoint, abstract states, the parameter-assigning strategy and the
  context-sensitivity tokens (`ContextBased.Collaborators`);
- the regex automaton used by Tarsis (`Tarsis.RegexOps`);
- the modular worst-case analysis (`DecouplingModular.ModularRuns`);
- the name of an allocation site (`nameOf`);
- the hash of an n-ary expression (`baseHash`).

The source's exceptions become `Failure` results, where the operation that throws is part of this model. Its nulls become `None`.

## Model

Paths are relative to the repository root.

| member | source | states |
|---|---|---|
| ContextBased.JavaRem | lisa/lisa-analyses/src/main/java/it/unive/lisa/interprocedural/ContextBasedAnalysis.java:117-118 | Java's `%`: the truncated quotient times the divisor plus the remainder gives back the dividend; Euclidean `%` for a non-negative dividend, and in (-b, 0] for a negative one |
| ContextBased.Digits | lisa/lisa-analyses/src/main/java/it/unive/lisa/interprocedural/ContextBasedAnalysis.java:120 | the decimal digits of n, most significant first: their value is n and there is no leading zero |
| ContextBased.DecimalString | lisa/lisa-analyses/src/main/java/it/unive/lisa/interprocedural/ContextBasedAnalysis.java:120 | Java's rendering of an int in `i + "th"`: digits whose value is i, or a minus sign followed by digits whose value is -i |
| ContextBased.OrdinalSuffix | lisa/lisa-analyses/src/main/java/it/unive/lisa/interprocedural/ContextBasedAnalysis.java:117-127 | a two-letter suffix: "th" exactly for last two digits 11-13 or last digit 0 or 4-9, else "st"/"nd"/"rd" for last digit 1/2/3; a negative number, under Java's truncating `%`, gets only "th" or "rd" |
| ContextBased.Ordinal | lisa/lisa-analyses/src/main/java/it/unive/lisa/interprocedural/ContextBasedAnalysis.java:116-128 | the number followed by a two-letter suffix: "th" exactly for last two digits 11-13 or last digit 0 or 4-9, else "st"/"nd"/"rd" for last digit 1/2/3; a negative number gets only "th" or "rd" |
| ContextBased.PutResult | lisa/lisa-analyses/src/main/java/it/unive/lisa/interprocedural/ContextBasedAnalysis.java:259-261 | storing a result touches only (cfg, token) and loses no cached result; a first result is stored as given; a change is reported exactly when a previous result exists and the new one is not below it |
| ContextBased.PutResultIsMonotone | lisa/lisa-analyses/src/main/java/it/unive/lisa/interprocedural/ContextBasedAnalysis.java:259-262 | under the lattice laws the stored value covers both the new and the previous result; a change means it strictly grew; no change leaves the cache as it was |
| ContextBased.Forget | lisa/lisa-analyses/src/main/java/it/unive/lisa/interprocedural/ContextBasedAnalysis.java:165 | forgetting removes exactly the stale CFGs and keeps the other entries unchanged |
| ContextBased.AllResults | lisa/lisa-analyses/src/main/java/it/unive/lisa/interprocedural/ContextBasedAnalysis.java:171-177 | the results of a CFG are exactly its cached results over all tokens; none for an uncached CFG |
| ContextBased.ForgetDropsExactlyTheStale | lisa/lisa-analyses/src/main/java/it/unive/lisa/interprocedural/ContextBasedAnalysis.java:165 | after forgetting, a stale CFG has no results and every other CFG keeps all of its results |
| ContextBased.CallEdges | lisa/lisa-analyses/src/main/java/it/unive/lisa/interprocedural/ContextBasedAnalysis.java:248 | registering a call records exactly the edges from its caller to each of its targets |
| ContextBased.JoinReturnsIsLeastUpperBound | lisa/lisa-analyses/src/main/java/it/unive/lisa/interprocedural/ContextBasedAnalysis.java:199-243 | the result of a call, the lub from bottom of what each target returns, is above every returned state and below any common upper bound |
| ContextBased.PushAll | lisa/lisa-analyses/src/main/java/it/unive/lisa/interprocedural/ContextBasedAnalysis.java:158-160 | a visit-once push enqueues, after the old queue and without duplicates, exactly the pushed elements never seen before, and marks all of them seen |
| ContextBased.SeedWorklist | lisa/lisa-analyses/src/main/java/it/unive/lisa/interprocedural/ContextBasedAnalysis.java:159-160 | the seeded worklist holds, once each, exactly the direct callers of the triggered CFGs |
| ContextBased.VisitNext | lisa/lisa-analyses/src/main/java/it/unive/lisa/interprocedural/ContextBasedAnalysis.java:161-163 | popping visits the head for the first time and adds its callers to what has been seen; nothing is ever queued twice |
| ContextBased.DrainWorklist | lisa/lisa-analyses/src/main/java/it/unive/lisa/interprocedural/ContextBasedAnalysis.java:161-163 | when the worklist runs dry, what has been seen is exactly what is reachable from the seeds, each visited once |
| ContextBased.TransitiveCallers | lisa/lisa-analyses/src/main/java/it/unive/lisa/interprocedural/ContextBasedAnalysis.java:155-165 | the CFGs to forget are exactly those that reach a triggered CFG by one or more call edges |
| ContextBased.ContextBasedAnalysis.constructor | lisa/lisa-analyses/src/main/java/it/unive/lisa/interprocedural/ContextBasedAnalysis.java:89-92 | the analysis starts with no cache, no trigger and the empty token of the token type it is given |
| ContextBased.ContextBasedAnalysis.Fixpoint | lisa/lisa-analyses/src/main/java/it/unive/lisa/interprocedural/ContextBasedAnalysis.java:95-114 | previous results are dropped and the configuration recorded; with no entry point it fails with nothing else changed; on success every entry point has a result cached under the empty token, no CFG is triggered, and the recorded triggers of the passes are non-empty up to the last one, which is the (empty) final trigger set |
| ContextBased.ContextBasedAnalysis.FixpointAux | lisa/lisa-analyses/src/main/java/it/unive/lisa/interprocedural/ContextBasedAnalysis.java:130-169 | each pass clears the triggers and stores every entry point's result under the empty token; success only after the first pass whose trigger set is empty, every earlier pass having recorded a non-empty trigger set; on success every entry point is cached under the empty token |
| ContextBased.ContextBasedAnalysis.AnalyzeEntryPoint | lisa/lisa-analyses/src/main/java/it/unive/lisa/interprocedural/ContextBasedAnalysis.java:141-153 | a failing entry-state preparation fails before anything changes; a successful entry point has its result cached under the empty token; nothing cached before is lost; triggers only grow |
| ContextBased.ContextBasedAnalysis.ForgetStaleCallers | lisa/lisa-analyses/src/main/java/it/unive/lisa/interprocedural/ContextBasedAnalysis.java:155-165 | the cache loses exactly the transitive callers of the triggered CFGs |
| ContextBased.ContextBasedAnalysis.GetAnalysisResultsOf | lisa/lisa-analyses/src/main/java/it/unive/lisa/interprocedural/ContextBasedAnalysis.java:171-177 | the results of a CFG over every context, empty for an uncached CFG |
| ContextBased.ContextBasedAnalysis.GetEntryAndExit | lisa/lisa-analyses/src/main/java/it/unive/lisa/interprocedural/ContextBasedAnalysis.java:179-188 | a pair exactly when the CFG is cached for the current token, and then the cached pair |
| ContextBased.ContextBasedAnalysis.GetAbstractResultOf | lisa/lisa-analyses/src/main/java/it/unive/lisa/interprocedural/ContextBasedAnalysis.java:190-251 | on success the token is restored (given that pop undoes push), the call's edges are in the call graph, and the result is the lub from bottom of what each target returns, in target order; target i's exit is the cached exit it reused under the pushed token, with the cache unchanged, or else the exit the cache holds for it under the pushed token after its fixpoint; nothing cached before is lost |
| ContextBased.ContextBasedAnalysis.ResultForTarget | lisa/lisa-analyses/src/main/java/it/unive/lisa/interprocedural/ContextBasedAnalysis.java:201-234 | with a cached pair whose entry covers the prepared state, the cached exit is returned and nothing changes; otherwise the exit is that of the value the cache holds for (target, token) after the fixpoint; nothing cached before is lost |
| ContextBased.ContextBasedAnalysis.ComputeFixpoint | lisa/lisa-analyses/src/main/java/it/unive/lisa/interprocedural/ContextBasedAnalysis.java:253-263 | the computed result is stored under the local token; the CFG becomes a trigger exactly when the store reports a change; the stored value is returned; nothing cached before is lost |
| ContextBased.ContextBasedAnalysis.IntraproceduralFixpoint | lisa/lisa-analyses/src/main/java/it/unive/lisa/interprocedural/ContextBasedAnalysis.java:256-257 | the fixpoint of a CFG resolves its calls through the driver; on success the token is unchanged and the result's entry is the given entry state; nothing cached before is lost |
| Automata.EpsEdges | lisa/lisa-core/src/main/java/it/unive/lisa/analysis/string/Automaton.java:330-333 | the epsilon edges are exactly the blank-labelled transitions |
| Automata.StepOn | lisa/lisa-core/src/main/java/it/unive/lisa/analysis/string/Automaton.java:100-103 | the destinations of the `c`-labelled moves out of a set of states, exactly |
| Automata.Flipped | lisa/lisa-core/src/main/java/it/unive/lisa/analysis/string/Automaton.java:179-180 | a transition is in the flipped set exactly when its reverse, with the same label, is in the original |
| Automata.FlippedIsInvolution | lisa/lisa-core/src/main/java/it/unive/lisa/analysis/string/Automaton.java:179-180 | flipping twice gives back the transitions, and flipping reverses every edge |
| Automata.Restrict | lisa/lisa-core/src/main/java/it/unive/lisa/analysis/string/Automaton.java:159-162 | the transitions kept are exactly those with both ends among the reached states |
| Automata.ReachesWithinKept | lisa/lisa-core/src/main/java/it/unive/lisa/analysis/string/Automaton.java:138-164 | a state reachable inside a closed set stays reachable through the kept transitions alone |
| Automata.PruneAsWritten | lisa/lisa-core/src/main/java/it/unive/lisa/analysis/string/Automaton.java:159-162 | the removing loop as written fails exactly when a dropped transition is not the last one visited; when it gets through, it leaves the restriction |
| Automata.PruneAsWrittenFails | lisa/lisa-core/src/main/java/it/unive/lisa/analysis/string/Automaton.java:159-162 | a two-state automaton with an unreachable state on which the removing loop fails, while the intended restriction keeps one transition |
| Automata.UnionTransitions | lisa/lisa-core/src/main/java/it/unive/lisa/analysis/string/Automaton.java:380-387 | the union's transitions are the receiver's plus an epsilon move from the new start to each initial state, and nothing else |
| Automata.UnionStartClosure | lisa/lisa-core/src/main/java/it/unive/lisa/analysis/string/Automaton.java:383-389 | when the new start state is fresh, the union starts from the receiver's initial closure plus the new state |
| Automata.UnionAcceptsTheReceiversLanguage | lisa/lisa-core/src/main/java/it/unive/lisa/analysis/string/Automaton.java:370-394 | when the new start state is fresh, the union accepts exactly the strings the receiver accepts, whatever `other` is, for every string that does not begin with the blank |
| Automata.LanguageFrom | lisa/lisa-core/src/main/java/it/unive/lisa/analysis/string/Automaton.java:422-443 | the strings enumerated from a state have lengths 1 to the bound; nothing for bound 0 |
| Automata.LanguageFromIsExact | lisa/lisa-core/src/main/java/it/unive/lisa/analysis/string/Automaton.java:422-443 | a string is enumerated from a state exactly when it labels a walk of 1 to `length` moves from that state that either uses up the whole length or ends in a state with no outgoing move; final flags play no part |
| Automata.LanguageFromIsSound | lisa/lisa-core/src/main/java/it/unive/lisa/analysis/string/Automaton.java:428-443 | every enumerated string labels such a walk |
| Automata.LanguageFromIsComplete | lisa/lisa-core/src/main/java/it/unive/lisa/analysis/string/Automaton.java:428-443 | every string labelling such a walk is enumerated |
| Automata.LanguageFromNonEmpty | lisa/lisa-core/src/main/java/it/unive/lisa/analysis/string/Automaton.java:432-440 | from a state with an outgoing move and a positive bound, something is enumerated |
| Automata.Alphabet | lisa/lisa-core/src/main/java/it/unive/lisa/analysis/string/Automaton.java:224-227 | the alphabet is exactly the labels of the non-epsilon transitions |
| Automata.DeterminisedHasOneInitial | lisa/lisa-core/src/main/java/it/unive/lisa/analysis/string/Automaton.java:229-230 | the subset construction yields exactly one initial state, with id 0 |
| Automata.DeterminisedIsDeterministic | lisa/lisa-core/src/main/java/it/unive/lisa/analysis/string/Automaton.java:244-265 | the subset construction yields no epsilon move and at most one move per state and symbol |
| Automata.HandledAfterExpansion | lisa/lisa-core/src/main/java/it/unive/lisa/analysis/string/Automaton.java:233-266 | after a macro-state is expanded, every marked macro-state has a move for each symbol that leads to a macro-state |
| Automata.MarkedWithinPowerset | lisa/lisa-core/src/main/java/it/unive/lisa/analysis/string/Automaton.java:233-241 | the marked states never outnumber the subsets of the reachable states, so the marking loop ends |
| Automata.FinalStatesMarked | lisa/lisa-core/src/main/java/it/unive/lisa/analysis/string/Automaton.java:268-282 | a result state is final exactly when its macro-state holds a final state; initial exactly when its id is 0 |
| Automata.ResultState | lisa/lisa-core/src/main/java/it/unive/lisa/analysis/string/Automaton.java:268-282 | the result state of macro-state i has id i, is initial exactly for i = 0 and final exactly when its macro-state holds a final state |
| Automata.Marked | lisa/lisa-core/src/main/java/it/unive/lisa/analysis/string/Automaton.java:268-282 | a construction state gets the final flag of its macro-state, becoming that macro-state's result state |
| Automata.Finalised | lisa/lisa-core/src/main/java/it/unive/lisa/analysis/string/Automaton.java:256-264 | the construction's transitions redirected between the final-flagged result states: every construction move has its redirected copy, and nothing else is there |
| Automata.DeterminisedAsWrittenRejectsNonEmpty | lisa/lisa-core/src/main/java/it/unive/lisa/analysis/string/Automaton.java:245-282 | with its transitions between construction states that are never final, as built, the determinised automaton accepts no string of one or more symbols |
| Automata.DeterminisationAsWrittenLosesLanguage | lisa/lisa-core/src/main/java/it/unive/lisa/analysis/string/Automaton.java:209-287 | the automaton with the single move 0 -a-> 1, 1 final, accepts "a", and its determinisation as built does not |
| Automata.FinalisedStart | lisa/lisa-core/src/main/java/it/unive/lisa/analysis/string/Automaton.java:229-230 | the corrected result has no epsilon move and its start closure is the result state of macro-state 0 alone |
| Automata.FinalisedIsDeterministic | lisa/lisa-core/src/main/java/it/unive/lisa/analysis/string/Automaton.java:245-264 | the corrected result has no epsilon move and at most one move per state and symbol |
| Automata.FinalisedStep | lisa/lisa-core/src/main/java/it/unive/lisa/analysis/string/Automaton.java:245-264 | one symbol from the result state of a macro-state leads nowhere or to the result state of the macro-state the macro step reaches, and somewhere whenever that macro step is non-empty |
| Automata.FinalisedRun | lisa/lisa-core/src/main/java/it/unive/lisa/analysis/string/Automaton.java:245-264 | reading a blank-free string from the result state of a macro-state meets only the result state of the macro-state the original reaches, and meets it whenever that is non-empty |
| Automata.DeterminisationPreservesLanguage | lisa/lisa-core/src/main/java/it/unive/lisa/analysis/string/Automaton.java:203-207 | the corrected determinised automaton accepts a blank-free string exactly when the original accepts it |
| Automata.SameLanguageWithoutBlank | lisa/lisa-core/src/main/java/it/unive/lisa/analysis/string/Automaton.java:203-207 | the same, for every blank-free string at once |
| Automata.Automaton.constructor | lisa/lisa-core/src/main/java/it/unive/lisa/analysis/string/Automaton.java:63-68 | keeps the states and transitions, with both flags cleared |
| Automata.Automaton.Equals | lisa/lisa-core/src/main/java/it/unive/lisa/analysis/string/Automaton.java:46-55 | equal exactly when the other is non-null with the same states and transitions |
| Automata.Automaton.EpsClosureOf | lisa/lisa-core/src/main/java/it/unive/lisa/analysis/string/Automaton.java:312-344 | the do-while loop ends with exactly the states reachable from the state by epsilon moves |
| Automata.Automaton.CheckAll | lisa/lisa-core/src/main/java/it/unive/lisa/analysis/string/Automaton.java:323-337 | one pass marks every found state checked and collects the epsilon successors of those not checked before |
| Automata.Automaton.EpsClosureOfSet | lisa/lisa-core/src/main/java/it/unive/lisa/analysis/string/Automaton.java:356-363 | the union of the members' closures is the closure of the set |
| Automata.Automaton.EpsClosure | lisa/lisa-core/src/main/java/it/unive/lisa/analysis/string/Automaton.java:297-299 | the epsilon closure of the initial states |
| Automata.Automaton.ValidateString | lisa/lisa-core/src/main/java/it/unive/lisa/analysis/string/Automaton.java:87-115 | accepts exactly the strings of the automaton's language: reading them from the initial closure, with epsilon moves, ends in a final state |
| Automata.Automaton.Reach | lisa/lisa-core/src/main/java/it/unive/lisa/analysis/string/Automaton.java:138-165 | the states reachable from the initial states, with the transitions between them; every kept state is reachable through the kept transitions |
| Automata.Automaton.ReachableStates | lisa/lisa-core/src/main/java/it/unive/lisa/analysis/string/Automaton.java:139-158 | the frontier search ends with exactly the states reachable from the initial states |
| Automata.RestrictionToReachableIsTrim | lisa/lisa-core/src/main/java/it/unive/lisa/analysis/string/Automaton.java:138-164 | keeping the reachable states and the transitions between them leaves every kept state reachable through the kept transitions |
| Automata.Automaton.Frontier | lisa/lisa-core/src/main/java/it/unive/lisa/analysis/string/Automaton.java:147-155 | the new frontier is exactly the successors of the old one not yet reached |
| Automata.Automaton.Reverse | lisa/lisa-core/src/main/java/it/unive/lisa/analysis/string/Automaton.java:173-201 | every transition turned around; each state reappears with id 0 and its initial and final flags exchanged |
| Automata.Automaton.ExploreMacroStates | lisa/lisa-core/src/main/java/it/unive/lisa/analysis/string/Automaton.java:229-266 | the worklist loop ends with distinct macro-states, starting from the epsilon closure of the initial states, every construction move sound and every symbol of every macro-state handled |
| Automata.Automaton.MarkNext | lisa/lisa-core/src/main/java/it/unive/lisa/analysis/string/Automaton.java:233-266 | one round marks one more construction state and expands its macro-state; every marked macro-state has all its symbols handled, the macro-states stay distinct and extend the earlier ones, and the marked states never outnumber the possible macro-states |
| Automata.Automaton.Determinize | lisa/lisa-core/src/main/java/it/unive/lisa/analysis/string/Automaton.java:209-287 | an already determinised automaton is returned as is; otherwise a fresh determinised automaton whose states are those of the subset construction of the receiver and whose transitions are the construction's, redirected between the final-flagged states; it accepts exactly the strings without the blank that the receiver accepts |
| Automata.Automaton.ExpandMacroState | lisa/lisa-core/src/main/java/it/unive/lisa/analysis/string/Automaton.java:243-265 | after the loop over the alphabet, every symbol is handled for the current macro-state, earlier macro-states kept |
| Automata.Automaton.HandleSymbol | lisa/lisa-core/src/main/java/it/unive/lisa/analysis/string/Automaton.java:245-264 | the macro step on one symbol becomes a new macro-state when new and nonempty, and its transition is added |
| Automata.Automaton.Minimize | lisa/lisa-core/src/main/java/it/unive/lisa/analysis/string/Automaton.java:123-130 | an already minimised automaton is returned as is; otherwise a fresh automaton flagged minimised and determinised, with every state reachable |
| Automata.Automaton.DeterminizeAndReach | lisa/lisa-core/src/main/java/it/unive/lisa/analysis/string/Automaton.java:126 | determinising then pruning gives a fresh automaton whose states are all reachable |
| Automata.Automaton.Union | lisa/lisa-core/src/main/java/it/unive/lisa/analysis/string/Automaton.java:370-394 | the receiver itself for the same object; otherwise the receiver's states plus a new start state with epsilon moves to its initial states, flags cleared |
| Automata.Automaton.LanguageAtMost | lisa/lisa-core/src/main/java/it/unive/lisa/analysis/string/Automaton.java:401-414 | a string is returned exactly when it is enumerated from some initial state: it labels a walk of 1 to `length` moves from an initial state that uses up the whole length or ends where no move leaves |
| SignToInterval.Apply | lisa/lisa-analyses/src/main/java/it/unive/lisa/analysis/decouple/SignToIntervalDecoupler.java:39-53 | only the bottom sign gives the empty interval; top and any other sign object give top |
| SignToInterval.ApplyIsExact | lisa/lisa-analyses/src/main/java/it/unive/lisa/analysis/decouple/SignToIntervalDecoupler.java:39-53 | the interval of a sign holds exactly the integers the sign stands for |
| SignToInterval.PosAndNegImagesAreDisjoint | lisa/lisa-analyses/src/main/java/it/unive/lisa/analysis/decouple/SignToIntervalDecoupler.java:46-49 | the intervals of the positive and negative signs share no integer, and neither holds 0 |
| SignToInterval.PutState | lisa/lisa-analyses/src/main/java/it/unive/lisa/analysis/decouple/SignToIntervalDecoupler.java:66 | binding keeps the lattice element and updates only the given identifier |
| SignToInterval.DecoupleEnvironment | lisa/lisa-analyses/src/main/java/it/unive/lisa/analysis/decouple/SignToIntervalDecoupler.java:55-70 | the loop builds the decoupled environment, with the correction of Findings: top for the top environment, bottom for a bottom or other map-less environment, otherwise each identifier bound to the interval of its sign |
| SignToInterval.DecouplingKeepsIdentifiers | lisa/lisa-analyses/src/main/java/it/unive/lisa/analysis/decouple/SignToIntervalDecoupler.java:65-69 | a non-empty environment keeps exactly its identifiers, each bound to the image of its sign |
| SignToInterval.TopDecouplesToBottomAsWritten | lisa/lisa-analyses/src/main/java/it/unive/lisa/analysis/decouple/SignToIntervalDecoupler.java:59-63 | as written, the top sign environment, which has no map, decouples to the bottom interval environment and not to the top one |
| SignToInterval.DecoupledEnvironmentAsWritten | lisa/lisa-analyses/src/main/java/it/unive/lisa/analysis/decouple/SignToIntervalDecoupler.java:55-70 | as written, every environment without a map, the top one included, decouples to the bottom interval environment |
| SignToInterval.ExtremeEnvironmentsAreKept | lisa/lisa-analyses/src/main/java/it/unive/lisa/analysis/decouple/SignToIntervalDecoupler.java:59-63 | with the correction, bottom decouples to bottom and top to top |
| SignToInterval.CorrectionOnlyChangesTop | lisa/lisa-analyses/src/main/java/it/unive/lisa/analysis/decouple/SignToIntervalDecoupler.java:55-70 | the correction differs from the code as written on the top environment alone |
| SignToInterval.DecoupledStateKeepsTheRest | lisa/lisa-analyses/src/main/java/it/unive/lisa/analysis/decouple/SignToIntervalDecoupler.java:78-84 | a decoupled state keeps heap, type state, computed expressions and aliasing; only the value environment changes |
| SignToInterval.DecoupleStatementStore | lisa/lisa-analyses/src/main/java/it/unive/lisa/analysis/decouple/SignToIntervalDecoupler.java:72-87 | the new store has the same statements, each mapped to its decoupled state |
| SignToInterval.SignToIntervalDecoupler.constructor | lisa/lisa-analyses/src/main/java/it/unive/lisa/analysis/decouple/SignToIntervalDecoupler.java:35-37 | both states are left unset |
| SignToInterval.SignToIntervalDecoupler.SetStates | lisa/lisa-analyses/src/main/java/it/unive/lisa/analysis/decouple/SignToIntervalDecoupler.java:99-104 | both states are set to the given ones |
| SignToInterval.SignToIntervalDecoupler.GetAscendingState | lisa/lisa-analyses/src/main/java/it/unive/lisa/analysis/decouple/SignToIntervalDecoupler.java:106-109 | the ascending state last set |
| SignToInterval.SignToIntervalDecoupler.GetDescendingState | lisa/lisa-analyses/src/main/java/it/unive/lisa/analysis/decouple/SignToIntervalDecoupler.java:111-114 | the descending state last set |
| SignToInterval.SignToIntervalDecoupler.Decouple | lisa/lisa-analyses/src/main/java/it/unive/lisa/analysis/decouple/SignToIntervalDecoupler.java:89-97 | the same CFG, with entry-state store and result store each converted entry by entry, same statements |
| DecouplingModular.SeedAsWritten | lisa/lisa-analyses/src/main/java/it/unive/lisa/interprocedural/DecouplingModularWorstCaseAnalysisInterprocedural.java:94-100 | the seed as written fails exactly when the ascending result is absent; otherwise it is the corrected seed |
| DecouplingModular.Seed | lisa/lisa-analyses/src/main/java/it/unive/lisa/interprocedural/DecouplingModularWorstCaseAnalysisInterprocedural.java:94-100 | absent exactly when the ascending result is absent; a present one keeps its CFG and the statements of both stores |
| DecouplingModular.Seeds | lisa/lisa-analyses/src/main/java/it/unive/lisa/interprocedural/DecouplingModularWorstCaseAnalysisInterprocedural.java:92-100 | one seed for each CFG of the application |
| DecouplingModular.DecouplingModularAnalysis.constructor | lisa/lisa-analyses/src/main/java/it/unive/lisa/interprocedural/DecouplingModularWorstCaseAnalysisInterprocedural.java:59-67 | keeps the decoupler and both states, and hands both states to the decoupler |
| DecouplingModular.DecouplingModularAnalysis.Init | lisa/lisa-analyses/src/main/java/it/unive/lisa/interprocedural/DecouplingModularWorstCaseAnalysisInterprocedural.java:69-75 | records the application's CFGs |
| DecouplingModular.DecouplingModularAnalysis.AscendingConfig | lisa/lisa-analyses/src/main/java/it/unive/lisa/interprocedural/DecouplingModularWorstCaseAnalysisInterprocedural.java:82-89 | the ascending run uses the caller's working set and widening threshold, no descending phase and glb threshold 0 |
| DecouplingModular.DecouplingModularAnalysis.Fixpoint | lisa/lisa-analyses/src/main/java/it/unive/lisa/interprocedural/DecouplingModularWorstCaseAnalysisInterprocedural.java:77-112 | with the corrected seeding, fails (results untouched) exactly when the application is unknown or a CFG has no entry in the ascending results; otherwise results are the descending run from bottom on the seeds of every CFG |
| DecouplingModular.DecouplingModularAnalysis.GetAnalysisResultsOf | lisa/lisa-analyses/src/main/java/it/unive/lisa/interprocedural/DecouplingModularWorstCaseAnalysisInterprocedural.java:114-118 | always null |
| DecouplingModular.DecouplingModularAnalysis.GetAbstractResultOf | lisa/lisa-analyses/src/main/java/it/unive/lisa/interprocedural/DecouplingModularWorstCaseAnalysisInterprocedural.java:120-134 | always null, for CFG calls and open calls alike |
| DecouplingModular.DecouplingModularAnalysis.Resolve | lisa/lisa-analyses/src/main/java/it/unive/lisa/interprocedural/DecouplingModularWorstCaseAnalysisInterprocedural.java:136-141 | always null |
| DecouplingModular.DecouplingModularAnalysis.DescendingPhase | lisa/lisa-analyses/src/main/java/it/unive/lisa/interprocedural/DecouplingModularWorstCaseAnalysisInterprocedural.java:143-150 | does nothing: no field changes |
| Tarsis.GetSizeDiffCapped | lisa/lisa-analyses/src/main/java/it/unive/lisa/analysis/string/tarsis/Tarsis.java:86-95 | between 1 and the cap 5; below the cap it is the absolute size difference, and it never exceeds a non-zero difference |
| Tarsis.SizeDiffCappedIsSymmetric | lisa/lisa-analyses/src/main/java/it/unive/lisa/analysis/string/tarsis/Tarsis.java:86-95 | the capped difference does not depend on the order of the operands |
| Tarsis.CompareLanguages | lisa/lisa-analyses/src/main/java/it/unive/lisa/analysis/string/tarsis/Tarsis.java:181-193 | SATISFIED exactly when every left string contains every right string (so also for an empty language); UNKNOWN when only some pair does; NOT_SATISFIED when none does |
| Tarsis.Contains | lisa/lisa-analyses/src/main/java/it/unive/lisa/analysis/string/tarsis/Tarsis.java:174-225 | for two finite automata, the language comparison above; otherwise the outcome of the automaton checks |
| Tarsis.SatisfiesBinaryExpression | lisa/lisa-analyses/src/main/java/it/unive/lisa/analysis/string/tarsis/Tarsis.java:158-164 | UNKNOWN for every operator but contains; for contains on two finite automata, SATISFIED exactly when every string of the left language contains every string of the right one, NOT_SATISFIED exactly when no pair does, and otherwise the outcome of the automaton checks |
| Tarsis.EvalBinaryExpression | lisa/lisa-analyses/src/main/java/it/unive/lisa/analysis/string/tarsis/Tarsis.java:150-156 | concatenation concatenates the automata; every other operator gives top |
| Tarsis.EvalNonNullConstant | lisa/lisa-analyses/src/main/java/it/unive/lisa/analysis/string/tarsis/Tarsis.java:142-147 | a string constant gives the automaton of that string; any other constant gives top |
| PointBasedHeap.AlreadyAllocated | lisa/src/main/java/it/unive/lisa/analysis/impl/heap/pointbased/FieldSensitivePointBasedHeap.java:50-57 | finds a site of the environment with the same name exactly when the name is in use |
| PointBasedHeap.VisitHeapAllocation | lisa/src/main/java/it/unive/lisa/analysis/impl/heap/pointbased/FieldSensitivePointBasedHeap.java:83-93 | one site for the code location, with no field, weak exactly when its name is already in use |
| PointBasedHeap.FieldSite | lisa/src/main/java/it/unive/lisa/analysis/impl/heap/pointbased/FieldSensitivePointBasedHeap.java:75-77 | the field site keeps the pointed site's code location and weakness, with the child as field |
| PointBasedHeap.VisitAccessChild | lisa/src/main/java/it/unive/lisa/analysis/impl/heap/pointbased/FieldSensitivePointBasedHeap.java:67-81 | exactly one field site per pair of a pointer receiver and a child; non-pointer receivers contribute nothing |
| Calls.CompleteName | lisa/lisa-sdk/src/main/java/it/unive/lisa/program/cfg/statement/call/Call.java:115-117 | the name always ends the result; a blank qualifier gives the name alone, another one starts the result followed by `::` |
| Calls.CompleteNameIsInjective | lisa/lisa-sdk/src/main/java/it/unive/lisa/program/cfg/statement/call/Call.java:115-117 | a non-blank qualifier and the name can be read back from the complete name when the two qualifiers have the same length or neither holds a ':' |
| Calls.CompleteNameIsNotInjective | lisa/lisa-sdk/src/main/java/it/unive/lisa/program/cfg/statement/call/Call.java:115-117 | in general the complete name cannot be parsed back: qualifier "a" with name "b::c" and qualifier "a::b" with name "c" both give "a::b::c" |
| Calls.NewCall | lisa/lisa-sdk/src/main/java/it/unive/lisa/program/cfg/statement/call/Call.java:94-103 | fails on a null target name, checked first, or on a null strategy; otherwise keeps every argument, and the full target name is the complete name |
| Calls.Equals | lisa/lisa-sdk/src/main/java/it/unive/lisa/program/cfg/statement/call/Call.java:226-248 | two calls are equal exactly when their superclass parts, instance flags, qualifiers (null only equal to null) and target names agree; the assigning strategy is not compared |
| Calls.Wrap | lisa/lisa-sdk/src/main/java/it/unive/lisa/program/cfg/statement/call/Call.java:218-223 | the 32-bit value congruent to the integer; an `int` is unchanged |
| Calls.StringHash | lisa/lisa-sdk/src/main/java/it/unive/lisa/program/cfg/statement/call/Call.java:221-222 | a string's hash is a 32-bit `int` |
| Calls.HashCode | lisa/lisa-sdk/src/main/java/it/unive/lisa/program/cfg/statement/call/Call.java:216-224 | the hash is a 32-bit `int` |
| Calls.EqualCallsHashEqually | lisa/lisa-sdk/src/main/java/it/unive/lisa/program/cfg/statement/call/Call.java:216-248 | equal calls have equal hashes |
| Calls.JoinLength | lisa/lisa-sdk/src/main/java/it/unive/lisa/program/cfg/statement/call/Call.java:213 | the joined parameters are as long as the parts together plus one ", " between each two |
| Calls.JoinUnfoldsFromTheFront | lisa/lisa-sdk/src/main/java/it/unive/lisa/program/cfg/statement/call/Call.java:213 | the joined string of two or more parts is the first part, then ", ", then the rest joined, so it holds every part in order with one separator between each two |
| Calls.ToString | lisa/lisa-sdk/src/main/java/it/unive/lisa/program/cfg/statement/call/Call.java:211-214 | the construct name, then the joined parameters between parentheses |
| ReferenceTypes.CanBeAssignedTo | lisa/lisa-sdk/src/main/java/it/unive/lisa/type/ReferenceType.java:29-32 | a reference can be assigned exactly to pointer types |
| ReferenceTypes.Equals | lisa/lisa-sdk/src/main/java/it/unive/lisa/type/ReferenceType.java:57-72 | equal exactly to a non-null reference with the same inner type; a null inner type only to a null one |
| ReferenceTypes.CommonSupertype | lisa/lisa-sdk/src/main/java/it/unive/lisa/type/ReferenceType.java:34-37 | the reference itself exactly when the other type equals it, untyped otherwise |
| ReferenceTypes.AllInstances | lisa/lisa-sdk/src/main/java/it/unive/lisa/type/ReferenceType.java:39-42 | the reference alone |
| ReferenceTypes.ToString | lisa/lisa-sdk/src/main/java/it/unive/lisa/type/ReferenceType.java:74-77 | the inner type's string, or "null", followed by `*` |
| ReferenceTypes.ToStringAddsOneStarPerReference | lisa/lisa-sdk/src/main/java/it/unive/lisa/type/ReferenceType.java:74-77 | a nest of references prints as its innermost type followed by one `*` per reference |

## Left out

- Logging, timers and iteration loggers are left out. They do not affect results.
- Unbounded loops and recursion get a fuel bound. `ContextBased.ContextBasedAnalysis.Fixpoint` bounds the outer do-while loop with `maxIterations`, which the source does not have; running out of it is a failure. The nesting of calls is bounded by `maxDepth` in the same way. A run that would need more passes or deeper calls is not modelled.
- The intraprocedural fixpoint (`cfg.fixpoint`), abstract-state operations (push/pop scope, assign, lub, bottom, lessOrEqual) and the parameter-assigning strategy are not part of this model. They are the functions of `Collaborators`.
- `setId` on fixpoint results is left out. It names a result and does not change it.
- `FixpointResults.putResult` is not part of this model. `ContextBased.PutResult` models it as LiSA's functional lattices do it.
- `ContextBased.PutResult`: a cached result keeps only its entry and exit states (`CfgResult`), so the change test compares those two. The source compares whole CFG results, per-statement states included, so it can report a change, and add a fixpoint trigger, where the model reports none.
- `ContextBased.ContextBasedAnalysis.GetAbstractResultOf`: the concrete context-sensitivity tokens (`RecursionFreeToken`, `SingleScopeToken`) are not part of this model. The token is a type parameter with its empty token, push and pop given in `Collaborators`. The driver's methods require that popping a scope gives back the token it was pushed on (`PopUndoesPush`), which is the documented contract of tokens; with a token that breaks it, the model says nothing. The default token, `RecursionFreeToken` (ContextBasedAnalysis.java line 48), rejects a push that would revisit a scope, so under it the model may say nothing about recursive calls.
- `ContextBased.ContextBasedAnalysis.GetAbstractResultOf` and `ContextBased.ContextBasedAnalysis.ResultForTarget`: pushing and popping scopes, preparing the call with the assigning strategy, the comparison of states, `assign` and `lub` are taken as total. In the source each of them may throw a `SemanticException` (lines 205-243), leaving the token pushed; the model has no such error path. Only the intraprocedural fixpoint (`exitOf`) and entry preparation (`prepareEntry`) can fail.
- `ContextBased.ContextBasedAnalysis.IntraproceduralFixpoint`: the calls a CFG resolves during its fixpoint are a fixed list (`callsOf`) that does not depend on the states. The source's widening fixpoint resolves a call again each time an iteration reaches it, so the number of resolutions and their entry states depend on the states.
- `ContextBased.TransitiveCallers`: the source keeps only callers that are CFGs (`CFG.class::isInstance`, lines 159 and 162). In the model every caller is a CFG, so no filter is applied.
- `SignToInterval.DecoupleEnvironment` runs the corrected decoupling of Findings: the top sign environment gives the top interval environment. `SignToInterval.DecoupleStatementStore`, `SignToInterval.SignToIntervalDecoupler.Decouple` and the seeds `DecouplingModular.Seed` and `DecouplingModular.Seeds` are built on it, so they use the correction too. `SignToInterval.DecoupledEnvironmentAsWritten` is the decoupling as written, which sends top to bottom.
- `DecouplingModular.DecouplingModularAnalysis.Fixpoint` runs the corrected seeding (`Seed`) of Findings. As written, the source throws at line 99 when a CFG has no ascending result; `SeedAsWritten` models that.
- `ContextBasedAnalysis.descendingPhase` (lines 265-272) is an empty method and is not modelled.
- The results cache is created in the source as `value.top()`. It is modelled as an empty cache, which is what the source's reads of it observe.
- `ContextBased.ContextBasedAnalysis.GetAnalysisResultsOf`: requires the cache to exist. The source throws a null-pointer exception before the first fixpoint.
- `Automata.Automaton.Reach`: the source prunes by removing from the receiver's own transition set. It therefore also changes the receiver; this aliasing is not modelled, and the result holds a fresh set. The failure this loop causes is in Findings.
- `Automata.Automaton.Reverse`: the source gives every new state id 0, so states can merge under State's equality. This is modelled with structural equality of the `State` record. `State.equals` and `Transition.equals` are not part of this model.
- `Automata.Automaton.Reverse` also computes the sets of initial and final states and then discards them. That is not modelled.
- `Automata.Automaton.Minimize`: the model does not claim the result is minimal or that it accepts the receiver's language. It states that the result is trim and flagged minimised and determinised. No language claim holds for the source's construction: `reverse` gives every state id 0 (Automaton.java lines 182-191), so distinct states can merge and the reversed automaton need not accept the reversed language.
- `Automata.Automaton.Determinize`: the language is compared only on strings without the blank `' '`. The receiver reads a blank in the input along an epsilon move (as `validateString` does), while the result has no epsilon move.
- `Automata.Automaton.Determinize` runs the corrected construction of Findings, whose transitions connect the final-flagged states. The construction as the source builds it is `DeterminisedAsWrittenRejectsNonEmpty`'s subject. The loss of language does not depend on `State.equals`: every transition of the construction ends at a construction state, and those are all non-final.
- `Automata.Automaton.Union`: the source ignores `other` altogether. The model does the same.
- `Automata.Automaton.Union`: the fresh start state may coincide with an existing state. The start closure and the language are proved only when it does not.
- `Automata.Automaton.Union`: a string that begins with the blank `' '` can be read along the new start's epsilon moves, so for such strings the union may accept more than the receiver. The language claim excludes them.
- `Automata.Automaton.LanguageAtMost`: the source selects outgoing transitions by reference (`==`) on states. The model uses value equality.
- `Automata.Automaton.LanguageAtMost`: a negative length is not modelled (the parameter is a `nat`).
- `Automata.LanguageFrom` and `Automata.Automaton.LanguageAtMost`: the source documents the result as the accepted strings, but the code never reads a final flag. The model states what the code enumerates: labels of walks that use up the whole length or end in a state with no outgoing move (`LanguageFromIsExact`). It makes no claim about acceptance.
- Tarsis lub, glb, widening, less-or-equal, equality, hashing and representation are left out. They delegate to regex-automaton operations that are not part of this model.
- `Tarsis.Contains`: the branches for cyclic or unknown-reading automata (lines 196-224) call regex-automaton operations that are not part of this model. Their outcome is the parameter `cyclicOutcome`.
- `Tarsis.Contains` states only the SATISFIED and NOT_SATISFIED cases for finite languages. UNKNOWN follows from `Tarsis.CompareLanguages`.
- `FunctionalLattice` and `StatementStore` internals are not part of this model. Environments are a lattice element plus an optional map.
- The bottom element that a new statement store is built with (`SignToIntervalDecoupler.java:76`) is not modelled. Neither is the null-pointer exception it raises when the descending state was never set.
- `PointBasedHeap.VisitAccessChild`: the cast of a pointer's location to an allocation site is assumed to succeed. The model's pointers always point to allocation sites.
- The name of an allocation site is not part of this model. It is the parameter `nameOf`.
- `Calls.Equals` and `Calls.HashCode`: the n-ary expression superclass is modelled by its parts. Its equality is value equality of those parts, and its hash is the parameter `baseHash`.
- `Calls.StringHash`: characters outside the basic multilingual plane are counted as one code unit.
- `Call.setSource` and `Call.getSource` are left out. They are a plain field.
- `StringUtils.join` printing of null parameters is left out.
- `ReferenceType.hashCode` is left out.
- `ReferenceTypes.Equals` compares inner types by value equality.
- The modular worst-case analysis is not part of this model. Its runs are the functions of `ModularRuns`.
- `DecouplingInterprocedural`, `CFGWithAnalysisResultsDecoupler`, `Length`, `StringEndsWith` and the tests are context and are not modelled.
- `SignToInterval.Sign`: a sign object that is not one of the shared constants is `Unshared`.

## Findings

| source | as written | input that shows it | evidently intended | confidence | as-written member | corrected member |
|---|---|---|---|---|---|---|
| lisa/lisa-analyses/src/main/java/it/unive/lisa/interprocedural/DecouplingModularWorstCaseAnalysisInterprocedural.java:99 | a CFG with no ascending result is seeded with `Optional.of(null)`, which throws a null-pointer exception | any application with a CFG the ascending run has no result for (its entry maps to an empty Optional) | seed that CFG with `Optional.empty()` | not executed; high | DecouplingModular.SeedAsWritten | DecouplingModular.Seed |
| lisa/lisa-core/src/main/java/it/unive/lisa/analysis/string/Automaton.java:159-162 | `reach` removes transitions from the set it is iterating over, so the hash-set iterator throws a concurrent-modification exception on the next step | initial state 0 with a loop on 'b', unreachable final state 1 with a move to 0 on 'a', the move out of 1 visited first | collect the kept transitions into a new set | not executed; medium (it depends on hash-set iteration order) | Automata.PruneAsWritten | Automata.Automaton.Reach |
| lisa/lisa-core/src/main/java/it/unive/lisa/analysis/string/Automaton.java:245-282 | the subset construction's transitions connect the construction states, which are never final; the final-flagged copies exist only in the state set, so the result accepts no non-empty string | the automaton with the single move 0 -a-> 1, 1 final, accepts "a"; its determinisation does not | redirect the transitions between the final-flagged states, so the result accepts the same language, as documented at lines 203-208 | not executed; high (every transition ends at a non-final construction state, lines 230, 251 and 254-264, whatever `State.equals` does) | Automata.DeterminisationAsWrittenLosesLanguage | Automata.DeterminisationPreservesLanguage |
| lisa/lisa-analyses/src/main/java/it/unive/lisa/analysis/decouple/SignToIntervalDecoupler.java:61-63 | an environment without a map decouples to bottom; the top sign environment has no map, so it decouples to bottom | the top sign environment | the top sign environment decouples to the top interval environment, bottom staying bottom | not executed; medium (the top environment's map is null in LiSA) | SignToInterval.TopDecouplesToBottomAsWritten | SignToInterval.ExtremeEnvironmentsAreKept |
