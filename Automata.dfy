/**
 * The string-analysis automaton: an epsilon-NFA over `char`, whose epsilon moves are the
 * transitions labelled with the blank character. States and transitions are values; an
 * automaton holds a set of each, plus two flags recording whether it came out of
 * determinisation or minimisation.
 */
module Automata {
  import opened Wrappers
  import opened Graphs
  import opened Sequences

  /** The label that marks an epsilon (silent) transition. */
  const Epsilon: char := ' '

  datatype State = State(id: int, initial: bool, final: bool)

  datatype Transition = Transition(source: State, destination: State, symbol: char)

  // ---------------------------------------------------------------------------------------
  // The transition relation seen as graphs

  /** The epsilon moves as (source, destination) edges. */
  function EpsEdges(T: set<Transition>): (r: set<(State, State)>)
    ensures forall t :: t in T && t.symbol == Epsilon ==> (t.source, t.destination) in r
    ensures forall e :: e in r ==> Transition(e.0, e.1, Epsilon) in T
  {
    set t | t in T && t.symbol == Epsilon :: (t.source, t.destination)
  }

  /** All moves, whatever their label, as (source, destination) edges. */
  function AllEdges(T: set<Transition>): (r: set<(State, State)>)
    ensures forall t :: t in T ==> (t.source, t.destination) in r
    ensures forall e :: e in r ==> exists t :: t in T && t.source == e.0 && t.destination == e.1
  {
    set t | t in T :: (t.source, t.destination)
  }

  function Initials(S: set<State>): (r: set<State>)
    ensures forall s :: s in r <==> s in S && s.initial
  {
    set s | s in S && s.initial
  }

  /** The destinations of the `c`-labelled moves out of `src`. */
  function StepOn(T: set<Transition>, src: set<State>, c: char): (r: set<State>)
    ensures forall y :: y in r <==> exists x :: x in src && Transition(x, y, c) in T
  {
    set t | t in T && t.source in src && t.symbol == c :: t.destination
  }

  /** Every state some transition leads to. */
  function Destinations(T: set<Transition>): (r: set<State>)
    ensures forall t :: t in T ==> t.destination in r
    ensures forall y :: y in r ==> exists t :: t in T && t.destination == y
  {
    set t | t in T :: t.destination
  }

  /** The states current after reading `c` from the states `X`: the epsilon closure of the
      `c`-successors of `X`. */
  ghost function MacroStep(T: set<Transition>, X: set<State>, c: char): set<State> {
    Closure(EpsEdges(T), StepOn(T, X, c))
  }

  /** The states current after reading `w` from the states `X`. */
  ghost function Run(T: set<Transition>, X: set<State>, w: string): set<State>
    decreases |w|
  {
    if w == [] then X else Run(T, MacroStep(T, X, w[0]), w[1..])
  }

  /** The language of the automaton (`S`, `T`): reading `w` from the epsilon closure of the
      initial states ends in a set that holds a final state. */
  ghost predicate Accepts(T: set<Transition>, S: set<State>, w: string) {
    exists s :: s in Run(T, Closure(EpsEdges(T), Initials(S)), w) && s.final
  }

  predicate HasFinal(X: set<State>) {
    exists q :: q in X && q.final
  }

  lemma ClosureOfNothing<T(!new)>(E: set<(T, T)>)
    ensures Closure(E, {}) == {}
  {
  }

  /** Reading from the set of states the moves out of `A + B` is reading from both. */
  lemma MacroStepOfUnion(T: set<Transition>, A: set<State>, B: set<State>, c: char)
    ensures MacroStep(T, A + B, c) == MacroStep(T, A, c) + MacroStep(T, B, c)
  {
    assert StepOn(T, A + B, c) == StepOn(T, A, c) + StepOn(T, B, c);
    ClosureOfUnion(EpsEdges(T), StepOn(T, A, c), StepOn(T, B, c));
  }

  /** Once no state is current, no input brings one back: the string is rejected. */
  lemma {:induction false} RunFromNothing(T: set<Transition>, w: string)
    ensures Run(T, {}, w) == {}
    decreases |w|
  {
    if w != [] {
      assert StepOn(T, {}, w[0]) == {};
      ClosureOfNothing(EpsEdges(T));
      assert MacroStep(T, {}, w[0]) == {};
      RunFromNothing(T, w[1..]);
    }
  }

  /** Reading `u + v` is reading `u` and then `v`. */
  lemma {:induction false} RunOfConcat(T: set<Transition>, X: set<State>, u: string, v: string)
    ensures Run(T, X, u + v) == Run(T, Run(T, X, u), v)
    decreases |u|
  {
    if u != [] {
      assert (u + v)[0] == u[0];
      assert (u + v)[1..] == u[1..] + v;
      assert Run(T, X, u + v) == Run(T, MacroStep(T, X, u[0]), u[1..] + v);
      assert Run(T, X, u) == Run(T, MacroStep(T, X, u[0]), u[1..]);
      RunOfConcat(T, MacroStep(T, X, u[0]), u[1..], v);
    } else {
      assert u + v == v;
    }
  }

  // ---------------------------------------------------------------------------------------
  // Reversal, restriction, union: the transition sets the operations build

  /** Every transition turned around, label kept. */
  function Flipped(T: set<Transition>): (r: set<Transition>)
    ensures forall t :: t in r <==> Transition(t.destination, t.source, t.symbol) in T
  {
    set t | t in T :: Transition(t.destination, t.source, t.symbol)
  }

  lemma FlippedIsInvolution(T: set<Transition>)
    ensures Flipped(Flipped(T)) == T
    ensures AllEdges(Flipped(T)) == Reversed(AllEdges(T))
  {
    forall e | e in Reversed(AllEdges(T))
      ensures e in AllEdges(Flipped(T))
    {
      var t :| t in T && t.source == e.1 && t.destination == e.0;
      assert Transition(t.destination, t.source, t.symbol) in Flipped(T);
    }
  }

  /** The transitions with both ends among `keep`. */
  function Restrict(T: set<Transition>, keep: set<State>): (r: set<Transition>)
    ensures forall t :: t in r <==> t in T && t.source in keep && t.destination in keep
  {
    set t | t in T && t.source in keep && t.destination in keep
  }

  /** Reaching from `src` inside a closed set `keep` uses only transitions with both ends kept. */
  lemma {:induction false} ReachesWithinKept(T: set<Transition>, src: set<State>, keep: set<State>, x: State)
    requires src <= keep && Closed(AllEdges(T), keep) && Reaches(AllEdges(T), src, x)
    ensures Reaches(AllEdges(Restrict(T, keep)), src, x)
  {
    var E := AllEdges(T);
    var p :| IsPath(E, p) && p[0] in src && p[|p| - 1] == x;
    forall i | 0 <= i < |p|
      ensures p[i] in keep
    {
      var q := p[..i + 1];
      assert forall k :: 0 <= k < |q| ==> q[k] == p[k];
      assert IsPath(E, q);
      PathStaysIn(E, q, keep);
    }
    forall i | 0 <= i < |p| - 1
      ensures (p[i], p[i + 1]) in AllEdges(Restrict(T, keep))
    {
      assert (p[i], p[i + 1]) in E;
      var t :| t in T && t.source == p[i] && t.destination == p[i + 1];
      assert t in Restrict(T, keep);
    }
    assert IsPath(AllEdges(Restrict(T, keep)), p);
  }

  /** The fresh initial state that union puts in front of the receiver's initial states. */
  const UnionStart: State := State(0, true, false)

  /** The receiver's transitions plus an epsilon move from the fresh start to each of its
      initial states; nothing of the other operand. */
  function UnionTransitions(S: set<State>, T: set<Transition>): (r: set<Transition>)
    ensures forall t :: t in r <==>
      t in T || (t.source == UnionStart && t.symbol == Epsilon && t.destination in Initials(S))
  {
    T + set s | s in S && s.initial :: Transition(UnionStart, s, Epsilon)
  }

  /** The union's start set: the fresh state and the epsilon closure of the receiver's initial
      states, which is unchanged when the fresh state is new to the receiver. */
  lemma UnionStartClosure(S: set<State>, T: set<Transition>)
    requires UnionStart !in S
    requires forall t :: t in T ==> t.source != UnionStart && t.destination != UnionStart
    ensures Closure(EpsEdges(UnionTransitions(S, T)), Initials(S + {UnionStart}))
         == Closure(EpsEdges(T), Initials(S)) + {UnionStart}
  {
    var E := EpsEdges(T);
    var E' := EpsEdges(UnionTransitions(S, T));
    var I := Initials(S);
    assert Initials(S + {UnionStart}) == I + {UnionStart};
    forall x | Reaches(E', I + {UnionStart}, x)
      ensures x == UnionStart || Reaches(E, I, x)
    {
      var p :| IsPath(E', p) && p[0] in I + {UnionStart} && p[|p| - 1] == x;
      if x != UnionStart {
        var k := LastVisit(E', p, UnionStart);
        var q := p[k + 1..];
        assert q[0] in I by {
          if k >= 0 {
            assert (p[k], p[k + 1]) in E';
            assert Transition(UnionStart, p[k + 1], Epsilon) in UnionTransitions(S, T);
          }
        }
        forall i | 0 <= i < |q| - 1
          ensures (q[i], q[i + 1]) in E
        {
          assert q[i] == p[k + 1 + i] && q[i + 1] == p[k + 2 + i];
          assert (q[i], q[i + 1]) in E';
          assert Transition(q[i], q[i + 1], Epsilon) in UnionTransitions(S, T);
        }
        assert IsPath(E, q);
      }
    }
    forall x | Reaches(E, I, x)
      ensures Reaches(E', I + {UnionStart}, x)
    {
      var p :| IsPath(E, p) && p[0] in I && p[|p| - 1] == x;
      forall i | 0 <= i < |p| - 1
        ensures (p[i], p[i + 1]) in E'
      {
        assert (p[i], p[i + 1]) in E;
      }
      assert IsPath(E', p);
    }
    ReachesStart(E', I + {UnionStart}, UnionStart);
  }

  /** The fresh start is not in `S`, and no transition of `T` touches it. */
  predicate UnionStartIsFresh(S: set<State>, T: set<Transition>) {
    UnionStart !in S && forall t :: t in T ==> t.source != UnionStart && t.destination != UnionStart
  }

  /** Away from the fresh start, the union's epsilon closure is the receiver's, and it never
      reaches the fresh start. */
  lemma UnionClosureAwayFromStart(S: set<State>, T: set<Transition>, X: set<State>)
    requires UnionStartIsFresh(S, T) && UnionStart !in X
    ensures Closure(EpsEdges(UnionTransitions(S, T)), X) == Closure(EpsEdges(T), X)
    ensures UnionStart !in Closure(EpsEdges(T), X)
  {
    var E := EpsEdges(T);
    var E' := EpsEdges(UnionTransitions(S, T));
    forall x | Reaches(E', X, x)
      ensures Reaches(E, X, x)
    {
      var p :| IsPath(E', p) && p[0] in X && p[|p| - 1] == x;
      forall i | 0 <= i < |p| - 1
        ensures (p[i], p[i + 1]) in E
      {
        assert Transition(p[i], p[i + 1], Epsilon) in UnionTransitions(S, T);
        if i > 0 {
          assert Transition(p[i - 1], p[i], Epsilon) in UnionTransitions(S, T);
        }
      }
      assert IsPath(E, p);
    }
    forall x | Reaches(E, X, x)
      ensures Reaches(E', X, x)
    {
      var p :| IsPath(E, p) && p[0] in X && p[|p| - 1] == x;
      forall i | 0 <= i < |p| - 1
        ensures (p[i], p[i + 1]) in E'
      {
        assert Transition(p[i], p[i + 1], Epsilon) in T;
      }
      assert IsPath(E', p);
    }
    ReachesIsBounded(E, X);
  }

  /** Once the fresh start is left behind, the union reads every string as the receiver does. */
  lemma {:induction false} UnionRunAwayFromStart(S: set<State>, T: set<Transition>, X: set<State>, w: string)
    requires UnionStartIsFresh(S, T) && UnionStart !in X
    ensures Run(UnionTransitions(S, T), X, w) == Run(T, X, w)
    decreases |w|
  {
    if w != [] {
      var T' := UnionTransitions(S, T);
      var Y := StepOn(T, X, w[0]);
      assert StepOn(T', X, w[0]) == Y;
      assert UnionStart !in Y;
      UnionClosureAwayFromStart(S, T, Y);
      UnionRunAwayFromStart(S, T, MacroStep(T, X, w[0]), w[1..]);
    }
  }

  /** On a symbol other than the blank, the union's first step from its start set is the
      receiver's first step: the fresh start has no move on it. */
  lemma UnionFirstStep(S: set<State>, T: set<Transition>, C: set<State>, c: char)
    requires UnionStartIsFresh(S, T) && UnionStart !in C && c != Epsilon
    ensures MacroStep(UnionTransitions(S, T), C + {UnionStart}, c) == MacroStep(T, C, c)
    ensures UnionStart !in MacroStep(T, C, c)
  {
    var T' := UnionTransitions(S, T);
    MacroStepOfUnion(T', C, {UnionStart}, c);
    assert StepOn(T', {UnionStart}, c) == {};
    ClosureOfNothing(EpsEdges(T'));
    assert StepOn(T', C, c) == StepOn(T, C, c);
    UnionClosureAwayFromStart(S, T, StepOn(T, C, c));
  }

  /** With a fresh start, the union accepts exactly the receiver's strings (the other operand
      plays no part), except that a leading blank can be read along the start's epsilon moves. */
  lemma UnionAcceptsTheReceiversLanguage(S: set<State>, T: set<Transition>, w: string)
    requires UnionStartIsFresh(S, T)
    requires w == [] || w[0] != Epsilon
    ensures Accepts(UnionTransitions(S, T), S + {UnionStart}, w) <==> Accepts(T, S, w)
  {
    var T' := UnionTransitions(S, T);
    var C := Closure(EpsEdges(T), Initials(S));
    UnionStartClosure(S, T);
    UnionClosureAwayFromStart(S, T, Initials(S));
    assert Closure(EpsEdges(T'), Initials(S + {UnionStart})) == C + {UnionStart};
    if w != [] {
      UnionFirstStep(S, T, C, w[0]);
      UnionRunAwayFromStart(S, T, MacroStep(T, C, w[0]), w[1..]);
      assert Run(T', C + {UnionStart}, w) == Run(T, C, w);
    }
  }

  /** The last position of `s` on the path `p`, or -1; every later node differs from `s`. */
  lemma LastVisit<T>(E: set<(T, T)>, p: seq<T>, s: T) returns (k: int)
    requires |p| >= 1 && p[|p| - 1] != s
    ensures -1 <= k < |p| - 1
    ensures k >= 0 ==> p[k] == s
    ensures k < 0 ==> s !in p
    ensures forall i :: k < i < |p| ==> p[i] != s
  {
    k := |p| - 2;
    while k >= 0 && p[k] != s
      invariant -1 <= k < |p| - 1
      invariant forall i :: k < i < |p| ==> p[i] != s
    {
      k := k - 1;
    }
  }

  // ---------------------------------------------------------------------------------------
  // Language enumeration up to a length

  /** The strings of length 1..`length` spelled from `q`: each outgoing transition contributes
      its symbol, followed by every string enumerated from its destination with one symbol
      less, or by nothing when that enumeration is empty. Labels are read literally, the
      blank of an epsilon move included. */
  function LanguageFrom(T: set<Transition>, q: State, length: nat): (r: set<string>)
    ensures length == 0 ==> r == {}
    ensures forall w :: w in r ==> 1 <= |w| <= length
    decreases length, 0
  {
    if length == 0 then {}
    else
      set t, w | t in T && t.source == q && w in Continuations(T, t.destination, length - 1)
               :: [t.symbol] + w
  }

  /** What may follow a symbol that lands in `d`: the enumeration from `d`, or the empty
      string alone when it is empty. */
  function Continuations(T: set<Transition>, d: State, length: nat): (r: set<string>)
    ensures forall w :: w in r ==> |w| <= length
    decreases length, 1
  {
    var rest := LanguageFrom(T, d, length);
    if rest == {} then {[]} else rest
  }

  /** `w` is the label sequence of a walk from `q` to `d`. */
  ghost predicate WalkTo(T: set<Transition>, q: State, w: string, d: State)
    decreases |w|
  {
    if w == [] then d == q
    else exists t :: t in T && t.source == q && t.symbol == w[0] && WalkTo(T, t.destination, w[1..], d)
  }

  /** No transition leaves `d`. */
  predicate Dead(T: set<Transition>, d: State) {
    forall t :: t in T ==> t.source != d
  }

  /** The strings the enumeration yields from `q`: labels of walks of 1..`length` moves that
      either use up the whole length or stop in a state with no way out. */
  ghost predicate Enumerated(T: set<Transition>, q: State, w: string, length: nat) {
    1 <= |w| <= length && exists d :: WalkTo(T, q, w, d) && (|w| == length || Dead(T, d))
  }

  /** From a state with a way out, something is enumerated. */
  lemma LanguageFromNonEmpty(T: set<Transition>, q: State, length: nat)
    requires length >= 1 && !Dead(T, q)
    ensures LanguageFrom(T, q, length) != {}
  {
    var t :| t in T && t.source == q;
    var rest := Continuations(T, t.destination, length - 1);
    var w' :| w' in rest;
    assert [t.symbol] + w' in LanguageFrom(T, q, length);
  }

  /** The enumeration from `q` is exactly the set of labels of the walks that use up the
      whole length or stop where no transition leaves: no final flag is consulted. */
  lemma LanguageFromIsExact(T: set<Transition>, q: State, length: nat, w: string)
    ensures w in LanguageFrom(T, q, length) <==> Enumerated(T, q, w, length)
  {
    if w in LanguageFrom(T, q, length) {
      LanguageFromIsSound(T, q, length, w);
    }
    if Enumerated(T, q, w, length) {
      LanguageFromIsComplete(T, q, length, w);
    }
  }

  lemma {:induction false} LanguageFromIsSound(T: set<Transition>, q: State, length: nat, w: string)
    requires w in LanguageFrom(T, q, length)
    ensures Enumerated(T, q, w, length)
    decreases length
  {
    var t, w' :| t in T && t.source == q && w' in Continuations(T, t.destination, length - 1)
                && w == [t.symbol] + w';
    assert w[1..] == w' && w[0] == t.symbol;
    var d;
    if LanguageFrom(T, t.destination, length - 1) == {} {
      d := t.destination;
      assert w' == [];
      assert WalkTo(T, t.destination, w', d);
      if length > 1 && !Dead(T, d) {
        LanguageFromNonEmpty(T, d, length - 1);
      }
    } else {
      LanguageFromIsSound(T, t.destination, length - 1, w');
      d :| WalkTo(T, t.destination, w', d) && (|w'| == length - 1 || Dead(T, d));
    }
    assert WalkTo(T, q, w, d);
  }

  lemma {:induction false} LanguageFromIsComplete(T: set<Transition>, q: State, length: nat, w: string)
    requires Enumerated(T, q, w, length)
    ensures w in LanguageFrom(T, q, length)
    decreases length
  {
    var d :| WalkTo(T, q, w, d) && (|w| == length || Dead(T, d));
    var t :| t in T && t.source == q && t.symbol == w[0] && WalkTo(T, t.destination, w[1..], d);
    var w' := w[1..];
    assert w == [t.symbol] + w';
    if w' == [] {
      assert d == t.destination;
      if length > 1 {
        assert Dead(T, d);
        assert LanguageFrom(T, d, length - 1) == {};
      }
    } else {
      LanguageFromIsComplete(T, t.destination, length - 1, w');
    }
    assert w' in Continuations(T, t.destination, length - 1);
  }

  // ---------------------------------------------------------------------------------------
  // Subset construction

  /** The state that stands for the `i`-th macro-state while the construction runs. */
  function DetState(i: int): State {
    State(i, i == 0, false)
  }

  function DetStates(n: nat): (r: set<State>)
    ensures forall i :: 0 <= i < n ==> DetState(i) in r
    ensures forall s :: s in r <==> 0 <= s.id < n && s == DetState(s.id)
  {
    var r := set i | 0 <= i < n :: DetState(i);
    assert forall s: State :: 0 <= s.id < n && s == DetState(s.id) ==> s in r;
    r
  }

  lemma {:induction false} DetStatesCardinality(n: nat)
    ensures |DetStates(n)| == n
  {
    if n > 0 {
      DetStatesCardinality(n - 1);
      assert DetStates(n) == DetStates(n - 1) + {DetState(n - 1)};
    }
  }

  /** Java's `List.indexOf`: the first position of `x`, or -1. */
  function IndexOf<T(==)>(s: seq<T>, x: T): (r: int)
    ensures -1 <= r && (r == -1 <==> x !in s)
    ensures 0 <= r ==> r < |s| && s[r] == x && forall j :: 0 <= j < r ==> s[j] != x
    decreases |s|
  {
    if s == [] then -1
    else if s[0] == x then 0
    else var k := IndexOf(s[1..], x); if k == -1 then -1 else k + 1
  }

  /** Every transition of `delta` joins two construction states and is labelled by a
      non-epsilon symbol whose macro step leads from the source's macro-state to the
      destination's. */
  ghost predicate DeltaSound(T: set<Transition>, delta: set<Transition>, macro: seq<set<State>>) {
    forall t :: t in delta ==>
      t.symbol != Epsilon &&
      0 <= t.source.id < |macro| && 0 <= t.destination.id < |macro| &&
      t.source == DetState(t.source.id) && t.destination == DetState(t.destination.id) &&
      macro[t.destination.id] == MacroStep(T, macro[t.source.id], t.symbol)
  }

  /** The symbol `c` has been handled for macro-state `i`: a nonempty macro step has become a
      macro-state, and a macro step that is a macro-state has a transition. */
  ghost predicate Handled(T: set<Transition>, delta: set<Transition>, macro: seq<set<State>>, i: nat, c: char)
    requires i < |macro|
  {
    var R := MacroStep(T, macro[i], c);
    (R != {} ==> R in macro) && (R in macro ==> exists t :: t in delta && t.source.id == i && t.symbol == c)
  }

  /** Handling a symbol stays done when macro-states are appended (never empty ones) and
      transitions are added. */
  lemma HandledPersists(T: set<Transition>, delta: set<Transition>, delta': set<Transition>,
                        macro: seq<set<State>>, macro': seq<set<State>>, i: nat, c: char)
    requires i < |macro| && Extends(macro, macro') && delta <= delta'
    requires Handled(T, delta, macro, i, c)
    ensures Handled(T, delta', macro', i, c)
  {
    assert macro'[i] == macro[i];
    var R := MacroStep(T, macro[i], c);
    if R in macro' {
      var j :| 0 <= j < |macro'| && macro'[j] == R;
      if j < |macro| {
        assert macro[j] == R;
      }
    }
    if R != {} {
      var j :| 0 <= j < |macro| && macro[j] == R;
      assert macro'[j] == R;
    }
  }

  /**
   * The outcome of the subset construction on (`S`, `T`), with `macro[i]` the macro-state of
   * the result state with id `i`:
   *  - macro-state 0 is the epsilon closure of the initial states, and macro-states are distinct;
   *  - the result has one state per macro-state, with that id, initial iff its id is 0 and
   *    final iff its macro-state holds a final state;
   *  - every transition follows a macro step on a non-epsilon symbol, and every macro step on a
   *    symbol of the alphabet that is a macro-state has a transition.
   */
  ghost predicate SubsetConstruction(S: set<State>, T: set<Transition>, macro: seq<set<State>>,
                                     rS: set<State>, rT: set<Transition>) {
    |macro| >= 1 && macro[0] == Closure(EpsEdges(T), Initials(S)) && NoDuplicates(macro) &&
    (forall s :: s in rS <==> 0 <= s.id < |macro| && s == State(s.id, s.id == 0, HasFinal(macro[s.id]))) &&
    DeltaSound(T, rT, macro) &&
    (forall i, c :: 0 <= i < |macro| && c in Alphabet(T) ==> Handled(T, rT, macro, i, c))
  }

  /** The labels of the non-epsilon transitions. */
  function Alphabet(T: set<Transition>): (r: set<char>)
    ensures forall c :: c in r <==> c != Epsilon && exists t :: t in T && t.symbol == c
  {
    set t | t in T && t.symbol != Epsilon :: t.symbol
  }

  /** A determinised automaton has exactly one initial state, and its id is 0. */
  lemma DeterminisedHasOneInitial(S: set<State>, T: set<Transition>, macro: seq<set<State>>,
                                   rS: set<State>, rT: set<Transition>)
    requires SubsetConstruction(S, T, macro, rS, rT)
    ensures exists s :: s in rS && s.initial && s.id == 0
    ensures forall s, s' :: s in rS && s' in rS && s.initial && s'.initial ==> s == s'
  {
    assert State(0, true, HasFinal(macro[0])) in rS;
  }

  /** A determinised automaton has no epsilon move and at most one move per (source, symbol). */
  lemma DeterminisedIsDeterministic(S: set<State>, T: set<Transition>, macro: seq<set<State>>,
                                    rS: set<State>, rT: set<Transition>)
    requires SubsetConstruction(S, T, macro, rS, rT)
    ensures forall t :: t in rT ==> t.symbol != Epsilon
    ensures forall t, t' ::
      t in rT && t' in rT && t.source == t'.source && t.symbol == t'.symbol ==> t == t'
  {
    forall t, t' | t in rT && t' in rT && t.source == t'.source && t.symbol == t'.symbol
      ensures t == t'
    {
      var d, d' := t.destination.id, t'.destination.id;
      assert macro[d] == macro[d'];
    }
  }

  /** `b` extends `a` with nonempty macro-states only. */
  ghost predicate Extends(a: seq<set<State>>, b: seq<set<State>>) {
    |a| <= |b| && b[..|a|] == a && forall j :: |a| <= j < |b| ==> b[j] != {}
  }

  lemma ExtendsIsTransitive(a: seq<set<State>>, b: seq<set<State>>, c: seq<set<State>>)
    requires Extends(a, b) && Extends(b, c)
    ensures Extends(a, c)
  {
    assert c[..|a|] == c[..|b|][..|a|];
  }

  /** The state of the construction between steps: distinct macro-states drawn from `U`, and
      sound transitions. */
  ghost predicate Explored(T: set<Transition>, U: set<State>, macro: seq<set<State>>, delta: set<Transition>) {
    NoDuplicates(macro) && (forall i :: 0 <= i < |macro| ==> macro[i] <= U) && DeltaSound(T, delta, macro)
  }

  /** After expanding macro-state `current`, every marked macro-state has all its symbols
      handled. */
  lemma HandledAfterExpansion(T: set<Transition>, alphabet: set<char>, delta: set<Transition>,
                              delta': set<Transition>, macro: seq<set<State>>, macro': seq<set<State>>,
                              marked: set<State>, current: nat)
    requires Extends(macro, macro') && delta <= delta' && current < |macro|
    requires forall i, c :: 0 <= i < |macro| && DetState(i) in marked && c in alphabet ==>
      Handled(T, delta, macro, i, c)
    requires forall c :: c in alphabet ==> Handled(T, delta', macro', current, c)
    requires marked <= DetStates(|macro|)
    ensures forall i, c :: 0 <= i < |macro'| && DetState(i) in marked + {DetState(current)} && c in alphabet ==>
      Handled(T, delta', macro', i, c)
  {
    forall i, c | 0 <= i < |macro'| && DetState(i) in marked + {DetState(current)} && c in alphabet
      ensures Handled(T, delta', macro', i, c)
    {
      if i != current {
        assert DetState(i).id == i;
        HandledPersists(T, delta, delta', macro, macro', i, c);
      }
    }
  }

  /** The marked states never outnumber the possible macro-states. */
  lemma MarkedWithinPowerset(U: set<State>, Pow: set<set<State>>, T: set<Transition>,
                             macro: seq<set<State>>, delta: set<Transition>, marked: set<State>)
    requires Pow == set X | X <= U
    requires Explored(T, U, macro, delta)
    requires marked <= DetStates(|macro|)
    ensures |marked| <= |Pow|
  {
    forall i | 0 <= i < |macro|
      ensures macro[i] in Pow
    {
      assert macro[i] <= U;
    }
    DistinctWithin(macro, Pow);
    DetStatesCardinality(|macro|);
    SubsetCardinality(marked, DetStates(|macro|));
  }

  /** The result's states: each construction state, made final when its macro-state holds a
      final state. */
  lemma FinalStatesMarked(dstates: set<State>, macro: seq<set<State>>, sts: set<State>)
    requires dstates == DetStates(|macro|)
    requires sts == set s | s in dstates :: if HasFinal(macro[s.id]) then State(s.id, s.initial, true) else s
    ensures forall s: State :: s in sts <==> 0 <= s.id < |macro| && s == State(s.id, s.id == 0, HasFinal(macro[s.id]))
  {
    forall s: State | 0 <= s.id < |macro| && s == State(s.id, s.id == 0, HasFinal(macro[s.id]))
      ensures s in sts
    {
      assert DetState(s.id) in dstates;
    }
  }

  // ---------------------------------------------------------------------------------------
  // The language of the subset construction

  /** No character of `w` is the blank that labels epsilon moves. */
  predicate NoBlank(w: string) {
    forall k :: 0 <= k < |w| ==> w[k] != Epsilon
  }

  /** The result state for macro-state `i`: initial iff `i` is 0, final iff its macro-state
      holds a final state. */
  function ResultState(macro: seq<set<State>>, i: int): (r: State)
    requires 0 <= i < |macro|
    ensures r.id == i && (r.initial <==> i == 0) && (r.final <==> HasFinal(macro[i]))
  {
    State(i, i == 0, HasFinal(macro[i]))
  }

  /** A construction state with its final flag set from its macro-state. */
  function Marked(macro: seq<set<State>>, s: State): (r: State)
    ensures 0 <= s.id < |macro| && s == DetState(s.id) ==> r == ResultState(macro, s.id)
  {
    if 0 <= s.id < |macro| then State(s.id, s.initial, HasFinal(macro[s.id])) else s
  }

  /** The construction's transitions, redirected between the final-flagged result states. */
  function Finalised(macro: seq<set<State>>, delta: set<Transition>): (r: set<Transition>)
    ensures forall t :: t in delta ==>
      Transition(Marked(macro, t.source), Marked(macro, t.destination), t.symbol) in r
    ensures forall u :: u in r ==>
      exists t :: t in delta && u == Transition(Marked(macro, t.source), Marked(macro, t.destination), t.symbol)
  {
    set t | t in delta :: Transition(Marked(macro, t.source), Marked(macro, t.destination), t.symbol)
  }

  /** Without edges, a closure is its sources. */
  lemma ClosureWithoutEdges<T(!new)>(src: set<T>)
    ensures Closure({}, src) == src
  {
    ReachesIsBounded({}, src);
    forall x | x in src
      ensures Reaches({}, src, x)
    {
      ReachesStart({}, src, x);
    }
  }

  /** After at least one symbol, every current state is the destination of some move. */
  lemma {:induction false} RunLandsOnDestinations(T: set<Transition>, X: set<State>, w: string)
    requires |w| >= 1
    ensures Run(T, X, w) <= Destinations(T)
    decreases |w|
  {
    var Y := MacroStep(T, X, w[0]);
    ReachesIsBounded(EpsEdges(T), StepOn(T, X, w[0]));
    assert Y <= Destinations(T);
    if |w| > 1 {
      RunLandsOnDestinations(T, Y, w[1..]);
    }
  }

  /** As the source builds it, the determinised automaton keeps its transitions between the
      construction states, which are never final, while only the copies in its state set are
      flagged final: no string of one or more symbols is accepted. */
  lemma DeterminisedAsWrittenRejectsNonEmpty(S: set<State>, T: set<Transition>, macro: seq<set<State>>,
                                             rS: set<State>, rT: set<Transition>, w: string)
    requires SubsetConstruction(S, T, macro, rS, rT)
    requires |w| >= 1
    ensures !Accepts(rT, rS, w)
  {
    RunLandsOnDestinations(rT, Closure(EpsEdges(rT), Initials(rS)), w);
  }

  /** The automaton with the single move 0 -a-> 1, from initial state 0 to final state 1. */
  const SingleMoveStates: set<State> := {State(0, true, false), State(1, false, true)}
  const SingleMoveTransitions: set<Transition> := {Transition(State(0, true, false), State(1, false, true), 'a')}

  lemma SingleMoveAcceptsA()
    ensures Accepts(SingleMoveTransitions, SingleMoveStates, "a")
  {
    var q0, q1 := State(0, true, false), State(1, false, true);
    var S, T := SingleMoveStates, SingleMoveTransitions;
    SingleMoveParts();
    ClosureWithoutEdges({q0});
    ClosureWithoutEdges({q1});
    RunOfOneSymbol(T, {q0}, 'a');
    assert q1 in Run(T, Closure(EpsEdges(T), Initials(S)), "a");
  }

  lemma SingleMoveParts()
    ensures EpsEdges(SingleMoveTransitions) == {}
    ensures Initials(SingleMoveStates) == {State(0, true, false)}
    ensures StepOn(SingleMoveTransitions, {State(0, true, false)}, 'a') == {State(1, false, true)}
  {
    assert EpsEdges(SingleMoveTransitions) == {} by {
      forall e | e in EpsEdges(SingleMoveTransitions)
        ensures false
      {
      }
    }
  }

  /** Reading one symbol is one macro step. */
  lemma RunOfOneSymbol(T: set<Transition>, X: set<State>, c: char)
    ensures Run(T, X, [c]) == MacroStep(T, X, c)
  {
    assert [c][1..] == [];
  }

  /** The single-move automaton accepts "a"; its determinisation as written does not. */
  lemma DeterminisationAsWrittenLosesLanguage(macro: seq<set<State>>, rS: set<State>, rT: set<Transition>)
    requires SubsetConstruction(SingleMoveStates, SingleMoveTransitions, macro, rS, rT)
    ensures Accepts(SingleMoveTransitions, SingleMoveStates, "a") && !Accepts(rT, rS, "a")
  {
    SingleMoveAcceptsA();
    DeterminisedAsWrittenRejectsNonEmpty(SingleMoveStates, SingleMoveTransitions, macro, rS, rT, "a");
  }

  /** The corrected result has no epsilon move, and its only initial state is the one of
      macro-state 0. */
  lemma FinalisedStart(S: set<State>, T: set<Transition>, macro: seq<set<State>>,
                       rS: set<State>, rT: set<Transition>)
    requires SubsetConstruction(S, T, macro, rS, rT)
    ensures EpsEdges(Finalised(macro, rT)) == {}
    ensures Closure(EpsEdges(Finalised(macro, rT)), Initials(rS)) == {ResultState(macro, 0)}
  {
    var F := Finalised(macro, rT);
    forall u | u in F
      ensures u.symbol != Epsilon
    {
      var t :| t in rT && u == Transition(Marked(macro, t.source), Marked(macro, t.destination), t.symbol);
    }
    assert EpsEdges(F) == {};
    assert ResultState(macro, 0) in rS;
    assert Initials(rS) == {ResultState(macro, 0)};
    ClosureWithoutEdges(Initials(rS));
  }

  /** A move of the corrected result on `c` from the state of macro-state `i` goes to the
      state of the macro-state that the macro step on `c` reaches. */
  lemma FinalisedMoveFollowsMacroStep(S: set<State>, T: set<Transition>, macro: seq<set<State>>,
                                      rS: set<State>, rT: set<Transition>, i: int, c: char, y: State)
    requires SubsetConstruction(S, T, macro, rS, rT)
    requires 0 <= i < |macro| && Transition(ResultState(macro, i), y, c) in Finalised(macro, rT)
    ensures 0 <= y.id < |macro| && y == ResultState(macro, y.id) && macro[y.id] == MacroStep(T, macro[i], c)
  {
    var u := Transition(ResultState(macro, i), y, c);
    var t :| t in rT && u == Transition(Marked(macro, t.source), Marked(macro, t.destination), t.symbol);
    assert DeltaSound(T, rT, macro);
    assert t.source.id == i;
  }

  /** When the macro step on `c` from macro-state `i` is not empty, the corrected result has a
      move on `c` from the state of macro-state `i`. */
  lemma FinalisedMoveExists(S: set<State>, T: set<Transition>, macro: seq<set<State>>,
                            rS: set<State>, rT: set<Transition>, i: int, c: char)
    requires SubsetConstruction(S, T, macro, rS, rT)
    requires 0 <= i < |macro| && c != Epsilon && MacroStep(T, macro[i], c) != {}
    ensures exists y :: Transition(ResultState(macro, i), y, c) in Finalised(macro, rT)
  {
    var st := StepOn(T, macro[i], c);
    if st == {} {
      ClosureOfNothing(EpsEdges(T));
      assert false;
    }
    var x :| x in st;
    var x0 :| x0 in macro[i] && Transition(x0, x, c) in T;
    assert c in Alphabet(T);
    assert Handled(T, rT, macro, i, c);
    var t :| t in rT && t.source.id == i && t.symbol == c;
    assert Marked(macro, t.source) == ResultState(macro, i);
    assert Transition(ResultState(macro, i), Marked(macro, t.destination), c) in Finalised(macro, rT);
  }

  /** Every move on `c` out of the state of macro-state `i` reaches the state of the
      macro-state that the macro step on `c` reaches. */
  lemma FinalisedStepTargets(S: set<State>, T: set<Transition>, macro: seq<set<State>>,
                             rS: set<State>, rT: set<Transition>, i: int, c: char)
    requires SubsetConstruction(S, T, macro, rS, rT)
    requires 0 <= i < |macro|
    ensures forall y :: y in StepOn(Finalised(macro, rT), {ResultState(macro, i)}, c) ==>
      0 <= y.id < |macro| && y == ResultState(macro, y.id) && macro[y.id] == MacroStep(T, macro[i], c)
  {
    forall y | y in StepOn(Finalised(macro, rT), {ResultState(macro, i)}, c)
      ensures 0 <= y.id < |macro| && y == ResultState(macro, y.id) && macro[y.id] == MacroStep(T, macro[i], c)
    {
      FinalisedMoveFollowsMacroStep(S, T, macro, rS, rT, i, c, y);
    }
  }

  /** The corrected result is deterministic too: no epsilon move, and at most one move per
      state and symbol. */
  lemma FinalisedIsDeterministic(S: set<State>, T: set<Transition>, macro: seq<set<State>>,
                                 rS: set<State>, rT: set<Transition>)
    requires SubsetConstruction(S, T, macro, rS, rT)
    ensures forall u :: u in Finalised(macro, rT) ==> u.symbol != Epsilon
    ensures forall u, u' ::
      u in Finalised(macro, rT) && u' in Finalised(macro, rT) && u.source == u'.source && u.symbol == u'.symbol
      ==> u == u'
  {
    var F := Finalised(macro, rT);
    FinalisedStart(S, T, macro, rS, rT);
    forall u, u' | u in F && u' in F && u.source == u'.source && u.symbol == u'.symbol
      ensures u == u'
    {
      FinalisedMovesAgree(S, T, macro, rS, rT, u, u');
    }
  }

  /** Two moves of the corrected result with the same source and symbol are the same move. */
  lemma FinalisedMovesAgree(S: set<State>, T: set<Transition>, macro: seq<set<State>>,
                            rS: set<State>, rT: set<Transition>, u: Transition, u': Transition)
    requires SubsetConstruction(S, T, macro, rS, rT)
    requires u in Finalised(macro, rT) && u' in Finalised(macro, rT)
    requires u.source == u'.source && u.symbol == u'.symbol
    ensures u == u'
  {
    var t :| t in rT && u == Transition(Marked(macro, t.source), Marked(macro, t.destination), t.symbol);
    var i := t.source.id;
    assert u.source == ResultState(macro, i);
    FinalisedMoveFollowsMacroStep(S, T, macro, rS, rT, i, u.symbol, u.destination);
    FinalisedMoveFollowsMacroStep(S, T, macro, rS, rT, i, u.symbol, u'.destination);
    assert macro[u.destination.id] == macro[u'.destination.id];
  }

  /** States of distinct macro-states that all stand for the same set are at most one. */
  lemma AtMostOneTarget(macro: seq<set<State>>, N: set<State>, R: set<State>)
    requires NoDuplicates(macro)
    requires forall y :: y in N ==> 0 <= y.id < |macro| && y == ResultState(macro, y.id) && macro[y.id] == R
    ensures N == {} || exists j :: 0 <= j < |macro| && macro[j] == R && N == {ResultState(macro, j)}
  {
    if N != {} {
      var y :| y in N;
      var j := y.id;
      forall z | z in N
        ensures z == y
      {
        assert macro[z.id] == macro[j];
      }
      assert N == {ResultState(macro, j)};
    }
  }

  /** One symbol from the result state of macro-state `i` leads nowhere or to the result state
      of the macro-state that the macro step reaches; it leads somewhere whenever the macro step
      is not empty. */
  lemma FinalisedStep(S: set<State>, T: set<Transition>, macro: seq<set<State>>,
                      rS: set<State>, rT: set<Transition>, i: int, c: char)
    requires SubsetConstruction(S, T, macro, rS, rT)
    requires 0 <= i < |macro| && c != Epsilon
    ensures var N := MacroStep(Finalised(macro, rT), {ResultState(macro, i)}, c);
      (N == {} || exists j :: 0 <= j < |macro| && macro[j] == MacroStep(T, macro[i], c) &&
                            N == {ResultState(macro, j)}) &&
      (MacroStep(T, macro[i], c) != {} ==> N != {})
  {
    var F := Finalised(macro, rT);
    var R := MacroStep(T, macro[i], c);
    FinalisedStart(S, T, macro, rS, rT);
    var N0 := StepOn(F, {ResultState(macro, i)}, c);
    ClosureWithoutEdges(N0);
    assert MacroStep(F, {ResultState(macro, i)}, c) == N0;
    FinalisedStepTargets(S, T, macro, rS, rT, i, c);
    AtMostOneTarget(macro, N0, R);
    if R != {} {
      FinalisedMoveExists(S, T, macro, rS, rT, i, c);
      var y :| Transition(ResultState(macro, i), y, c) in F;
      assert y in N0;
    }
  }

  /** Reading `w` from the result state of macro-state `i` meets only the result state of the
      macro-state reached by reading `w` from macro-state `i`, and meets it whenever that
      macro-state is not empty. */
  lemma {:induction false} FinalisedRun(S: set<State>, T: set<Transition>, macro: seq<set<State>>,
                                        rS: set<State>, rT: set<Transition>, i: int, w: string)
    requires SubsetConstruction(S, T, macro, rS, rT)
    requires 0 <= i < |macro| && NoBlank(w)
    ensures forall s :: s in Run(Finalised(macro, rT), {ResultState(macro, i)}, w) ==>
      0 <= s.id < |macro| && s == ResultState(macro, s.id) && macro[s.id] == Run(T, macro[i], w)
    ensures Run(T, macro[i], w) != {} ==> Run(Finalised(macro, rT), {ResultState(macro, i)}, w) != {}
    decreases |w|
  {
    if w != [] {
      var F := Finalised(macro, rT);
      var c, w' := w[0], w[1..];
      assert NoBlank(w');
      var N := MacroStep(F, {ResultState(macro, i)}, c);
      var R := MacroStep(T, macro[i], c);
      FinalisedStep(S, T, macro, rS, rT, i, c);
      assert Run(F, {ResultState(macro, i)}, w) == Run(F, N, w');
      assert Run(T, macro[i], w) == Run(T, R, w');
      if N == {} {
        RunFromNothing(F, w');
        RunFromNothing(T, w');
      } else {
        var j :| 0 <= j < |macro| && macro[j] == R && N == {ResultState(macro, j)};
        FinalisedRun(S, T, macro, rS, rT, j, w');
      }
    }
  }

  /** With its transitions between the final-flagged states, the determinised automaton
      accepts exactly the strings the original accepts, among those without the blank (the
      original reads a blank in the input along its epsilon moves; the result has none). */
  lemma DeterminisationPreservesLanguage(S: set<State>, T: set<Transition>, macro: seq<set<State>>,
                                         rS: set<State>, rT: set<Transition>, w: string)
    requires SubsetConstruction(S, T, macro, rS, rT)
    requires NoBlank(w)
    ensures Accepts(Finalised(macro, rT), rS, w) <==> Accepts(T, S, w)
  {
    var F := Finalised(macro, rT);
    FinalisedStart(S, T, macro, rS, rT);
    FinalisedRun(S, T, macro, rS, rT, 0, w);
    var X := Run(T, macro[0], w);
    if Accepts(F, rS, w) {
      var s :| s in Run(F, {ResultState(macro, 0)}, w) && s.final;
      assert HasFinal(macro[s.id]);
      var q :| q in X && q.final;
    }
    if Accepts(T, S, w) {
      var q :| q in X && q.final;
      var s :| s in Run(F, {ResultState(macro, 0)}, w);
      assert s.final;
    }
  }

  /** `DeterminisationPreservesLanguage`, for every string at once. */
  lemma SameLanguageWithoutBlank(S: set<State>, T: set<Transition>, macro: seq<set<State>>,
                                 rS: set<State>, rT: set<Transition>)
    requires SubsetConstruction(S, T, macro, rS, rT)
    ensures forall w :: NoBlank(w) ==> (Accepts(Finalised(macro, rT), rS, w) <==> Accepts(T, S, w))
  {
    forall w | NoBlank(w)
      ensures Accepts(Finalised(macro, rT), rS, w) <==> Accepts(T, S, w)
    {
      DeterminisationPreservesLanguage(S, T, macro, rS, rT, w);
    }
  }

  /** Every state is reachable from an initial state. */
  ghost predicate Trim(S: set<State>, T: set<Transition>) {
    forall s :: s in S ==> Reaches(AllEdges(T), Initials(S), s)
  }

  // ---------------------------------------------------------------------------------------
  // The pruning loop of `reach`, as written

  datatype IterationError = ConcurrentModification

  /** The transition has an end outside `keep`, so pruning drops it. */
  predicate Dropped(t: Transition, keep: set<State>) {
    t.source !in keep || t.destination !in keep
  }

  /** A transition dropped at position `i` of `order`, with more transitions after it. */
  predicate DroppedBeforeLast(order: seq<Transition>, keep: set<State>, i: int) {
    0 <= i < |order| - 1 && Dropped(order[i], keep)
  }

  /**
   * The pruning loop as the source writes it: it walks the transitions in the hash set's
   * iteration order `order` and removes each dropped one from the very set it is walking.
   * The set's iterator fails on the step after such a removal, so the walk fails unless the
   * only dropped transition is the last one visited. When it gets through, what is left is
   * the restriction to `keep`.
   */
  function PruneAsWritten(order: seq<Transition>, keep: set<State>): (r: Result<set<Transition>, IterationError>)
    ensures r.Failure? <==> exists i :: DroppedBeforeLast(order, keep, i)
    ensures r.Success? ==> r.value == Restrict((set t | t in order), keep)
    decreases |order|
  {
    if order == [] then Success({})
    else if Dropped(order[0], keep) then
      if |order| == 1 then Success({}) else assert DroppedBeforeLast(order, keep, 0); Failure(ConcurrentModification)
    else
      var rest := PruneAsWritten(order[1..], keep);
      assert forall i :: DroppedBeforeLast(order[1..], keep, i) <==> DroppedBeforeLast(order, keep, i + 1);
      assert forall i :: DroppedBeforeLast(order, keep, i) ==> DroppedBeforeLast(order[1..], keep, i - 1);
      assert (set t | t in order) == {order[0]} + (set t | t in order[1..]);
      if rest.Failure? then Failure(ConcurrentModification) else Success({order[0]} + rest.value)
  }

  /** An automaton on which `reach` fails as written: the initial state 0 loops on 'b', and
      the unreachable final state 1 moves to it on 'a'. Visiting the move out of state 1
      first makes the walk fail, while the intended result keeps the loop alone. */
  lemma PruneAsWrittenFails()
    ensures var q0, q1 := State(0, true, false), State(1, false, true);
      var drop, loop := Transition(q1, q0, 'a'), Transition(q0, q0, 'b');
      var keep := Closure(AllEdges({drop, loop}), Initials({q0, q1}));
      && keep == {q0}
      && PruneAsWritten([drop, loop], keep).Failure?
      && Restrict({drop, loop}, keep) == {loop}
  {
    var q0, q1 := State(0, true, false), State(1, false, true);
    var drop, loop := Transition(q1, q0, 'a'), Transition(q0, q0, 'b');
    var E := AllEdges({drop, loop});
    assert Initials({q0, q1}) == {q0};
    assert E == {(q1, q0), (q0, q0)};
    ReachesStart(E, {q0}, q0);
    forall x | Reaches(E, {q0}, x)
      ensures x == q0
    {
      ClosedHoldsReachable(E, {q0}, {q0}, x);
    }
    var keep := Closure(E, {q0});
    assert keep == {q0};
    assert DroppedBeforeLast([drop, loop], keep, 0);
  }

  /** Keeping only the states reachable from the initial ones, and the transitions between
      them, leaves every kept state reachable through the kept transitions. */
  lemma RestrictionToReachableIsTrim(T: set<Transition>, initialStates: set<State>, RS: set<State>)
    requires forall s :: s in initialStates ==> s.initial
    requires RS == Closure(AllEdges(T), initialStates)
    ensures Trim(RS, Restrict(T, RS))
  {
    var E := AllEdges(T);
    forall x | x in initialStates
      ensures x in RS
    {
      ReachesStart(E, initialStates, x);
    }
    forall x, y | x in RS && (x, y) in E
      ensures y in RS
    {
      ReachesStep(E, initialStates, x, y);
    }
    forall s | s in RS
      ensures Reaches(AllEdges(Restrict(T, RS)), Initials(RS), s)
    {
      ReachesWithinKept(T, initialStates, RS, s);
      var p :| IsPath(AllEdges(Restrict(T, RS)), p) && p[0] in initialStates && p[|p| - 1] == s;
      assert p[0] in Initials(RS);
    }
  }

  // ---------------------------------------------------------------------------------------

  class Automaton {
    const states: set<State>
    const transitions: set<Transition>
    var isDeterminized: bool
    var isMinimized: bool

    constructor (states: set<State>, transitions: set<Transition>)
      ensures this.states == states && this.transitions == transitions
      ensures !isDeterminized && !isMinimized
    {
      this.states := states;
      this.transitions := transitions;
      isDeterminized := false;
      isMinimized := false;
    }

    /** Structural equality: same states and same transitions (the flags do not count). */
    function Equals(other: Automaton?): (r: bool)
      ensures r <==> other != null && states == other.states && transitions == other.transitions
    {
      this == other || (other != null && states == other.states && transitions == other.transitions)
    }

    /** The epsilon closure of one state: a do-while loop that checks every state found so
        far once, adding its epsilon successors, until every state found has been checked. */
    method EpsClosureOf(state: State) returns (eps: set<State>)
      ensures eps == Closure(EpsEdges(transitions), {state})
    {
      var E := EpsEdges(transitions);
      ghost var U := {state} + Targets(E);
      eps := {state};
      var checked: set<State> := {};
      ReachesStart(E, {state}, state);
      while !(eps <= checked)
        invariant state in eps
        invariant checked <= eps <= U
        invariant forall x :: x in eps ==> Reaches(E, {state}, x)
        invariant forall x :: x in checked ==> Successors(E, x) <= eps
        decreases U - checked
      {
        ghost var unchecked :| unchecked in eps && unchecked !in checked;
        ghost var checked0, eps0 := checked, eps;
        var temp;
        checked, temp := CheckAll(E, eps, checked);
        forall y | y in temp
          ensures Reaches(E, {state}, y)
        {
          var x :| x in eps - checked0 && (x, y) in E;
          ReachesStep(E, {state}, x, y);
        }
        assert unchecked in checked;
        eps := eps + temp;
        forall x | x in checked
          ensures Successors(E, x) <= eps
        {
          if x !in checked0 {
            forall y | y in Successors(E, x)
              ensures y in temp
            {
              assert x in eps0 - checked0 && (x, y) in E;
            }
          }
        }
      }
      assert Closed(E, eps);
      forall x | Reaches(E, {state}, x)
        ensures x in eps
      {
        ClosedHoldsReachable(E, {state}, eps, x);
      }
    }

    /** One pass of the epsilon-closure loop: each state of `eps` not yet checked is checked
        and its epsilon successors are collected. */
    static method CheckAll(E: set<(State, State)>, eps: set<State>, checked: set<State>)
      returns (checked': set<State>, temp: set<State>)
      ensures checked' == checked + eps
      ensures temp == Image(E, eps - checked)
    {
      checked', temp := checked, {};
      var todo := eps;
      while todo != {}
        invariant todo <= eps
        invariant checked' == checked + (eps - todo)
        invariant temp == Image(E, (eps - todo) - checked)
        decreases todo
      {
        var s :| s in todo;
        assert Image(E, (eps - (todo - {s})) - checked)
            == Image(E, (eps - todo) - checked) + (if s in checked then {} else Successors(E, s));
        todo := todo - {s};
        if s !in checked' {
          checked' := checked' + {s};
          temp := temp + Successors(E, s);
        }
      }
      assert eps - todo == eps;
    }

    /** The epsilon closure of a set of states: the union of its members' closures. */
    method EpsClosureOfSet(st: set<State>) returns (eps: set<State>)
      ensures eps == Closure(EpsEdges(transitions), st)
    {
      var E := EpsEdges(transitions);
      eps := {};
      var todo := st;
      ClosureOfNothing(E);
      assert st - todo == {};
      while todo != {}
        invariant todo <= st
        invariant eps == Closure(E, st - todo)
        decreases todo
      {
        var s :| s in todo;
        var c := EpsClosureOf(s);
        ClosureOfUnion(E, st - todo, {s});
        assert st - (todo - {s}) == (st - todo) + {s};
        todo := todo - {s};
        eps := eps + c;
      }
    }

    /** The epsilon closure of the initial states. */
    method EpsClosure() returns (eps: set<State>)
      ensures eps == Closure(EpsEdges(transitions), Initials(states))
    {
      eps := EpsClosureOfSet(Initials(states));
    }

    /** Whether `str` is accepted: starting from the epsilon closure of the initial states,
        each character moves every current state along its transitions with that character,
        closing the destinations under epsilon moves; the string is accepted when a final
        state is current at the end. */
    method ValidateString(str: string) returns (accepted: bool)
      ensures accepted <==> Accepts(transitions, states, str)
    {
      var T := transitions;
      var E := EpsEdges(T);
      var currentStates := EpsClosureOfSet(Initials(states));
      ghost var start := currentStates;
      var i := 0;
      while i < |str|
        invariant 0 <= i <= |str|
        invariant Run(T, currentStates, str[i..]) == Run(T, start, str)
      {
        var c := str[i];
        var newCurr: set<State> := {};
        var todo := currentStates;
        ClosureOfNothing(E);
        assert currentStates - todo == {};
        assert StepOn(T, {}, c) == {};
        while todo != {}
          invariant todo <= currentStates
          invariant newCurr == MacroStep(T, currentStates - todo, c)
          decreases todo
        {
          var s :| s in todo;
          MacroStepOfUnion(T, currentStates - todo, {s}, c);
          assert currentStates - (todo - {s}) == (currentStates - todo) + {s};
          todo := todo - {s};
          var dest := StepOn(T, {s}, c);
          if dest != {} {
            dest := EpsClosureOfSet(dest);
            newCurr := newCurr + dest;
          }
        }
        assert currentStates - todo == currentStates;
        assert str[i..][0] == c && str[i..][1..] == str[i + 1..];
        currentStates := newCurr;
        i := i + 1;
      }
      accepted := exists s :: s in currentStates && s.final;
    }

    /** The automaton restricted to the states reachable from the initial states: a frontier
        search over all transitions, then the transitions with both ends kept. The result is
        trim: each of its states is reachable from its initial states through its own
        transitions. */
    method Reach() returns (r: Automaton)
      ensures fresh(r) && !r.isDeterminized && !r.isMinimized
      ensures r.states == Closure(AllEdges(transitions), Initials(states))
      ensures r.transitions == Restrict(transitions, r.states)
      ensures Trim(r.states, r.transitions)
    {
      var RS := ReachableStates(AllEdges(transitions), Initials(states));
      var tr := Restrict(transitions, RS);
      RestrictionToReachableIsTrim(transitions, Initials(states), RS);
      r := new Automaton(RS, tr);
    }

    /** The frontier search of `reach`: starting from `initialStates`, each round adds the
        successors of the last round's new states not yet reached, until none is new. It
        ends with exactly the states reachable from `initialStates`. */
    static method ReachableStates(E: set<(State, State)>, initialStates: set<State>) returns (RS: set<State>)
      ensures RS == Closure(E, initialStates)
    {
      RS := initialStates;
      var NS := initialStates;
      ghost var U := initialStates + Targets(E);
      forall x | x in RS
        ensures Reaches(E, initialStates, x)
      {
        ReachesStart(E, initialStates, x);
      }
      while NS != {}
        invariant NS <= RS <= U
        invariant initialStates <= RS
        invariant forall x :: x in RS ==> Reaches(E, initialStates, x)
        invariant forall x :: x in RS && x !in NS ==> Successors(E, x) <= RS
        decreases U - RS, |NS|
      {
        var T := Frontier(E, NS, RS);
        forall y | y in T
          ensures Reaches(E, initialStates, y)
        {
          var x :| x in NS && (x, y) in E;
          ReachesStep(E, initialStates, x, y);
        }
        NS := T;
        RS := RS + T;
      }
      assert Closed(E, RS);
      forall x | Reaches(E, initialStates, x)
        ensures x in RS
      {
        ClosedHoldsReachable(E, initialStates, RS, x);
      }
    }

    /** The successors of the frontier `NS` not yet reached. */
    static method Frontier(E: set<(State, State)>, NS: set<State>, RS: set<State>) returns (T: set<State>)
      ensures T == Image(E, NS) - RS
    {
      T := {};
      var todo := NS;
      while todo != {}
        invariant todo <= NS
        invariant T == Image(E, NS - todo) - RS
        decreases todo
      {
        var q :| q in todo;
        assert Image(E, NS - (todo - {q})) == Image(E, NS - todo) + Successors(E, q);
        todo := todo - {q};
        T := T + (Successors(E, q) - RS);
      }
      assert NS - todo == NS;
    }

    /** The automaton with every transition turned around and with initial and final flags
        exchanged; every new state gets id 0. */
    method Reverse() returns (r: Automaton)
      ensures fresh(r) && !r.isDeterminized && !r.isMinimized
      ensures r.transitions == Flipped(transitions)
      ensures forall s :: s in states ==> State(0, s.final, s.initial) in r.states
      ensures forall s :: s in r.states ==>
        s.id == 0 && exists s' :: s' in states && s'.initial == s.final && s'.final == s.initial
    {
      var tr := Flipped(transitions);
      var st := set s | s in states :: State(0, s.final, s.initial);
      r := new Automaton(st, tr);
    }

    /** The worklist loop of the subset construction: starting from the epsilon closure of the
        initial states, every macro-state is expanded on every symbol until no unmarked one is
        left; the macro-states found are distinct and every symbol of every one is handled. */
    method ExploreMacroStates() returns (detStates: seq<set<State>>, delta: set<Transition>)
      ensures |detStates| >= 1 && detStates[0] == Closure(EpsEdges(transitions), Initials(states))
      ensures NoDuplicates(detStates) && DeltaSound(transitions, delta, detStates)
      ensures forall i, c :: 0 <= i < |detStates| && c in Alphabet(transitions) ==>
        Handled(transitions, delta, detStates, i, c)
    {
      var T := transitions;
      delta := {};
      detStates := [];
      var dstates: set<State> := {};
      var marked: set<State> := {};
      var count := 0;
      var alphabet := set t | t in T && t.symbol != Epsilon :: t.symbol;
      assert alphabet == Alphabet(T);

      var start := EpsClosure();
      detStates := detStates + [start];
      dstates := dstates + {State(count, true, false)};
      count := count + 1;
      ghost var U := MacroUniverse();
      MacroStateBounded(states, start);
      assert dstates == DetStates(count);
      assert Explored(T, U, detStates, delta);

      ghost var Pow := set X | X <= U;
      while marked != dstates
        invariant count == |detStates| >= 1 && dstates == DetStates(count) && marked <= dstates
        invariant detStates[0] == Closure(EpsEdges(T), Initials(states))
        invariant Explored(T, U, detStates, delta)
        invariant forall i, c :: 0 <= i < |detStates| && DetState(i) in marked && c in alphabet ==>
          Handled(T, delta, detStates, i, c)
        invariant |marked| <= |Pow|
        decreases |Pow| - |marked|
      {
        detStates, delta, marked := MarkNext(U, Pow, alphabet, detStates, delta, marked);
        count := |detStates|;
        dstates := DetStates(count);
      }

      assert forall i :: 0 <= i < |detStates| ==> DetState(i) in marked;
    }

    /** One round of the worklist: an unmarked construction state is marked and its
        macro-state expanded on every symbol; the marked states stay within the possible
        macro-states. */
    method MarkNext(ghost U: set<State>, ghost Pow: set<set<State>>, alphabet: set<char>,
                    detStates: seq<set<State>>, delta: set<Transition>, marked: set<State>)
      returns (detStates': seq<set<State>>, delta': set<Transition>, marked': set<State>)
      requires alphabet == Alphabet(transitions) && U == MacroUniverse() && Pow == set X | X <= U
      requires marked <= DetStates(|detStates|) && marked != DetStates(|detStates|)
      requires Explored(transitions, U, detStates, delta)
      requires forall i, c :: 0 <= i < |detStates| && DetState(i) in marked && c in alphabet ==>
        Handled(transitions, delta, detStates, i, c)
      ensures Extends(detStates, detStates') && marked' <= DetStates(|detStates'|)
      ensures marked <= marked' && |marked'| == |marked| + 1 && |marked'| <= |Pow|
      ensures Explored(transitions, U, detStates', delta')
      ensures forall i, c :: 0 <= i < |detStates'| && DetState(i) in marked' && c in alphabet ==>
        Handled(transitions, delta', detStates', i, c)
    {
      var s :| s in DetStates(|detStates|) && s !in marked;
      marked' := marked + {s};
      detStates', delta' := ExpandMacroState(alphabet, s.id, detStates, delta);
      assert marked' == marked + {DetState(s.id)};
      HandledAfterExpansion(transitions, alphabet, delta, delta', detStates, detStates', marked, s.id);
      MarkedWithinPowerset(U, Pow, transitions, detStates', delta', marked');
    }

    /** The subset construction: unless already determinised, the result's states stand for
        the macro-states `macro` discovered from the epsilon closure of the initial states, as
        `SubsetConstruction` describes for the transitions `construction` between them; the
        result's transitions are those, redirected between the final-flagged states, so that
        it accepts the same strings without the blank as the receiver. */
    method Determinize() returns (r: Automaton, ghost macro: seq<set<State>>, ghost construction: set<Transition>)
      ensures isDeterminized ==> r == this
      ensures !isDeterminized ==> fresh(r) && r.isDeterminized && !r.isMinimized
      ensures !isDeterminized ==>
        SubsetConstruction(states, transitions, macro, r.states, construction) &&
        r.transitions == Finalised(macro, construction)
      ensures !isDeterminized ==> forall w :: NoBlank(w) ==>
        (Accepts(r.transitions, r.states, w) <==> Accepts(transitions, states, w))
    {
      if isDeterminized {
        return this, [], {};
      }
      var detStates, delta := ExploreMacroStates();
      var dstates := DetStates(|detStates|);
      var sts := set s | s in dstates :: if HasFinal(detStates[s.id]) then State(s.id, s.initial, true) else s;
      FinalStatesMarked(dstates, detStates, sts);
      assert SubsetConstruction(states, transitions, detStates, sts, delta);
      var finalised := set t | t in delta :: Transition(Marked(detStates, t.source), Marked(detStates, t.destination), t.symbol);
      r := new Automaton(sts, finalised);
      r.isDeterminized := true;
      macro, construction := detStates, delta;
      assert finalised == Finalised(macro, delta);
      SameLanguageWithoutBlank(states, transitions, macro, sts, delta);
    }

    /** Every state any macro-state can hold: the initial states and the destinations. */
    ghost function MacroUniverse(): set<State> {
      Initials(states) + Destinations(transitions)
    }

    lemma MacroStateBounded(S: set<State>, X: set<State>)
      requires S == states
      requires X == Closure(EpsEdges(transitions), Initials(S))
      ensures X <= MacroUniverse()
    {
      ReachesIsBounded(EpsEdges(transitions), Initials(S));
    }

    lemma MacroStepBounded(X: set<State>, c: char)
      ensures MacroStep(transitions, X, c) <= MacroUniverse()
    {
      var E := EpsEdges(transitions);
      ReachesIsBounded(E, StepOn(transitions, X, c));
    }

    /** Handles every symbol of the alphabet for macro-state `current`. Earlier macro-states
        are kept in place. */
    method ExpandMacroState(alphabet: set<char>, current: nat, detStates: seq<set<State>>,
                            delta: set<Transition>)
      returns (detStates': seq<set<State>>, delta': set<Transition>)
      requires alphabet == Alphabet(transitions)
      requires current < |detStates|
      requires Explored(transitions, MacroUniverse(), detStates, delta)
      ensures Explored(transitions, MacroUniverse(), detStates', delta')
      ensures Extends(detStates, detStates') && delta <= delta'
      ensures forall c :: c in alphabet ==> Handled(transitions, delta', detStates', current, c)
    {
      var T := transitions;
      detStates', delta' := detStates, delta;
      var todo := alphabet;
      while todo != {}
        invariant todo <= alphabet
        invariant Explored(T, MacroUniverse(), detStates', delta')
        invariant Extends(detStates, detStates') && delta <= delta'
        invariant forall c :: c in alphabet - todo ==> Handled(T, delta', detStates', current, c)
        decreases todo
      {
        var c :| c in todo;
        todo := todo - {c};
        ghost var beforeStates, beforeDelta := detStates', delta';
        detStates', delta' := HandleSymbol(c, current, detStates', delta');
        ExtendsIsTransitive(detStates, beforeStates, detStates');
        forall c' | c' in alphabet - todo
          ensures Handled(T, delta', detStates', current, c')
        {
          if c' != c {
            HandledPersists(T, beforeDelta, delta', beforeStates, detStates', current, c');
          }
        }
      }
    }

    /** One symbol for one macro-state: the epsilon closure of the macro-state's moves on `c`
        becomes a new macro-state when it is nonempty and new; when it is a macro-state, the
        transition on `c` to it is added. (The source and the destination are the states whose
        ids are the two positions; every id below the number of macro-states has one.) */
    method HandleSymbol(c: char, current: nat, detStates: seq<set<State>>, delta: set<Transition>)
      returns (detStates': seq<set<State>>, delta': set<Transition>)
      requires c != Epsilon && current < |detStates|
      requires Explored(transitions, MacroUniverse(), detStates, delta)
      ensures Explored(transitions, MacroUniverse(), detStates', delta')
      ensures Extends(detStates, detStates') && delta <= delta'
      ensures Handled(transitions, delta', detStates', current, c)
    {
      var T := transitions;
      var R := EpsClosureOfSet(StepOn(T, detStates[current], c));
      detStates' := detStates;
      if R !in detStates && R != {} {
        MacroStepBounded(detStates[current], c);
        detStates' := detStates + [R];
      }
      assert detStates'[..|detStates|] == detStates;
      var d := IndexOf(detStates', R);
      delta' := delta;
      if 0 <= d {
        var t := Transition(DetState(current), DetState(d), c);
        delta' := delta + {t};
        assert t.source.id == current && t.symbol == c;
      }
    }

    /** Brzozowski's construction: reverse, determinise, prune, and once more. Unless already
        minimised, the result is flagged minimised and determinised and, coming out of the
        final pruning, has no state unreachable from its initial states. */
    method Minimize() returns (r: Automaton)
      ensures isMinimized ==> r == this
      ensures !isMinimized ==> fresh(r) && r.isMinimized && r.isDeterminized
      ensures !isMinimized ==> Trim(r.states, r.transitions)
    {
      if isMinimized {
        return this;
      }
      var reversed := Reverse();
      var pruned := reversed.DeterminizeAndReach();
      var reversedAgain := pruned.Reverse();
      r := reversedAgain.DeterminizeAndReach();
      r.isMinimized := true;
      r.isDeterminized := true;
    }

    /** One half of Brzozowski's construction: determinise, then drop unreachable states. */
    method DeterminizeAndReach() returns (r: Automaton)
      requires !isDeterminized
      ensures fresh(r) && Trim(r.states, r.transitions)
    {
      var determinised, macro, construction := Determinize();
      r := determinised.Reach();
    }

    /** The "union" with `other`: the receiver itself when `other` is the same object;
        otherwise the receiver's states and transitions plus a fresh initial state with an
        epsilon move to each initial state of the receiver. Nothing of `other` is added. */
    method Union(other: Automaton) returns (r: Automaton)
      ensures other == this ==> r == this
      ensures other != this ==> fresh(r) && !r.isDeterminized && !r.isMinimized
      ensures other != this ==>
        r.states == states + {UnionStart} && r.transitions == UnionTransitions(states, transitions)
    {
      if this == other {
        return this;
      }
      var sts := states;
      var ts := transitions;
      var q0 := State(0, true, false);
      ts := ts + set s | s in sts && s.initial :: Transition(q0, s, Epsilon);
      sts := sts + {q0};
      r := new Automaton(sts, ts);
      r.isDeterminized := false;
      r.isMinimized := false;
    }

    /** The strings of length 1..`length` enumerated from the initial states: exactly the
        labels of the walks from an initial state that use up the whole length or stop where
        no transition leaves. */
    function LanguageAtMost(length: nat): (r: set<string>)
      ensures forall w :: w in r <==> exists q :: q in states && q.initial && Enumerated(transitions, q, w, length)
    {
      var lang := set q, w | q in states && q.initial && w in LanguageFrom(transitions, q, length) :: w;
      assert forall w :: w in lang <==> exists q :: q in states && q.initial && Enumerated(transitions, q, w, length) by {
        forall w
          ensures w in lang <==> exists q :: q in states && q.initial && Enumerated(transitions, q, w, length)
        {
          if w in lang {
            var q :| q in states && q.initial && w in LanguageFrom(transitions, q, length);
            LanguageFromIsExact(transitions, q, length, w);
          }
          if exists q :: q in states && q.initial && Enumerated(transitions, q, w, length) {
            var q :| q in states && q.initial && Enumerated(transitions, q, w, length);
            LanguageFromIsExact(transitions, q, length, w);
          }
        }
      }
      lang
    }
  }
}
