/** Graph diagnostics: a second reachability pass over the handlers, then one look at
    every state. */
module Diagnostics {
  import opened Wrappers
  import opened Scenario
  import opened Planner

  datatype Diagnostic =
    | UnreachableState(state: string)
    | TerminalState(state: string)
    | SelfTransition(state: string, handler: string)

  ghost function ReachableStates(d: Definition): set<string> {
    set s | s in StateNames(d) && Reachable(d, s)
  }

  function SelfTransitions(state: string, handlers: seq<Handler>): seq<Diagnostic> {
    if handlers == [] then [] else
      var last := handlers[|handlers| - 1];
      SelfTransitions(state, handlers[..|handlers| - 1])
      + if last.newState == Some(state) then [SelfTransition(state, last.name)] else []
  }

  predicate Terminal(handlers: seq<Handler>) {
    forall i | 0 <= i < |handlers| :: handlers[i].newState == None
  }

  function StateDiagnostics(s: State, reachable: set<string>): seq<Diagnostic> {
    (if s.name in reachable then [] else [UnreachableState(s.name)])
    + (if Terminal(s.handlers) then [TerminalState(s.name)] else [])
    + SelfTransitions(s.name, s.handlers)
  }

  function AllDiagnostics(states: seq<State>, reachable: set<string>): seq<Diagnostic> {
    if states == [] then [] else
      AllDiagnostics(states[..|states| - 1], reachable) + StateDiagnostics(states[|states| - 1], reachable)
  }

  // ------------------------------------------------------------------ reachability

  ghost predicate Closed(d: Definition, reachable: set<string>, state: string, n: nat)
    requires n <= |HandlersOf(d, state)|
  {
    forall i | 0 <= i < n && HandlersOf(d, state)[i].newState.Some? ::
      HandlersOf(d, state)[i].newState.value in reachable
  }

  ghost predicate Explored(d: Definition, reachable: set<string>, frontier: seq<string>) {
    forall s | s in reachable && s !in frontier :: Closed(d, reachable, s, |HandlersOf(d, s)|)
  }

  lemma {:induction false} ClosedUnderWalks(d: Definition, reachable: set<string>, walk: Path, target: string)
    requires d.initialState in reachable && Explored(d, reachable, []) && Walk(d, walk, target)
    ensures target in reachable
    decreases |walk|
  {
    if walk != [] {
      var last := walk[|walk| - 1];
      ClosedUnderWalks(d, reachable, walk[..|walk| - 1], last.state);
      assert Closed(d, reachable, last.state, |HandlersOf(d, last.state)|);
      var i :| 0 <= i < |HandlersOf(d, last.state)| && HandlersOf(d, last.state)[i] == last.handler;
      assert HandlersOf(d, last.state)[i].newState == Some(target);
    }
  }

  lemma HandlerReaches(d: Definition, state: string, h: Handler)
    requires Reachable(d, state) && h in HandlersOf(d, state) && h.newState.Some?
    ensures Reachable(d, h.newState.value)
  {
    var walk: Path :| Walk(d, walk, state);
    WalkSnoc(d, walk, h, state, h.newState.value);
  }

  /** The set grows only by reachable declared states; the frontier is part of it, and
      everything outside the frontier has all its targets in the set. */
  ghost predicate Exploring(d: Definition, reachable: set<string>, frontier: seq<string>) {
    && reachable <= StateNames(d)
    && (forall s | s in reachable :: Reachable(d, s))
    && (forall i | 0 <= i < |frontier| :: frontier[i] in reachable)
    && Explored(d, reachable, frontier)
  }

  lemma ExplorationIsReachability(d: Definition, reachable: set<string>)
    requires d.initialState in reachable && Exploring(d, reachable, [])
    ensures reachable == ReachableStates(d)
  {
    forall s | s in ReachableStates(d) ensures s in reachable {
      var walk: Path :| Walk(d, walk, s);
      ClosedUnderWalks(d, reachable, walk, s);
    }
  }

  lemma Found(d: Definition, reachable: set<string>, state: string, frontier: seq<string>, n: nat, target: string)
    requires WellFormed(d) && Exploring(d, reachable, [state] + frontier) && TargetsIn(d, reachable, state, n)
    requires n < |HandlersOf(d, state)| && HandlersOf(d, state)[n].newState == Some(target) && target !in reachable
    ensures Exploring(d, reachable + {target}, [state] + (frontier + [target]))
    ensures TargetsIn(d, reachable + {target}, state, n + 1)
    ensures target in StateNames(d)
  {
    hide HandlersOf, Walk, Reachable, WellFormed, StateNames;
    var more, h := reachable + {target}, HandlersOf(d, state)[n];
    assert ([state] + frontier)[0] == state;
    HandlerReaches(d, state, h);
    HandlerTargets(d, state, h);
    forall s | s in more && s !in [state] + (frontier + [target]) ensures Closed(d, more, s, |HandlersOf(d, s)|) {
      assert s !in [state] + frontier && Closed(d, reachable, s, |HandlersOf(d, s)|);
    }
    var queue := [state] + (frontier + [target]);
    assert forall i | 0 <= i < |queue| - 1 :: queue[i] == ([state] + frontier)[i];
  }

  ghost predicate TargetsIn(d: Definition, reachable: set<string>, state: string, n: nat) {
    n <= |HandlersOf(d, state)| && Closed(d, reachable, state, n)
  }

  lemma Left(d: Definition, reachable: set<string>, state: string, frontier: seq<string>)
    requires Exploring(d, reachable, [state] + frontier) && TargetsIn(d, reachable, state, |HandlersOf(d, state)|)
    ensures Exploring(d, reachable, frontier)
  {
    forall s | s in reachable && s !in frontier ensures Closed(d, reachable, s, |HandlersOf(d, s)|) {
      assert s == state || s !in [state] + frontier;
    }
    assert forall i | 0 <= i < |frontier| :: frontier[i] == ([state] + frontier)[i + 1];
  }

  lemma NothingClosed(d: Definition, reachable: set<string>, state: string)
    ensures TargetsIn(d, reachable, state, 0)
  {
  }

  lemma OneMoreClosed(d: Definition, reachable: set<string>, state: string, n: nat)
    requires n < |HandlersOf(d, state)| && TargetsIn(d, reachable, state, n)
    requires HandlersOf(d, state)[n].newState.Some? ==> HandlersOf(d, state)[n].newState.value in reachable
    ensures TargetsIn(d, reachable, state, n + 1)
  {
  }

  ghost function Unvisited(d: Definition, reachable: set<string>, frontier: seq<string>): nat {
    |StateNames(d) - reachable| + |frontier|
  }

  /** Adds the new targets of one state to the set and to the end of the frontier. */
  method Visit(d: Definition, reachable: set<string>, frontier: seq<string>, state: string)
    returns (more: set<string>, queue: seq<string>)
    requires WellFormed(d) && Exploring(d, reachable, [state] + frontier)
    ensures reachable <= more && Exploring(d, more, queue)
    ensures Unvisited(d, more, queue) == Unvisited(d, reachable, frontier)
  {
    hide WellFormed, HandlersOf, Exploring, TargetsIn, StateNames;
    more, queue := reachable, frontier;
    var handlers := HandlersOf(d, state);
    NothingClosed(d, reachable, state);
    for i := 0 to |handlers|
      invariant reachable <= more && Exploring(d, more, [state] + queue) && TargetsIn(d, more, state, i)
      invariant Unvisited(d, more, queue) == Unvisited(d, reachable, frontier)
    {
      var target := handlers[i].newState;
      if target.Some? && target.value !in more {
        Found(d, more, state, queue, i, target.value);
        assert StateNames(d) - more == (StateNames(d) - (more + {target.value})) + {target.value};
        more := more + {target.value};
        queue := queue + [target.value];
      } else {
        OneMoreClosed(d, more, state, i);
      }
    }
    Left(d, more, state, queue);
  }

  method ReachableSet(d: Definition) returns (reachable: set<string>)
    requires WellFormed(d)
    ensures reachable == ReachableStates(d)
  {
    hide WellFormed, Exploring, StateNames, ReachableStates, Unvisited;
    reachable := {d.initialState};
    var frontier := [d.initialState];
    StartExploring(d);
    while frontier != []
      invariant d.initialState in reachable && Exploring(d, reachable, frontier)
      decreases Unvisited(d, reachable, frontier)
    {
      var state := frontier[0];
      assert frontier == [state] + frontier[1..];
      Popped(d, reachable, frontier);
      reachable, frontier := Visit(d, reachable, frontier[1..], state);
    }
    ExplorationIsReachability(d, reachable);
  }

  lemma Popped(d: Definition, reachable: set<string>, frontier: seq<string>)
    requires frontier != []
    ensures Unvisited(d, reachable, frontier[1..]) < Unvisited(d, reachable, frontier)
  {
  }

  lemma StartExploring(d: Definition)
    requires WellFormed(d)
    ensures Exploring(d, {d.initialState}, [d.initialState])
  {
    assert Walk(d, [], d.initialState);
  }

  // ---------------------------------------------------------------- the diagnostics

  method DiagnoseState(diagnostics: seq<Diagnostic>, s: State, reachable: set<string>) returns (more: seq<Diagnostic>)
    ensures more == diagnostics + StateDiagnostics(s, reachable)
  {
    hide SelfTransitions, Terminal;
    more := diagnostics;
    if s.name !in reachable {
      more := more + [UnreachableState(s.name)];
    }
    var transitions := TransitionsOf(s);
    if transitions == [] {
      more := more + [TerminalState(s.name)];
    }
    var loops := SelfLoops(s.name, transitions);
    more := more + loops;
  }

  /** Self transitions, handler by handler. */
  lemma SelfTransitionsOf(state: string, handlers: seq<Handler>)
    ensures SelfTransitions(state, handlers[..0]) == []
    ensures forall i | 0 <= i < |handlers| ::
      SelfTransitions(state, handlers[..i + 1])
        == SelfTransitions(state, handlers[..i])
           + if handlers[i].newState == Some(state) then [SelfTransition(state, handlers[i].name)] else []
  {
    forall i | 0 <= i < |handlers|
      ensures SelfTransitions(state, handlers[..i + 1])
        == SelfTransitions(state, handlers[..i])
           + if handlers[i].newState == Some(state) then [SelfTransition(state, handlers[i].name)] else []
    {
      assert handlers[..i + 1][..i] == handlers[..i];
    }
  }

  method SelfLoops(state: string, transitions: seq<Handler>) returns (loops: seq<Diagnostic>)
    ensures loops == SelfTransitions(state, transitions)
  {
    loops := [];
    SelfTransitionsOf(state, transitions);
    hide SelfTransitions;
    for i := 0 to |transitions|
      invariant loops == SelfTransitions(state, transitions[..i])
    {
      if transitions[i].newState == Some(state) {
        loops := loops + [SelfTransition(state, transitions[i].name)];
      }
    }
    assert transitions[..|transitions|] == transitions;
  }

  /** The handlers that move to some state. */
  method TransitionsOf(s: State) returns (transitions: seq<Handler>)
    ensures transitions == [] <==> Terminal(s.handlers)
    ensures SelfTransitions(s.name, transitions) == SelfTransitions(s.name, s.handlers)
  {
    transitions := [];
    for i := 0 to |s.handlers|
      invariant transitions == [] <==> Terminal(s.handlers[..i])
      invariant SelfTransitions(s.name, transitions) == SelfTransitions(s.name, s.handlers[..i])
    {
      assert s.handlers[..i + 1] == s.handlers[..i] + [s.handlers[i]];
      if s.handlers[i].newState.Some? {
        transitions := transitions + [s.handlers[i]];
      }
    }
    assert s.handlers[..|s.handlers|] == s.handlers;
  }

  method ScenarioGraphDiagnostics(d: Definition) returns (diagnostics: seq<Diagnostic>)
    requires WellFormed(d)
    ensures diagnostics == AllDiagnostics(d.states, ReachableStates(d))
  {
    var reachable := ReachableSet(d);
    hide ReachableStates, WellFormed, StateDiagnostics;
    diagnostics := [];
    for k := 0 to |d.states|
      invariant diagnostics == AllDiagnostics(d.states[..k], reachable)
    {
      assert d.states[..k + 1][..k] == d.states[..k];
      diagnostics := DiagnoseState(diagnostics, d.states[k], reachable);
    }
    assert d.states[..|d.states|] == d.states;
  }

  lemma {:induction false} SelfTransitionsKind(state: string, handlers: seq<Handler>)
    ensures forall x | x in SelfTransitions(state, handlers) :: x.SelfTransition?
    decreases |handlers|
  {
    if handlers != [] {
      SelfTransitionsKind(state, handlers[..|handlers| - 1]);
    }
  }

  lemma FlaggedInState(s: State, reachable: set<string>, name: string)
    ensures UnreachableState(name) in StateDiagnostics(s, reachable) <==> name == s.name && name !in reachable
  {
    hide SelfTransitions;
    SelfTransitionsKind(s.name, s.handlers);
  }

  /** A state is flagged unreachable exactly when it is declared and no walk reaches it. */
  lemma {:induction false} FlaggedUnreachable(states: seq<State>, reachable: set<string>, name: string)
    ensures UnreachableState(name) in AllDiagnostics(states, reachable)
      <==> name !in reachable && exists i | 0 <= i < |states| :: states[i].name == name
    decreases |states|
  {
    hide StateDiagnostics;
    if states != [] {
      var front, last := states[..|states| - 1], states[|states| - 1];
      FlaggedUnreachable(front, reachable, name);
      FlaggedInState(last, reachable, name);
      if i :| 0 <= i < |states| && states[i].name == name && i < |front| {
        assert front[i].name == name;
      }
      if i :| 0 <= i < |front| && front[i].name == name {
        assert states[i].name == name;
      }
    }
  }
}
