/** Simulations that share no scenario name cannot observe one another. */
module Isolation {
  import opened Wrappers
  import opened Json
  import opened Text
  import opened RuntimeModel
  import opened RuntimeStore
  import opened RuntimeSemantics
  import opened Compiler
  import opened Profiles

  datatype Operation =
    | DeployAll(simulation: string, mappings: seq<RuntimeMapping>)
    | DeployOne(simulation: string, mappings: seq<RuntimeMapping>, name: string, initial: string)
    | Call(simulation: string, request: Request)
    | Reset(simulation: string)

  datatype Outcome = Done | Answered(response: Response) | NotDeployed

  function Perform(re: FullMatch, limit: nat, st: Store, op: Operation): (Store, Outcome) {
    match op
    case DeployAll(sim, mappings) => (Deploy(st, sim, mappings, false), Done)
    case DeployOne(sim, mappings, name, initial) => (DeployScenario(st, sim, mappings, name, initial), Done)
    case Reset(sim) => (ResetRuntime(st, Some(sim)), Done)
    case Call(sim, request) =>
      match Execute(re, limit, st, sim, request)
      case None => (st, NotDeployed)
      case Some((after, response)) => (after, Answered(response))
  }

  function Run(re: FullMatch, limit: nat, ops: seq<Operation>): (result: (Store, seq<Outcome>))
    ensures |result.1| == |ops|
  {
    if ops == [] then (EmptyStore, []) else
      var (before, outcomes) := Run(re, limit, ops[..|ops| - 1]);
      var (after, outcome) := Perform(re, limit, before, ops[|ops| - 1]);
      (after, outcomes + [outcome])
  }

  function Only(ops: seq<Operation>, sim: string): seq<Operation> {
    if ops == [] then [] else
      var front, last := Only(ops[..|ops| - 1], sim), ops[|ops| - 1];
      if last.simulation == sim then front + [last] else front
  }

  function OutcomesOf(ops: seq<Operation>, outcomes: seq<Outcome>, sim: string): seq<Outcome>
    requires |ops| == |outcomes|
  {
    if ops == [] then [] else
      var front := OutcomesOf(ops[..|ops| - 1], outcomes[..|ops| - 1], sim);
      if ops[|ops| - 1].simulation == sim then front + [outcomes[|ops| - 1]] else front
  }

  // ------------------------------------------------------------------- ownership

  /** Every scenario name belongs to one simulation. */
  type Owners = string -> string

  predicate OwnsMapping(owner: Owners, sim: string, m: RuntimeMapping) {
    m.scenarioName.Some? ==> owner(m.scenarioName.value) == sim
  }

  predicate OwnsMappings(owner: Owners, sim: string, mappings: seq<RuntimeMapping>) {
    forall i | 0 <= i < |mappings| :: OwnsMapping(owner, sim, mappings[i])
  }

  /** An operation names scenarios of its own simulation only; a scenario deployment
      brings mappings of that scenario. */
  predicate Owned(owner: Owners, op: Operation) {
    match op
    case DeployAll(sim, mappings) => OwnsMappings(owner, sim, mappings)
    case DeployOne(sim, mappings, name, initial) =>
      owner(name) == sim && forall i | 0 <= i < |mappings| :: mappings[i].scenarioName == Some(name)
    case Call(_, _) => true
    case Reset(_) => true
  }

  /** Stored mappings and states belong to their owners, and the scenario of every
      stored mapping is registered. */
  ghost predicate Invariant(st: Store, owner: Owners) {
    && (forall name | name in st.states :: st.states[name].simulation == owner(name))
    && (forall sim :: OwnsMappings(owner, sim, MappingsOf(st, sim)))
    && (forall sim :: Registered(st.states, MappingsOf(st, sim)))
  }

  predicate Registered(states: map<string, Ownership>, mappings: seq<RuntimeMapping>) {
    forall i | 0 <= i < |mappings| && mappings[i].scenarioName.Some? :: mappings[i].scenarioName.value in states
  }

  ghost predicate AlikeFor(a: map<string, Ownership>, b: map<string, Ownership>, owner: Owners, sim: string) {
    forall name | owner(name) == sim :: (name in a <==> name in b) && (name in a ==> a[name] == b[name])
  }

  /** What one simulation can observe of a store is the same in both. */
  ghost predicate SameFor(a: Store, b: Store, owner: Owners, sim: string) {
    && MappingsOf(a, sim) == MappingsOf(b, sim)
    && AlikeFor(a.states, b.states, owner, sim)
    && EventsOf(a, Some(sim)) == EventsOf(b, Some(sim))
  }

  // ------------------------------------------------------------ registering names

  lemma {:induction false} EnsureAllStates(st: Store, sim: string, mappings: seq<RuntimeMapping>, owner: Owners)
    requires OwnsMappings(owner, sim, mappings)
    requires forall name | name in st.states :: st.states[name].simulation == owner(name)
    ensures var after := EnsureAll(st, sim, mappings);
      && after.mappings == st.mappings && after.events == st.events
      && st.states.Keys <= after.states.Keys
      && (forall name | name in st.states :: after.states[name] == st.states[name])
      && (forall name | name in after.states && name !in st.states :: owner(name) == sim)
      && (forall name | name in after.states :: after.states[name].simulation == owner(name))
      && Registered(after.states, mappings)
    decreases |mappings|
  {
    if mappings != [] {
      EnsureAllStates(st, sim, mappings[..|mappings| - 1], owner);
      assert OwnsMapping(owner, sim, mappings[|mappings| - 1]);
    }
  }

  lemma {:induction false} EnsureAllAlike(a: Store, b: Store, sim: string, mappings: seq<RuntimeMapping>, owner: Owners)
    requires OwnsMappings(owner, sim, mappings) && AlikeFor(a.states, b.states, owner, sim)
    ensures AlikeFor(EnsureAll(a, sim, mappings).states, EnsureAll(b, sim, mappings).states, owner, sim)
    decreases |mappings|
  {
    if mappings != [] {
      EnsureAllAlike(a, b, sim, mappings[..|mappings| - 1], owner);
      assert OwnsMapping(owner, sim, mappings[|mappings| - 1]);
    }
  }

  // ------------------------------------------------------------------- selection

  lemma {:induction false} BestAlike(re: FullMatch, a: map<string, Ownership>, b: map<string, Ownership>, owner: Owners,
                                     sim: string, mappings: seq<RuntimeMapping>, req: Request)
    requires OwnsMappings(owner, sim, mappings) && AlikeFor(a, b, owner, sim)
    ensures Best(re, a, mappings, req) == Best(re, b, mappings, req)
    decreases |mappings|
  {
    hide RequestMatches;
    if mappings != [] {
      BestAlike(re, a, b, owner, sim, mappings[..|mappings| - 1], req);
      assert OwnsMapping(owner, sim, mappings[|mappings| - 1]);
    }
  }

  // --------------------------------------------------------------- the invariant

  lemma TransitionKeepsInvariant(st: Store, owner: Owners, sim: string, selected: Option<RuntimeMapping>)
    requires Invariant(st, owner)
    requires selected.Some? && selected.value.scenarioName.Some? ==> selected.value.scenarioName.value in st.states
    ensures Transition(st, selected).Some? && Invariant(Transition(st, selected).value, owner)
  {
    var moved := Transition(st, selected).value;
    forall s ensures OwnsMappings(owner, s, MappingsOf(moved, s)) && Registered(moved.states, MappingsOf(moved, s)) {
      assert OwnsMappings(owner, s, MappingsOf(st, s)) && Registered(st.states, MappingsOf(st, s));
      assert MappingsOf(moved, s) == MappingsOf(st, s);
    }
  }

  lemma RequestKeepsInvariant(re: FullMatch, limit: nat, st: Store, owner: Owners, sim: string, req: Request)
    requires Invariant(st, owner)
    ensures Execute(re, limit, st, sim, req).Some?
    ensures Invariant(Execute(re, limit, st, sim, req).value.0, owner)
  {
    ExecuteOutcome(re, limit, st, sim, req);
    var selected := Select(re, st, sim, req);
    TransitionKeepsInvariant(st, owner, sim, selected);
    hide Execute, Select, Transition;
    InvariantIgnoresEvents(Transition(st, selected).value, Execute(re, limit, st, sim, req).value.0, owner);
  }

  lemma InvariantIgnoresEvents(a: Store, b: Store, owner: Owners)
    requires Invariant(a, owner) && a.mappings == b.mappings && a.states == b.states
    ensures Invariant(b, owner)
  {
    assert forall sim :: MappingsOf(a, sim) == MappingsOf(b, sim);
  }

  /** Replacing one simulation's mappings by owned and registered ones. */
  lemma PutKeepsInvariant(st: Store, after: Store, owner: Owners, sim: string)
    requires Invariant(st, owner)
    requires forall name | name in after.states :: after.states[name].simulation == owner(name)
    requires st.states.Keys <= after.states.Keys
    requires forall s | s != sim :: MappingsOf(after, s) == MappingsOf(st, s)
    requires OwnsMappings(owner, sim, MappingsOf(after, sim)) && Registered(after.states, MappingsOf(after, sim))
    ensures Invariant(after, owner)
  {
    forall s ensures OwnsMappings(owner, s, MappingsOf(after, s)) && Registered(after.states, MappingsOf(after, s)) {
      if s != sim {
        assert OwnsMappings(owner, s, MappingsOf(st, s)) && Registered(st.states, MappingsOf(st, s));
      }
    }
  }

  lemma DeployKeepsInvariant(st: Store, owner: Owners, sim: string, mappings: seq<RuntimeMapping>)
    requires Invariant(st, owner) && OwnsMappings(owner, sim, mappings)
    ensures Invariant(Deploy(st, sim, mappings, false), owner)
  {
    var put := ReplaceMappings(st, sim, mappings);
    EnsureAllStates(put, sim, mappings, owner);
    hide EnsureAll, Invariant, OwnsMappings, Registered;
    PutKeepsInvariant(st, Deploy(st, sim, mappings, false), owner, sim);
  }

  lemma DeployOneKeepsInvariant(st: Store, owner: Owners, op: Operation)
    requires Invariant(st, owner) && op.DeployOne? && Owned(owner, op)
    ensures Invariant(DeployScenario(st, op.simulation, op.mappings, op.name, op.initial), owner)
  {
    var after := DeployScenario(st, op.simulation, op.mappings, op.name, op.initial);
    var retained := Drop(MappingsOf(st, op.simulation), InScenario(op.name));
    DropMembers(MappingsOf(st, op.simulation), InScenario(op.name));
    assert OwnsMappings(owner, op.simulation, MappingsOf(st, op.simulation));
    assert Registered(st.states, MappingsOf(st, op.simulation));
    var all := retained + op.mappings;
    forall i | 0 <= i < |all|
      ensures OwnsMapping(owner, op.simulation, all[i])
      ensures all[i].scenarioName.Some? ==> all[i].scenarioName.value in after.states
    {
      if i < |retained| {
        assert retained[i] in retained;
      }
    }
    PutKeepsInvariant(st, after, owner, op.simulation);
  }

  lemma ResetKeepsInvariant(st: Store, owner: Owners, sim: string)
    requires Invariant(st, owner)
    ensures Invariant(ResetRuntime(st, Some(sim)), owner)
  {
    var after := ResetRuntime(st, Some(sim));
    forall s ensures OwnsMappings(owner, s, MappingsOf(after, s)) && Registered(after.states, MappingsOf(after, s)) {
      assert OwnsMappings(owner, s, MappingsOf(st, s)) && Registered(st.states, MappingsOf(st, s));
      assert MappingsOf(after, s) == MappingsOf(st, s);
    }
  }

  lemma PerformKeepsInvariant(re: FullMatch, limit: nat, st: Store, owner: Owners, op: Operation)
    requires Invariant(st, owner) && Owned(owner, op)
    ensures Invariant(Perform(re, limit, st, op).0, owner)
    ensures Perform(re, limit, st, op).1 != NotDeployed
  {
    hide Execute, Invariant, OwnsMappings, Deploy, DeployScenario, ResetRuntime;
    match op
    case DeployAll(sim, mappings) =>
      DeployKeepsInvariant(st, owner, sim, mappings);
    case DeployOne(_, _, _, _) => DeployOneKeepsInvariant(st, owner, op);
    case Call(sim, request) => RequestKeepsInvariant(re, limit, st, owner, sim, request);
    case Reset(sim) => ResetKeepsInvariant(st, owner, sim);
  }

  // ------------------------------------------ what one simulation does to another

  lemma OtherDeploys(st: Store, owner: Owners, op: Operation, sim: string)
    requires Invariant(st, owner) && Owned(owner, op) && op.simulation != sim && op.DeployAll?
    ensures SameFor(Deploy(st, op.simulation, op.mappings, false), st, owner, sim)
  {
    EnsureAllStates(ReplaceMappings(st, op.simulation, op.mappings), op.simulation, op.mappings, owner);
    hide EnsureAll, OwnsMappings, Invariant, Registered;
  }

  lemma OtherDeploysOne(st: Store, owner: Owners, op: Operation, sim: string)
    requires Invariant(st, owner) && Owned(owner, op) && op.simulation != sim && op.DeployOne?
    ensures SameFor(DeployScenario(st, op.simulation, op.mappings, op.name, op.initial), st, owner, sim)
  {
    hide OwnsMappings, Invariant, Registered, Drop;
  }

  lemma OtherRequests(re: FullMatch, limit: nat, st: Store, owner: Owners, other: string, req: Request, sim: string)
    requires Invariant(st, owner) && other != sim && Execute(re, limit, st, other, req).Some?
    ensures SameFor(Execute(re, limit, st, other, req).value.0, st, owner, sim)
  {
    hide Execute, Trim, Keep;
    ExecuteOutcome(re, limit, st, other, req);
    OtherEvent(st.events, EventFor(other, req, Select(re, st, other, req)), limit, other, sim);
    hide Select, OwnsMappings, Invariant, Registered;
  }

  lemma OtherResets(st: Store, owner: Owners, other: string, sim: string)
    requires Invariant(st, owner) && other != sim
    ensures SameFor(ResetRuntime(st, Some(other)), st, owner, sim)
  {
    DropSparesOthers(st.events, RuntimeStore.Owned(other), RuntimeStore.Owned(sim));
    hide Invariant, Drop, Keep;
  }

  lemma OtherUnaffected(re: FullMatch, limit: nat, st: Store, owner: Owners, op: Operation, sim: string)
    requires Invariant(st, owner) && Owned(owner, op) && op.simulation != sim
    ensures SameFor(Perform(re, limit, st, op).0, st, owner, sim)
  {
    hide Execute, Deploy, DeployScenario, ResetRuntime, Invariant, Owned;
    match op
    case DeployAll(_, _) => OtherDeploys(st, owner, op, sim);
    case DeployOne(_, _, _, _) => OtherDeploysOne(st, owner, op, sim);
    case Call(other, request) =>
      if Execute(re, limit, st, other, request).Some? {
        OtherRequests(re, limit, st, owner, other, request, sim);
      }
    case Reset(other) => OtherResets(st, owner, other, sim);
  }

  lemma OtherEvent(events: seq<Event>, event: Event, limit: nat, other: string, sim: string)
    requires event.simulationId == other && other != sim
    ensures Keep(Trim(events + [event], RuntimeStore.Owned(other), limit), RuntimeStore.Owned(sim))
      == Keep(events, RuntimeStore.Owned(sim))
  {
    hide Trim, Keep;
    Snoc(events, event, RuntimeStore.Owned(sim));
    TrimSparesOthers(events + [event], RuntimeStore.Owned(other), limit, RuntimeStore.Owned(sim));
  }

  // -------------------------------------- a simulation sees only what is its own

  lemma OwnEvent(xs: seq<Event>, ys: seq<Event>, event: Event, limit: nat, sim: string)
    requires Keep(xs, RuntimeStore.Owned(sim)) == Keep(ys, RuntimeStore.Owned(sim))
    ensures Keep(Trim(xs + [event], RuntimeStore.Owned(sim), limit), RuntimeStore.Owned(sim))
      == Keep(Trim(ys + [event], RuntimeStore.Owned(sim), limit), RuntimeStore.Owned(sim))
  {
    hide Trim, Keep;
    Snoc(xs, event, RuntimeStore.Owned(sim));
    Snoc(ys, event, RuntimeStore.Owned(sim));
    TrimKeepsLast(xs + [event], RuntimeStore.Owned(sim), limit);
    TrimKeepsLast(ys + [event], RuntimeStore.Owned(sim), limit);
  }

  lemma RequestAlike(re: FullMatch, limit: nat, a: Store, b: Store, owner: Owners, sim: string, req: Request)
    requires Invariant(a, owner) && Invariant(b, owner) && SameFor(a, b, owner, sim)
    ensures var x, y := Execute(re, limit, a, sim, req), Execute(re, limit, b, sim, req);
      && x.Some? && y.Some?
      && x.value.1 == y.value.1
      && SameFor(x.value.0, y.value.0, owner, sim)
  {
    hide Execute, Best, Trim, Keep, Reply;
    RequestKeepsInvariant(re, limit, a, owner, sim, req);
    RequestKeepsInvariant(re, limit, b, owner, sim, req);
    assert OwnsMappings(owner, sim, MappingsOf(a, sim));
    hide Invariant, OwnsMappings;
    BestAlike(re, a.states, b.states, owner, sim, MappingsOf(a, sim), req);
    ExecuteOutcome(re, limit, a, sim, req);
    ExecuteOutcome(re, limit, b, sim, req);
    OwnEvent(a.events, b.events, EventFor(sim, req, Select(re, a, sim, req)), limit, sim);
  }

  lemma DeployAlike(a: Store, b: Store, owner: Owners, op: Operation)
    requires Invariant(a, owner) && Invariant(b, owner) && Owned(owner, op) && SameFor(a, b, owner, op.simulation)
    requires op.DeployAll?
    ensures SameFor(Deploy(a, op.simulation, op.mappings, false), Deploy(b, op.simulation, op.mappings, false),
                    owner, op.simulation)
  {
    var sim := op.simulation;
    var x, y := ReplaceMappings(a, sim, op.mappings), ReplaceMappings(b, sim, op.mappings);
    EnsureAllAlike(x, y, sim, op.mappings, owner);
    EnsureAllStates(x, sim, op.mappings, owner);
    EnsureAllStates(y, sim, op.mappings, owner);
    hide EnsureAll, OwnsMappings, Invariant, Registered;
  }

  lemma DeployOneAlike(a: Store, b: Store, owner: Owners, op: Operation)
    requires op.DeployOne? && Owned(owner, op) && SameFor(a, b, owner, op.simulation)
    requires Invariant(a, owner) && Invariant(b, owner)
    ensures SameFor(DeployScenario(a, op.simulation, op.mappings, op.name, op.initial),
                    DeployScenario(b, op.simulation, op.mappings, op.name, op.initial), owner, op.simulation)
  {
    hide Invariant, Drop, Keep;
  }

  lemma ResetAlike(a: Store, b: Store, owner: Owners, sim: string)
    requires Invariant(a, owner) && Invariant(b, owner) && SameFor(a, b, owner, sim)
    ensures SameFor(ResetRuntime(a, Some(sim)), ResetRuntime(b, Some(sim)), owner, sim)
  {
    DropRemoves(a.events, RuntimeStore.Owned(sim));
    DropRemoves(b.events, RuntimeStore.Owned(sim));
    hide Invariant, Drop, Keep;
  }

  lemma OwnMovesAlike(re: FullMatch, limit: nat, a: Store, b: Store, owner: Owners, op: Operation)
    requires Invariant(a, owner) && Invariant(b, owner) && Owned(owner, op) && SameFor(a, b, owner, op.simulation)
    ensures SameFor(Perform(re, limit, a, op).0, Perform(re, limit, b, op).0, owner, op.simulation)
    ensures Perform(re, limit, a, op).1 == Perform(re, limit, b, op).1
  {
    hide Execute, Deploy, DeployScenario, ResetRuntime, SameFor, Invariant, Owned;
    match op
    case DeployAll(_, _) => DeployAlike(a, b, owner, op);
    case DeployOne(_, _, _, _) => DeployOneAlike(a, b, owner, op);
    case Call(sim, request) => RequestAlike(re, limit, a, b, owner, sim, request);
    case Reset(sim) => ResetAlike(a, b, owner, sim);
  }

  // ------------------------------------------------------------------ the theorem

  lemma SameForTransitive(a: Store, b: Store, c: Store, owner: Owners, sim: string)
    requires SameFor(a, b, owner, sim) && SameFor(b, c, owner, sim)
    ensures SameFor(a, c, owner, sim)
  {
  }

  lemma EmptyInvariant(owner: Owners, sim: string)
    ensures Invariant(EmptyStore, owner) && SameFor(EmptyStore, EmptyStore, owner, sim)
  {
  }

  /** Any interleaving, seen by one simulation, is that simulation's run alone: the same
      outcomes, mappings, scenario states and journal; and no request ever fails with
      "not deployed". */
  lemma {:induction false} InterleavingIsIsolated(re: FullMatch, limit: nat, ops: seq<Operation>, owner: Owners,
                                                  sim: string)
    requires forall i | 0 <= i < |ops| :: Owned(owner, ops[i])
    ensures var (all, outcomes) := Run(re, limit, ops);
      var (alone, own) := Run(re, limit, Only(ops, sim));
      && Invariant(all, owner) && Invariant(alone, owner)
      && SameFor(all, alone, owner, sim)
      && |outcomes| == |ops| && OutcomesOf(ops, outcomes, sim) == own
      && forall i | 0 <= i < |ops| :: outcomes[i] != NotDeployed
    decreases |ops|
  {
    hide Perform, Invariant, SameFor, Owned;
    EmptyInvariant(owner, sim);
    if ops != [] {
      var front, last := ops[..|ops| - 1], ops[|ops| - 1];
      InterleavingIsIsolated(re, limit, front, owner, sim);
      var (all, outcomes) := Run(re, limit, front);
      var (alone, own) := Run(re, limit, Only(front, sim));
      PerformKeepsInvariant(re, limit, all, owner, last);
      assert Run(re, limit, ops).1[..|front|] == outcomes;
      if last.simulation == sim {
        PerformKeepsInvariant(re, limit, alone, owner, last);
        OwnMovesAlike(re, limit, all, alone, owner, last);
        assert Only(ops, sim)[..|Only(ops, sim)| - 1] == Only(front, sim);
      } else {
        OtherUnaffected(re, limit, all, owner, last, sim);
        SameForTransitive(Perform(re, limit, all, last).0, all, alone, owner, sim);
      }
    }
  }

  /** The names the compiler and the intermittent profile generate are never shared. */
  lemma GeneratedNamesAreOwned(sim: string, scenario: string, otherSim: string, otherScenario: string)
    requires ':' !in sim && ':' !in otherSim && sim != otherSim
    ensures ScenarioName(sim, scenario) != ScenarioName(otherSim, otherScenario)
    ensures IntermittentName(sim) != IntermittentName(otherSim)
    ensures ScenarioName(sim, scenario) != IntermittentName(otherSim)
  {
    if ScenarioName(sim, scenario) == ScenarioName(otherSim, otherScenario) {
      ScenarioNameInjective(sim, scenario, otherSim, otherScenario);
    }
    assert IntermittentName(sim)[|"SimuLoom intermittent - "|..] == sim;
    assert IntermittentName(otherSim)[|"SimuLoom intermittent - "|..] == otherSim;
    assert ScenarioName(sim, scenario)[8] == ':' && IntermittentName(otherSim)[8] == ' ';
  }
}
