/** The runtime behind the service: what the service takes to be running is what the store
    holds, compiled mappings and states, through every run of operations, requests and
    resets. */
module RuntimeRefinement {
  import opened Wrappers
  import opened RuntimeModel
  import opened RuntimeStore
  import opened Scenario
  import opened Compiler
  import opened CompilerCorrectness
  import opened Fleet
  import opened SimulationRun
  import opened Sorting
  import opened GovernanceInvariant
  import Clock
  import Revisions
  import RevisionRuns
  import opened RuntimeResets
  import G = Governance
  import RuntimeSemantics

  type Running = map<string, G.Running>

  /** The store runs exactly these scenarios, behind other mappings, in these states. */
  ghost predicate Shows(sim: string, others: seq<RuntimeMapping>, fleet: seq<Member>, st: Store, running: Running) {
    && FleetDeployed(st, sim, others, fleet, []) && OwnsNames(st, sim)
    && (forall id :: id in running <==> Named(fleet, id))
    && forall k | 0 <= k < |fleet| :: ShowsOne(sim, fleet[k], st, running)
  }

  ghost predicate Named(fleet: seq<Member>, id: string) { exists k :: 0 <= k < |fleet| && fleet[k].scenario == id }

  ghost predicate ShowsOne(sim: string, m: Member, st: Store, running: Running) {
    m.scenario in running && running[m.scenario] == G.Running(m.definition, StateOf(st.states, sim, m))
  }

  /** The generated names of a simulation are its own. */
  ghost predicate OwnsNames(st: Store, sim: string) {
    forall id | ScenarioName(sim, id) in st.states :: st.states[ScenarioName(sim, id)].simulation == sim
  }

  // ------------------------------------------------------------- the service's calls

  /** The service sets the state it wants a scenario in. */
  function Sync(sim: string, st: Store, running: Running, id: string): Store {
    if id in running then SetState(st, ScenarioName(sim, id), running[id].state).GetOr(st) else st
  }

  function Publishing(env: G.Env, sim: string, st: Store, w: G.World, ids: seq<string>, topic: string): Store {
    if ids == [] then st else
      var front, last := ids[..|ids| - 1], ids[|ids| - 1];
      var (before, outcome) := G.Published(env, w, front, topic);
      var now := Publishing(env, sim, st, w, front, topic);
      if outcome != G.Completed then now else Sync(sim, now, G.EventSeen(env, before, last, topic).0.running, last)
  }

  function ResettingEach(env: G.Env, sim: string, st: Store, w: G.World, ids: seq<string>): Store {
    if ids == [] then st else
      Sync(sim, ResettingEach(env, sim, st, w, ids[..|ids| - 1]), G.ResetEach(env, w, ids).running, ids[|ids| - 1])
  }

  // --------------------------------------------------------------- one state at a time

  lemma FleetNames(sim: string, others: seq<RuntimeMapping>, fleet: seq<Member>, st: Store)
    requires FleetDeployed(st, sim, others, fleet, [])
    ensures NamesDistinct(fleet)
    ensures forall k | 0 <= k < |fleet| :: ScenarioName(sim, fleet[k].scenario) in st.states
  {
    forall k | 0 <= k < |fleet| ensures ScenarioName(sim, fleet[k].scenario) in st.states {
      assert MemberSound(st, sim, fleet[k]);
    }
  }

  lemma SetStateOwns(st: Store, sim: string, name: string, state: string)
    requires OwnsNames(st, sim)
    ensures OwnsNames(SetState(st, name, state).GetOr(st), sim)
  {
    hide ScenarioName;
  }

  lemma ShownStates(sim: string, others: seq<RuntimeMapping>, fleet: seq<Member>, st: Store, running: Running, k: nat)
    requires Shows(sim, others, fleet, st, running) && k < |fleet|
    ensures fleet[k].scenario in running
    ensures running[fleet[k].scenario] == G.Running(fleet[k].definition, States(st, sim, fleet)[k])
  {
    assert ShowsOne(sim, fleet[k], st, running);
  }

  /** What is shown after the machine of scenario k moved and the others did not. */
  lemma MovedOneShows(sim: string, others: seq<RuntimeMapping>, fleet: seq<Member>, st: Store, running: Running,
                      now: Store, k: nat, x: string)
    requires Shows(sim, others, fleet, st, running) && k < |fleet|
    requires FleetDeployed(now, sim, others, fleet, []) && OwnsNames(now, sim)
    requires States(now, sim, fleet) == States(st, sim, fleet)[k := x]
    ensures var id := fleet[k].scenario;
      id in running && Shows(sim, others, fleet, now, running[id := running[id].(state := x)])
  {
    hide FleetDeployed, OwnsNames, States, StateOf;
    FleetNames(sim, others, fleet, st);
    ShownStates(sim, others, fleet, st, running, k);
    var id := fleet[k].scenario;
    var after := running[id := running[id].(state := x)];
    forall j: nat | j < |fleet| ensures ShowsOne(sim, fleet[j], now, after) {
      ShownStates(sim, others, fleet, st, running, j);
      StatesAt(now, sim, fleet, j);
    }
  }

  /** Setting the state of a running scenario shows the change. */
  lemma MoveShows(sim: string, others: seq<RuntimeMapping>, fleet: seq<Member>, st: Store, running: Running, k: nat,
                  x: string)
    requires Shows(sim, others, fleet, st, running) && k < |fleet| && x != ""
    ensures var id := fleet[k].scenario;
      var now := SetState(st, ScenarioName(sim, id), x);
      && now.Some? && id in running
      && Shows(sim, others, fleet, now.value, running[id := running[id].(state := x)])
  {
    SetStateMoves(st, sim, others, fleet, [], k, x);
    SetStateOwns(st, sim, ScenarioName(sim, fleet[k].scenario), x);
    hide FleetDeployed, OwnsNames, States, ShowsOne, SetState, ScenarioName;
    MovedOneShows(sim, others, fleet, st, running, SetState(st, ScenarioName(sim, fleet[k].scenario), x).value, k, x);
  }

  ghost predicate StateMoved(running: Running, after: Running, id: string) {
    after == running || (id in running && exists x: string :: MovedTo(running, after, id, x))
  }

  predicate MovedTo(running: Running, after: Running, id: string, x: string)
    requires id in running
  {
    x != "" && after == running[id := running[id].(state := x)]
  }

  lemma SyncShows(sim: string, others: seq<RuntimeMapping>, fleet: seq<Member>, st: Store, running: Running, id: string,
                  after: Running)
    requires Shows(sim, others, fleet, st, running) && StateMoved(running, after, id)
    ensures Shows(sim, others, fleet, Sync(sim, st, after, id), after)
  {
    hide FleetDeployed, OwnsNames, ShowsOne, SetState, ScenarioName, States;
    if id in running {
      var k: nat :| k < |fleet| && fleet[k].scenario == id;
      ShownStates(sim, others, fleet, st, running, k);
      ShownNonEmpty(sim, others, fleet, st, running, k);
      MoveShows(sim, others, fleet, st, running, k, after[id].state);
      assert after == running[id := running[id].(state := after[id].state)];
    }
  }

  lemma ShownNonEmpty(sim: string, others: seq<RuntimeMapping>, fleet: seq<Member>, st: Store, running: Running, k: nat)
    requires Shows(sim, others, fleet, st, running) && k < |fleet|
    ensures fleet[k].scenario in running && running[fleet[k].scenario].state != ""
  {
    assert ShowsOne(sim, fleet[k], st, running);
    StateNonEmpty(st, sim, others, fleet, [], k);
  }

  // ------------------------------------------------- deployments, resets and requests

  lemma DeployOwns(st: Store, sim: string, mappings: seq<RuntimeMapping>, name: string, initial: string)
    requires OwnsNames(st, sim)
    ensures OwnsNames(RuntimeSemantics.DeployScenario(st, sim, mappings, name, initial), sim)
  {
    hide ScenarioName, Drop;
  }

  lemma DeployShows(sim: string, others: seq<RuntimeMapping>, fleet: seq<Member>, st: Store, running: Running,
                    m: Member)
    requires Shows(sim, others, fleet, st, running) && WellFormed(m.definition) && NoClashes(m.definition.states)
    ensures var name := ScenarioName(sim, m.scenario);
      var after := RuntimeSemantics.DeployScenario(st, sim, RuntimeMappings(sim, m.scenario, m.definition), name,
        m.definition.initialState);
      Shows(sim, Drop(others, RuntimeSemantics.InScenario(name)), Without(fleet, m.scenario) + [m], after,
        running[m.scenario := G.Running(m.definition, m.definition.initialState)])
  {
    hide OwnsNames, StateOf, Drop, Without, WellFormed, NoClashes, RuntimeMappings, FleetDeployed, ScenarioName,
      RuntimeSemantics.DeployScenario, SameState;
    var name := ScenarioName(sim, m.scenario);
    var after := RuntimeSemantics.DeployScenario(st, sim, RuntimeMappings(sim, m.scenario, m.definition), name,
      m.definition.initialState);
    var joined := Without(fleet, m.scenario) + [m];
    var now := running[m.scenario := G.Running(m.definition, m.definition.initialState)];
    DeploymentJoins(st, sim, others, fleet, m);
    DeployOwns(st, sim, RuntimeMappings(sim, m.scenario, m.definition), name, m.definition.initialState);
    WithoutMembers(fleet, m.scenario);
    forall k | 0 <= k < |joined| ensures ShowsOne(sim, joined[k], after, now) {
      if k < |joined| - 1 {
        WithoutMember(fleet, m.scenario, k);
        var j: nat :| j < |fleet| && fleet[j] == joined[k];
        assert ShowsOne(sim, fleet[j], st, running);
        NamesDiffer(sim, joined[k].scenario, m.scenario);
        FleetNames(sim, others, fleet, st);
        SameStateOf(st, after, sim, joined[k]);
      }
    }
    forall id ensures id in now <==> Named(joined, id) {
      JoinedNames(fleet, m, id);
    }
  }

  lemma SameStateOf(st: Store, after: Store, sim: string, m: Member)
    requires SameState(st, after, ScenarioName(sim, m.scenario))
    ensures StateOf(after.states, sim, m) == StateOf(st.states, sim, m)
  {
  }

  lemma JoinedNames(fleet: seq<Member>, m: Member, id: string)
    ensures Named(Without(fleet, m.scenario) + [m], id) <==> id == m.scenario || Named(fleet, id)
  {
    WithoutMembers(fleet, m.scenario);
    hide Without;
    var rest := Without(fleet, m.scenario);
    var joined := rest + [m];
    assert joined[|rest|].scenario == m.scenario;
    if Named(joined, id) && id != m.scenario {
      var k :| 0 <= k < |joined| && joined[k].scenario == id;
      assert rest[k] in rest;
      var j :| 0 <= j < |fleet| && fleet[j] == rest[k];
    }
    if Named(fleet, id) && id != m.scenario {
      var k :| 0 <= k < |fleet| && fleet[k].scenario == id;
      assert fleet[k] in rest;
      var j :| 0 <= j < |rest| && rest[j] == fleet[k];
      assert joined[j].scenario == id;
    }
  }

  lemma ResetOwns(st: Store, sim: string)
    requires OwnsNames(st, sim)
    ensures OwnsNames(RuntimeSemantics.ResetRuntime(st, Some(sim)), sim)
  {
    hide ScenarioName, Drop;
  }

  lemma ResetShows(sim: string, others: seq<RuntimeMapping>, fleet: seq<Member>, st: Store, w: G.World)
    requires Shows(sim, others, fleet, st, w.running)
    ensures Shows(sim, others, fleet, RuntimeSemantics.ResetRuntime(st, Some(sim)), G.Restarted(w).running)
  {
    hide FleetDeployed, OwnsNames, RuntimeSemantics.ResetRuntime, StateOf;
    var now := RuntimeSemantics.ResetRuntime(st, Some(sim));
    ResetKeepsFleet(st, sim, others, fleet, []);
    ResetOwns(st, sim);
    FleetNames(sim, others, fleet, st);
    forall k | 0 <= k < |fleet| ensures ShowsOne(sim, fleet[k], now, G.Restarted(w).running) {
      assert ShowsOne(sim, fleet[k], st, w.running);
      RestartedState(st, sim, fleet[k]);
    }
  }

  lemma RestartedState(st: Store, sim: string, m: Member)
    requires OwnsNames(st, sim) && ScenarioName(sim, m.scenario) in st.states
    ensures StateOf(RuntimeSemantics.ResetRuntime(st, Some(sim)).states, sim, m) == "Started"
  {
    hide Drop;
  }

  /** The scenario that takes a request, if one does. */
  function Taker(re: RuntimeSemantics.FullMatch, sim: string, others: seq<RuntimeMapping>, fleet: seq<Member>,
                 st: Store, req: Request): (k: Option<nat>)
    ensures k.Some? ==> k.value < |fleet|
  {
    if Preempted(re, st.states, others, [], req) then None else FirstReady(st.states, sim, fleet, req)
  }

  /** The world after a request: its taker steps. */
  function Requested(re: RuntimeSemantics.FullMatch, sim: string, others: seq<RuntimeMapping>, fleet: seq<Member>,
                     st: Store, w: G.World, req: Request): G.World {
    match Taker(re, sim, others, fleet, st, req)
    case None => w
    case Some(k) => G.Requesting(w, fleet[k].scenario, req)
  }

  lemma ExecuteOwns(re: RuntimeSemantics.FullMatch, limit: nat, st: Store, sim: string, req: Request)
    requires OwnsNames(st, sim) && RuntimeSemantics.Execute(re, limit, st, sim, req).Some?
    ensures OwnsNames(RuntimeSemantics.Execute(re, limit, st, sim, req).value.0, sim)
  {
    RuntimeSemantics.ExecuteOutcome(re, limit, st, sim, req);
    hide ScenarioName, RuntimeSemantics.Execute, RuntimeSemantics.Select;
  }

  lemma RequestShows(re: RuntimeSemantics.FullMatch, limit: nat, sim: string, others: seq<RuntimeMapping>,
                     fleet: seq<Member>, st: Store, w: G.World, req: Request)
    requires Shows(sim, others, fleet, st, w.running)
    ensures var result := RuntimeSemantics.Execute(re, limit, st, sim, req);
      result.Some?
      && Shows(sim, others, fleet, result.value.0, Requested(re, sim, others, fleet, st, w, req).running)
  {
    hide FleetDeployed, OwnsNames, RuntimeSemantics.Execute, Preempted, FirstReady, States, StepAll, StateOf,
      Scenario.Step, RuntimeSemantics.BestMapping;
    ExecuteSimulatesFleet(re, limit, st, sim, others, fleet, [], req);
    StepAllIs(st, sim, fleet, req);
    var now := RuntimeSemantics.Execute(re, limit, st, sim, req).value.0;
    ExecuteOwns(re, limit, st, sim, req);
    match Taker(re, sim, others, fleet, st, req)
    case Some(k) =>
      ShownStates(sim, others, fleet, st, w.running, k);
      StatesAt(st, sim, fleet, k);
      MovedOneShows(sim, others, fleet, st, w.running, now, k,
        Scenario.Step(fleet[k].definition, StateOf(st.states, sim, fleet[k]), req).0);
    case None =>
      NothingMovedShows(sim, others, fleet, st, w.running, now);
  }

  lemma NothingMovedShows(sim: string, others: seq<RuntimeMapping>, fleet: seq<Member>, st: Store, running: Running,
                          now: Store)
    requires Shows(sim, others, fleet, st, running)
    requires FleetDeployed(now, sim, others, fleet, []) && OwnsNames(now, sim)
    requires States(now, sim, fleet) == States(st, sim, fleet)
    ensures Shows(sim, others, fleet, now, running)
  {
    hide FleetDeployed, OwnsNames, States, StateOf;
    forall j: nat | j < |fleet| ensures ShowsOne(sim, fleet[j], now, running) {
      ShownStates(sim, others, fleet, st, running, j);
      StatesAt(now, sim, fleet, j);
    }
  }

  // ------------------------------------------------------------------ whole runs

  /** What the service keeps, what the runtime holds, and the scenarios deployed in it. */
  datatype System = System(world: G.World, store: Store, others: seq<RuntimeMapping>, fleet: seq<Member>)

  datatype Act =
    | Service(command: G.Command)
    | Request(request: RuntimeModel.Request)
    | Reset

  ghost predicate Sound(env: G.Env, sim: string, s: System) {
    NearGoverned(env, s.world) && Shows(sim, s.others, s.fleet, s.store, s.world.running)
  }

  /** A definition that fits the contract asks for no header in two spellings. */
  ghost predicate Plain(env: G.Env) { forall d | env.fits(d) :: NoClashes(d.states) }

  /** After a deployment the scenario's mappings come last. */
  function Deployed(sim: string, s: System, id: string, after: G.World, outcome: G.Outcome): System {
    if outcome.Deployed? && id in after.running then
      var name, d := ScenarioName(sim, id), after.running[id].definition;
      System(
        after,
        RuntimeSemantics.DeployScenario(s.store, sim, RuntimeMappings(sim, id, d), name, d.initialState),
        Drop(s.others, RuntimeSemantics.InScenario(name)),
        Without(s.fleet, id) + [Member(id, d)])
    else s.(world := after)
  }

  /** One thing that happens; calls of single scenarios are requests here. */
  function Happens(env: G.Env, re: RuntimeSemantics.FullMatch, limit: nat, sim: string, s: System, a: Act): System {
    match a
    case Reset => s.(world := G.Restarted(s.world), store := RuntimeSemantics.ResetRuntime(s.store, Some(sim)))
    case Request(req) =>
      s.(world := Requested(re, sim, s.others, s.fleet, s.store, s.world, req),
         store := match RuntimeSemantics.Execute(re, limit, s.store, sim, req)
           case None => s.store
           case Some(executed) => executed.0)
    case Service(c) =>
      var after := G.Execute(env, s.world, c);
      match c
      case DeployScenario(id, actor, revision) =>
        var (w, outcome) := G.DeployedScenario(env, s.world, id, actor, revision, None);
        Deployed(sim, s, id, w, outcome)
      case Rollback(id, number, actor) =>
        var (w, outcome) := G.RolledBack(env, s.world, id, number, actor);
        Deployed(sim, s, id, w, outcome)
      case ResetScenario(id) => s.(world := after, store := Sync(sim, s.store, after.running, id))
      case AdvanceClock(id, _) => s.(world := after, store := Sync(sim, s.store, after.running, id))
      case PublishEvent(ids, topic) =>
        s.(world := after, store := Publishing(env, sim, s.store, s.world, ids, topic))
      case ResetAllScenarios =>
        var ids := SortedTexts(s.world.files.scenarios.Keys);
        s.(world := after,
           store := ResettingEach(env, sim, RuntimeSemantics.ResetRuntime(s.store, Some(sim)), G.Restarted(s.world),
             ids))
      case Call(_, _) => s
      case _ => s.(world := after)
  }

  function HappenAll(env: G.Env, re: RuntimeSemantics.FullMatch, limit: nat, sim: string, s: System, acts: seq<Act>)
    : System
  {
    if acts == [] then s else
      Happens(env, re, limit, sim, HappenAll(env, re, limit, sim, s, acts[..|acts| - 1]), acts[|acts| - 1])
  }

  // -------------------------------------------------- what each operation sets

  lemma MovedIs(w: G.World, id: string, x: string)
    requires id in w.running && x != ""
    ensures StateMoved(w.running, G.Moved(w, id, x).running, id)
  {
    assert MovedTo(w.running, G.Moved(w, id, x).running, id, x);
  }

  lemma ResetMoves(env: G.Env, w: G.World, id: string)
    requires NearGoverned(env, w)
    ensures StateMoved(w.running, G.ResetTo(env, w, id).0.running, id)
  {
    hide NearGoverned, G.Seen, G.Governing, WellFormed, ResetState, G.Moved, StateNames, StateMoved;
    StaysSame(w.running, id);
    if id in w.files.scenarios {
      SeenNear(env, w, id);
      if id in w.running {
        var d := w.running[id].definition;
        InitialDeclared(d);
        DeclaredNamed(d, ResetState(d));
        MovedIs(G.Seen(env, w, id), id, ResetState(d));
      }
    }
  }

  lemma StaysSame(running: Running, id: string)
    ensures StateMoved(running, running, id)
  {
  }

  lemma ClockMoves(env: G.Env, w: G.World, id: string, ms: nat)
    requires NearGoverned(env, w)
    ensures StateMoved(w.running, G.ClockAdvanced(env, w, id, ms).0.running, id)
  {
    hide NearGoverned, G.Seen, G.Governing, WellFormed, G.Moved, Clock.TimeoutWalk, StateNames, StateMoved;
    StaysSame(w.running, id);
    if id in w.files.scenarios {
      SeenNear(env, w, id);
      var seen := G.Seen(env, w, id);
      if id in w.running {
        var d, state := w.running[id].definition, w.running[id].state;
        var available := G.ElapsedIn(seen, id, state) + ms;
        if StateIndex(d.states, state).Some? {
          Clock.WalkDeclared(d, state, available);
          IndexDeclared(d, state);
          var walk := Clock.TimeoutWalk(d, state, available).0;
          DeclaredNamed(d, Clock.Last(state, walk));
          MovedIs(seen, id, Clock.Last(state, walk));
        }
      }
    }
  }

  lemma EventMoves(env: G.Env, w: G.World, id: string, topic: string)
    requires NearGoverned(env, w)
    ensures StateMoved(w.running, G.EventSeen(env, w, id, topic).0.running, id)
  {
    hide NearGoverned, G.Seen, G.Governing, WellFormed, G.Moved, G.EventTarget, StateNames, StateMoved;
    StaysSame(w.running, id);
    if id in w.files.scenarios {
      SeenNear(env, w, id);
      if id in w.running {
        var d := w.running[id].definition;
        var i := StateIndex(d.states, w.running[id].state);
        if i.Some? && G.EventTarget(d.states[i.value].eventTransitions, topic).Some? {
          var target := G.EventTarget(d.states[i.value].eventTransitions, topic).value;
          EventTargetDeclared(d, i.value, topic);
          DeclaredNamed(d, target);
          MovedIs(G.Seen(env, w, id), id, target);
        }
      }
    }
  }

  lemma {:induction false} PublishShows(env: G.Env, sim: string, s: System, ids: seq<string>, topic: string)
    requires Sound(env, sim, s)
    ensures Shows(sim, s.others, s.fleet, Publishing(env, sim, s.store, s.world, ids, topic),
      G.Published(env, s.world, ids, topic).0.running)
    decreases |ids|
  {
    hide NearGoverned, Shows, G.EventSeen, Sync, StateMoved;
    if ids != [] {
      var front, last := ids[..|ids| - 1], ids[|ids| - 1];
      PublishShows(env, sim, s, front, topic);
      PublishNear(env, s.world, front, topic);
      var (before, outcome) := G.Published(env, s.world, front, topic);
      if outcome == G.Completed {
        EventMoves(env, before, last, topic);
        SyncShows(sim, s.others, s.fleet, Publishing(env, sim, s.store, s.world, front, topic), before.running, last,
          G.EventSeen(env, before, last, topic).0.running);
      }
    }
  }

  lemma ResetOneMoves(env: G.Env, w: G.World, id: string)
    requires Governed(env, AtStart(w))
    ensures StateMoved(w.running, G.ResetOne(env, w, id).running, id)
  {
    InitialsNear(env, w);
    ResetOneStep(env, w, id);
    hide Governed, AtStart, G.ResetOne, WellFormed, StateNames, ResetState;
    if id in w.running {
      var d := w.running[id].definition;
      InitialDeclared(d);
      DeclaredNamed(d, ResetState(d));
      if id in w.files.scenarios {
        assert MovedTo(w.running, G.ResetOne(env, w, id).running, id, ResetState(d));
      }
    }
  }

  lemma {:induction false} ResetEachShows(env: G.Env, sim: string, others: seq<RuntimeMapping>, fleet: seq<Member>,
                                          st: Store, w: G.World, ids: seq<string>)
    requires Governed(env, AtStart(w)) && Shows(sim, others, fleet, st, w.running)
    requires forall id | id in ids :: id in w.files.scenarios
    ensures Shows(sim, others, fleet, ResettingEach(env, sim, st, w, ids), G.ResetEach(env, w, ids).running)
    decreases |ids|
  {
    hide Governed, AtStart, Shows, G.ResetOne, Sync, StateMoved, ResetState;
    if ids != [] {
      var front, last := ids[..|ids| - 1], ids[|ids| - 1];
      ResetEachShows(env, sim, others, fleet, st, w, front);
      ResetEachStep(env, w, front);
      ResetOneMoves(env, G.ResetEach(env, w, front), last);
      SyncShows(sim, others, fleet, ResettingEach(env, sim, st, w, front), G.ResetEach(env, w, front).running, last,
        G.ResetEach(env, w, ids).running);
    }
  }

  lemma AllResetShows(env: G.Env, sim: string, s: System)
    requires Sound(env, sim, s)
    ensures var ids := SortedTexts(s.world.files.scenarios.Keys);
      Shows(sim, s.others, s.fleet,
        ResettingEach(env, sim, RuntimeSemantics.ResetRuntime(s.store, Some(sim)), G.Restarted(s.world), ids),
        G.AllReset(env, s.world).running)
  {
    SortedTextsMembers(s.world.files.scenarios.Keys);
    RestartNear(env, s.world);
    hide Shows, Governed, AtStart, G.ResetEach, NearDeclared, SortedTexts, RuntimeSemantics.ResetRuntime;
    ResetShows(sim, s.others, s.fleet, s.store, s.world);
    ResetEachShows(env, sim, s.others, s.fleet, RuntimeSemantics.ResetRuntime(s.store, Some(sim)), G.Restarted(s.world),
      SortedTexts(s.world.files.scenarios.Keys));
  }

  // -------------------------------------------------------------------- deployments

  lemma DeployedRuns(env: G.Env, w: G.World, id: string, actor: string, revision: nat, source: Option<nat>)
    ensures var (after, outcome) := G.DeployedScenario(env, w, id, actor, revision, source);
      if outcome.Deployed? then
        && id in after.running && env.fits(after.running[id].definition)
        && after.running
             == w.running[id := G.Running(after.running[id].definition, after.running[id].definition.initialState)]
      else after.running == w.running
  {
    hide G.Seen, G.Blocked, G.NextRelease;
    SeenAtStart(env, w, id);
  }

  lemma RollbackRuns(env: G.Env, w: G.World, id: string, number: nat, actor: string)
    ensures var (after, outcome) := G.RolledBack(env, w, id, number, actor);
      if outcome.Deployed? then
        && id in after.running && env.fits(after.running[id].definition)
        && after.running
             == w.running[id := G.Running(after.running[id].definition, after.running[id].definition.initialState)]
      else after.running == w.running
  {
    hide G.Seen, G.DeployedScenario;
    SeenAtStart(env, w, id);
    if id in w.files.scenarios && 1 <= number <= |G.ReleasesOf(w, id)| {
      DeployedRuns(env, G.Seen(env, w, id), id, actor, G.ReleasesOf(w, id)[number - 1].revision, Some(number));
    }
  }

  lemma DeployedSound(env: G.Env, sim: string, s: System, id: string, after: G.World, outcome: G.Outcome)
    requires Sound(env, sim, s) && Plain(env) && NearGoverned(env, after)
    requires
      if outcome.Deployed? then
        && id in after.running && env.fits(after.running[id].definition)
        && var d := after.running[id].definition;
           after.running == s.world.running[id := G.Running(d, d.initialState)]
      else after.running == s.world.running
    ensures Sound(env, sim, Deployed(sim, s, id, after, outcome))
  {
    InitialsNear(env, after);
    hide NearGoverned, Shows, WellFormed, NoClashes, RuntimeMappings, Drop, Without, RuntimeSemantics.DeployScenario,
      ScenarioName;
    if outcome.Deployed? {
      DeployShows(sim, s.others, s.fleet, s.store, s.world.running, Member(id, after.running[id].definition));
    }
  }

  lemma RequestSound(env: G.Env, re: RuntimeSemantics.FullMatch, limit: nat, sim: string, s: System,
                     req: RuntimeModel.Request)
    requires Sound(env, sim, s)
    ensures Sound(env, sim, Happens(env, re, limit, sim, s, Act.Request(req)))
  {
    hide NearGoverned, Shows, RuntimeSemantics.Execute, Taker, G.Requesting;
    RequestShows(re, limit, sim, s.others, s.fleet, s.store, s.world, req);
    var k := Taker(re, sim, s.others, s.fleet, s.store, req);
    if k.Some? {
      CallNear(env, s.world, s.fleet[k.value].scenario, req);
    }
  }

  lemma FilingSound(env: G.Env, sim: string, s: System, c: G.Command)
    requires Sound(env, sim, s) && Filing(c)
    ensures Sound(env, sim, s.(world := G.Execute(env, s.world, c)))
  {
    hide NearGoverned, Shows, G.Execute, AtStart;
    TakeNear(env, s.world, Serve(c));
    FilingSpares(env, s.world, c);
  }

  lemma ServiceSound(env: G.Env, re: RuntimeSemantics.FullMatch, limit: nat, sim: string, s: System, c: G.Command)
    requires Sound(env, sim, s) && Plain(env)
    ensures Sound(env, sim, Happens(env, re, limit, sim, s, Service(c)))
  {
    hide NearGoverned, Shows, Plain, G.DeployedScenario, G.RolledBack, G.ResetTo, G.ClockAdvanced, G.Published,
      G.AllReset, G.Configured, G.Requested, G.Decided, Sync, Publishing, ResettingEach, Deployed, StateMoved,
      SortedTexts, RevisionRuns.Perform, RuntimeSemantics.ResetRuntime;
    TakeNear(env, s.world, Serve(c));
    match c
    case DeployScenario(id, actor, revision) =>
      var (after, outcome) := G.DeployedScenario(env, s.world, id, actor, revision, None);
      DeployedRuns(env, s.world, id, actor, revision, None);
      DeployedSound(env, sim, s, id, after, outcome);
    case Rollback(id, number, actor) =>
      var (after, outcome) := G.RolledBack(env, s.world, id, number, actor);
      RollbackRuns(env, s.world, id, number, actor);
      DeployedSound(env, sim, s, id, after, outcome);
    case ResetScenario(id) =>
      ResetMoves(env, s.world, id);
      SyncShows(sim, s.others, s.fleet, s.store, s.world.running, id, G.ResetTo(env, s.world, id).0.running);
    case AdvanceClock(id, ms) =>
      ClockMoves(env, s.world, id, ms);
      SyncShows(sim, s.others, s.fleet, s.store, s.world.running, id, G.ClockAdvanced(env, s.world, id, ms).0.running);
    case PublishEvent(ids, topic) => PublishShows(env, sim, s, ids, topic);
    case ResetAllScenarios => AllResetShows(env, sim, s);
    case Call(_, _) =>
    case _ => FilingSound(env, sim, s, c);
  }

  lemma HappensSound(env: G.Env, re: RuntimeSemantics.FullMatch, limit: nat, sim: string, s: System, a: Act)
    requires Sound(env, sim, s) && Plain(env)
    ensures Sound(env, sim, Happens(env, re, limit, sim, s, a))
  {
    hide Sound, Happens;
    match a
    case Service(c) => ServiceSound(env, re, limit, sim, s, c);
    case Request(req) => RequestSound(env, re, limit, sim, s, req);
    case Reset => ResetSound(env, re, limit, sim, s);
  }

  lemma ResetSound(env: G.Env, re: RuntimeSemantics.FullMatch, limit: nat, sim: string, s: System)
    requires Sound(env, sim, s)
    ensures Sound(env, sim, Happens(env, re, limit, sim, s, Reset))
  {
    hide NearGoverned, Shows, RuntimeSemantics.ResetRuntime;
    RestartNear(env, s.world);
    ResetShows(sim, s.others, s.fleet, s.store, s.world);
  }

  /** Over every run of service operations, requests to the runtime and runtime resets: the
      store holds the compiled mappings of exactly the scenarios the service runs, behind
      the other mappings, and their states are those the service would find. */
  lemma {:induction false} RunStaysSound(env: G.Env, re: RuntimeSemantics.FullMatch, limit: nat, sim: string, s: System,
                                         acts: seq<Act>)
    requires Sound(env, sim, s) && Plain(env)
    ensures Sound(env, sim, HappenAll(env, re, limit, sim, s, acts))
    decreases |acts|
  {
    hide Sound, Plain, Happens;
    if acts != [] {
      var front := acts[..|acts| - 1];
      RunStaysSound(env, re, limit, sim, s, front);
      HappensSound(env, re, limit, sim, HappenAll(env, re, limit, sim, s, front), acts[|acts| - 1]);
    }
  }

  /** What the service takes an act for: its own operations and runtime resets for what they
      are, and a request for a call of at most one scenario. */
  ghost predicate TakenFor(a: Act, step: Option<Happening>) {
    match a
    case Reset => step == Some(ResetRuntime)
    case Service(c) => if c.Call? then step == None else step == Some(Serve(c))
    case Request(req) => step == None || exists id :: step == Some(Serve(G.Call(id, req)))
  }

  function Steps(steps: seq<Option<Happening>>): seq<Happening> {
    if steps == [] then [] else
      var last := steps[|steps| - 1];
      Steps(steps[..|steps| - 1]) + if last.Some? then [last.value] else []
  }

  function TakeOne(env: G.Env, w: G.World, step: Option<Happening>): G.World {
    if step.Some? then Take(env, w, step.value) else w
  }

  lemma OneTaken(env: G.Env, w: G.World, steps: seq<Option<Happening>>, step: Option<Happening>)
    ensures TakeAll(env, w, Steps(steps + [step])) == TakeOne(env, TakeAll(env, w, Steps(steps)), step)
  {
    hide Take;
    var all, before := Steps(steps + [step]), Steps(steps);
    assert (steps + [step])[..|steps|] == steps;
    if step.Some? {
      assert all == before + [step.value] && all[..|before|] == before;
    } else {
      assert all == before + [] == before;
    }
  }

  lemma CommandTaken(env: G.Env, re: RuntimeSemantics.FullMatch, limit: nat, sim: string, s: System, c: G.Command)
    ensures Happens(env, re, limit, sim, s, Service(c)).world
      == TakeOne(env, s.world, if c.Call? then None else Some(Serve(c)))
  {
    hide RuntimeSemantics.ResetRuntime, Sync, Publishing, ResettingEach, G.DeployedScenario, G.RolledBack, G.ResetTo,
      G.ClockAdvanced, G.Published, G.AllReset, G.Configured, G.Requested, G.Decided, RuntimeSemantics.DeployScenario,
      RuntimeMappings, Drop, Without, ScenarioName, SortedTexts, RevisionRuns.Perform;
  }

  lemma ActTaken(env: G.Env, re: RuntimeSemantics.FullMatch, limit: nat, sim: string, s: System, a: Act)
    returns (step: Option<Happening>)
    ensures TakenFor(a, step)
    ensures Happens(env, re, limit, sim, s, a).world == TakeOne(env, s.world, step)
  {
    hide RuntimeSemantics.Execute, RuntimeSemantics.ResetRuntime, G.Requesting, Taker;
    match a
    case Reset => step := Some(ResetRuntime);
    case Service(c) =>
      hide Happens, Take;
      step := if c.Call? then None else Some(Serve(c));
      CommandTaken(env, re, limit, sim, s, c);
    case Request(req) =>
      var k := Taker(re, sim, s.others, s.fleet, s.store, req);
      step := if k == None then None else Some(Serve(G.Call(s.fleet[k.value].scenario, req)));
  }

  /** The service sees a run of such a system as a run of its own. */
  lemma {:induction false} RunSeen(env: G.Env, re: RuntimeSemantics.FullMatch, limit: nat, sim: string, s: System,
                                   acts: seq<Act>) returns (steps: seq<Option<Happening>>)
    ensures |steps| == |acts| && forall i | 0 <= i < |acts| :: TakenFor(acts[i], steps[i])
    ensures HappenAll(env, re, limit, sim, s, acts).world == TakeAll(env, s.world, Steps(steps))
    decreases |acts|
  {
    hide Happens, Take, TakenFor;
    if acts == [] {
      steps := [];
    } else {
      var front, last := acts[..|acts| - 1], acts[|acts| - 1];
      var before := RunSeen(env, re, limit, sim, s, front);
      var step := ActTaken(env, re, limit, sim, HappenAll(env, re, limit, sim, s, front), last);
      OneTaken(env, s.world, before, step);
      hide TakeAll, Steps, TakeOne;
      steps := before + [step];
    }
  }

  /** The store answers every request as the runtime does. */
  lemma RequestExecutes(env: G.Env, re: RuntimeSemantics.FullMatch, limit: nat, sim: string, s: System,
                        req: RuntimeModel.Request)
    requires Sound(env, sim, s)
    ensures var result := RuntimeSemantics.Execute(re, limit, s.store, sim, req);
      result.Some? && Happens(env, re, limit, sim, s, Act.Request(req)).store == result.value.0
  {
    hide NearGoverned, Shows, Requested;
    RequestShows(re, limit, sim, s.others, s.fleet, s.store, s.world, req);
  }

  lemma ServesRelease(env: G.Env, sim: string, s: System, k: nat)
    requires Sound(env, sim, s) && k < |s.fleet|
    ensures G.Governing(s.world, s.fleet[k].scenario) == Some(s.fleet[k].definition)
    ensures var state := ScenarioState(s.store, ScenarioName(sim, s.fleet[k].scenario));
      state.Some? && NearDeclared(G.Running(s.fleet[k].definition, state.value))
  {
    hide Governed, AtStart, G.Governing, WellFormed, NoClashes, FleetMappings, StateNames, Foreign, Registered,
      OwnsNames, NearDeclared, ScenarioName;
    var m := s.fleet[k];
    assert ShowsOne(sim, m, s.store, s.world.running) && MemberSound(s.store, sim, m);
    RunsItsRelease(env, s.world, m.scenario);
    InitialNamed(s.store, sim, s.others, s.fleet, [], k);
  }

  /** What that means: the runtime serves the compiled definitions of the latest releases,
      each in a declared state or in the Started of a runtime reset. */
  lemma RuntimeServesReleases(env: G.Env, sim: string, s: System)
    requires Sound(env, sim, s)
    ensures MappingsOf(s.store, sim) == s.others + FleetMappings(sim, s.fleet)
    ensures forall k: nat | k < |s.fleet| ::
      && G.Governing(s.world, s.fleet[k].scenario) == Some(s.fleet[k].definition)
      && var state := ScenarioState(s.store, ScenarioName(sim, s.fleet[k].scenario));
         state.Some? && (state.value in StateNames(s.fleet[k].definition) || state.value == "Started")
    ensures forall id | id in s.world.running :: Named(s.fleet, id)
  {
    assert s.others + FleetMappings(sim, s.fleet) + [] == s.others + FleetMappings(sim, s.fleet);
    hide NearGoverned, G.Governing, FleetMappings, StateNames, OwnsNames, ScenarioName, FleetSound, Foreign, Registered,
      ShowsOne;
    forall k: nat | k < |s.fleet|
      ensures G.Governing(s.world, s.fleet[k].scenario) == Some(s.fleet[k].definition)
      ensures var state := ScenarioState(s.store, ScenarioName(sim, s.fleet[k].scenario));
        state.Some? && NearDeclared(G.Running(s.fleet[k].definition, state.value))
    {
      ServesRelease(env, sim, s, k);
    }
  }

  lemma RunsItsRelease(env: G.Env, w: G.World, id: string)
    requires NearGoverned(env, w) && id in w.running
    ensures G.Governing(w, id) == Some(w.running[id].definition)
  {
    AtStartFields(w);
    hide Governed, AtStart, G.Governing, ReleasesSound, ReviewsSound, WellFormed, StateNames;
    ReviewsOfGoverned(env, AtStart(w), id);
    GoverningIgnoresStates(w, id);
  }

  /** Before anything is deployed through the service. */
  lemma NothingDeployedSound(env: G.Env, sim: string, st: Store, policy: G.Policy)
    requires OwnsNames(st, sim) && Registered(st, MappingsOf(st, sim))
    ensures var w := G.World(Revisions.Files(map[], map[], map[]), map[], map[], policy, map[], map[]);
      Sound(env, sim, System(w, st, MappingsOf(st, sim), []))
  {
    EmptyGoverned(env, policy);
    var w := G.World(Revisions.Files(map[], map[], map[]), map[], map[], policy, map[], map[]);
    assert AtStart(w) == w;
    assert MappingsOf(st, sim) + FleetMappings(sim, []) + [] == MappingsOf(st, sim);
    hide OwnsNames, Governed;
  }
}
