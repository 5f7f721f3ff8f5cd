/** The cases of an evidence run, sent one after the other to the native runtime that all
    scenarios of the simulation share. */
module SimulationRun {
  import opened Wrappers
  import opened Json
  import opened RuntimeModel
  import opened RuntimeStore
  import opened RuntimeSemantics
  import opened Scenario
  import opened Compiler
  import opened CompilerCorrectness
  import opened Fleet
  import opened Planner
  import opened ValidationPlan
  import opened Shadowing
  import opened Evidence

  /** What is fixed during a run: regular expressions, the journal's limit, the
      simulation, and what its contract documents. */
  datatype Engine = Engine(re: FullMatch, limit: nat, sim: string, schema: Schema)

  /** A case of a scenario, or of any other kind: a request, the pairs it covers, and the
      answers that pass. */
  datatype Planned =
    | OfScenario(c: Case)
    | OfContract(request: Request, pairwise: Option<PairwiseInfo>, fits: Response -> bool)

  function Failed(c: Case, seen: Option<string>): CaseResult {
    CaseResult(Some(c.scenarioId), c.handler.name, c.requiredState, c.newState, seen, None, None, false)
  }

  function RunScenarioCase(e: Engine, d: Definition, st: Store, c: Case): (Store, CaseResult) {
    var name := ScenarioName(e.sim, c.scenarioId);
    match if c.resetBefore then SetState(st, name, d.initialState) else Some(st)
    case None => (st, Failed(c, None))
    case Some(ready) =>
      var seen := ScenarioState(ready, name);
      match Execute(e.re, e.limit, ready, e.sim, PlannedRequest(c.handler))
      case None => (ready, Failed(c, seen))
      case Some(executed) =>
        var (after, response) := executed;
        var shown := ScenarioState(after, name);
        (after,
         CaseResult(
           Some(c.scenarioId), c.handler.name, c.requiredState, c.newState, seen, shown, None,
           && seen == Some(c.requiredState)
           && response.status == c.handler.response.status
           && e.schema(c.handler, response.body)
           && shown == Some(c.newState.GetOr(c.requiredState))))
  }

  function RunOne(e: Engine, definitions: Definitions, st: Store, p: Planned): (Store, CaseResult) {
    match p
    case OfScenario(c) =>
      if c.scenarioId in definitions then RunScenarioCase(e, definitions[c.scenarioId], st, c)
      else (st, Failed(c, None))
    case OfContract(request, pairwise, fits) =>
      match Execute(e.re, e.limit, st, e.sim, request)
      case None => (st, CaseResult(None, "", "", None, None, None, pairwise, false))
      case Some(executed) =>
        (executed.0, CaseResult(None, "", "", None, None, None, pairwise, fits(executed.1)))
  }

  function RunPlan(e: Engine, definitions: Definitions, st: Store, plan: seq<Planned>): (r: (Store, seq<CaseResult>))
    ensures |r.1| == |plan|
    decreases |plan|
  {
    if plan == [] then (st, []) else
      var (now, result) := RunOne(e, definitions, st, plan[0]);
      var (last, results) := RunPlan(e, definitions, now, plan[1..]);
      (last, [result] + results)
  }

  lemma {:induction false} RunPlanAppend(e: Engine, definitions: Definitions, st: Store, a: seq<Planned>,
                                         b: seq<Planned>)
    ensures var (middle, first) := RunPlan(e, definitions, st, a);
      var (last, second) := RunPlan(e, definitions, middle, b);
      RunPlan(e, definitions, st, a + b) == (last, first + second)
    decreases |a|
  {
    hide RunOne;
    if a == [] {
      assert a + b == b && [] + RunPlan(e, definitions, st, b).1 == RunPlan(e, definitions, st, b).1;
    } else {
      assert (a + b)[0] == a[0] && (a + b)[1..] == a[1..] + b;
      var (now, result) := RunOne(e, definitions, st, a[0]);
      RunPlanAppend(e, definitions, now, a[1..], b);
      var rest := RunPlan(e, definitions, now, a[1..]).1;
      var second := RunPlan(e, definitions, RunPlan(e, definitions, now, a[1..]).0, b).1;
      assert [result] + rest + second == [result] + (rest + second);
    }
  }

  // ------------------------------------------------------------ what stays deployed

  /** Setting the state of one scenario moves its machine only. */
  lemma SetStateMoves(st: Store, sim: string, before: seq<RuntimeMapping>, fleet: seq<Member>,
                      after: seq<RuntimeMapping>, k: nat, state: string)
    requires FleetDeployed(st, sim, before, fleet, after) && k < |fleet| && state != ""
    ensures var now := SetState(st, ScenarioName(sim, fleet[k].scenario), state);
      && now.Some? && FleetDeployed(now.value, sim, before, fleet, after) && now.value.events == st.events
      && States(now.value, sim, fleet) == States(st, sim, fleet)[k := state]
      && ScenarioState(now.value, ScenarioName(sim, fleet[k].scenario)) == Some(state)
  {
    var name := ScenarioName(sim, fleet[k].scenario);
    assert MemberSound(st, sim, fleet[k]);
    var now := SetState(st, name, state).value;
    assert now.states == st.states[name := st.states[name].(state := state)];
    hide FleetMappings, MemberSound, Foreign, Registered, States, ScenarioName;
    OneMoves(st, now, sim, fleet, k, state);
    StaysFleet(st, now, sim, before, fleet, after);
  }

  lemma RunOneKeeps(e: Engine, definitions: Definitions, st: Store, before: seq<RuntimeMapping>, fleet: seq<Member>,
                    after: seq<RuntimeMapping>, p: Planned)
    requires FleetDeployed(st, e.sim, before, fleet, after) && Held(definitions, fleet)
    ensures FleetDeployed(RunOne(e, definitions, st, p).0, e.sim, before, fleet, after)
  {
    match p
    case OfScenario(c) =>
      if c.scenarioId in definitions {
        var k := HeldAt(definitions, fleet, c.scenarioId);
        var d := definitions[c.scenarioId];
        InitialNamed(st, e.sim, before, fleet, after, k);
        SetStateMoves(st, e.sim, before, fleet, after, k, d.initialState);
        hide Execute, FleetDeployed, SetState, PlannedRequest;
        var name := ScenarioName(e.sim, c.scenarioId);
        var ready := if c.resetBefore then SetState(st, name, d.initialState).value else st;
        ExecuteSimulatesFleet(e.re, e.limit, ready, e.sim, before, fleet, after, PlannedRequest(c.handler));
      }
    case OfContract(request, _, _) =>
      hide Execute, FleetDeployed;
      ExecuteSimulatesFleet(e.re, e.limit, st, e.sim, before, fleet, after, request);
  }

  /** The definitions are those deployed. */
  ghost predicate Held(definitions: Definitions, fleet: seq<Member>) {
    forall id | id in definitions :: Member(id, definitions[id]) in fleet
  }

  lemma HeldAt(definitions: Definitions, fleet: seq<Member>, id: string) returns (k: nat)
    requires Held(definitions, fleet) && id in definitions
    ensures k < |fleet| && fleet[k] == Member(id, definitions[id])
  {
    k :| 0 <= k < |fleet| && fleet[k] == Member(id, definitions[id]);
  }

  lemma InitialNamed(st: Store, sim: string, before: seq<RuntimeMapping>, fleet: seq<Member>,
                     after: seq<RuntimeMapping>, k: nat)
    requires FleetDeployed(st, sim, before, fleet, after) && k < |fleet|
    ensures WellFormed(fleet[k].definition) && NoClashes(fleet[k].definition.states)
    ensures fleet[k].definition.initialState != ""
    ensures var name := ScenarioName(sim, fleet[k].scenario);
      name in st.states && StateOf(st.states, sim, fleet[k]) == st.states[name].state
  {
    assert MemberSound(st, sim, fleet[k]);
    DeclaredNamed(fleet[k].definition, fleet[k].definition.initialState);
  }

  lemma {:induction false} RunPlanKeeps(e: Engine, definitions: Definitions, st: Store, before: seq<RuntimeMapping>,
                                        fleet: seq<Member>, after: seq<RuntimeMapping>, plan: seq<Planned>)
    requires FleetDeployed(st, e.sim, before, fleet, after) && Held(definitions, fleet)
    ensures FleetDeployed(RunPlan(e, definitions, st, plan).0, e.sim, before, fleet, after)
    decreases |plan|
  {
    hide FleetDeployed, RunOne, Held;
    if plan != [] {
      RunOneKeeps(e, definitions, st, before, fleet, after, plan[0]);
      RunPlanKeeps(e, definitions, RunOne(e, definitions, st, plan[0]).0, before, fleet, after, plan[1..]);
    }
  }

  /** A runtime reset leaves the scenarios deployed. */
  lemma ResetKeepsFleet(st: Store, sim: string, before: seq<RuntimeMapping>, fleet: seq<Member>,
                        after: seq<RuntimeMapping>)
    requires FleetDeployed(st, sim, before, fleet, after)
    ensures FleetDeployed(ResetRuntime(st, Some(sim)), sim, before, fleet, after)
  {
    var now := ResetRuntime(st, Some(sim));
    hide FleetMappings, Foreign, Registered, WellFormed, NoClashes, ScenarioName, Drop;
    forall i | 0 <= i < |fleet| ensures MemberSound(now, sim, fleet[i]) {
      assert MemberSound(st, sim, fleet[i]);
    }
    StaysFleet(st, now, sim, before, fleet, after);
  }

  // ------------------------------------------------------------------- the journal

  /** No request of the simulation that is still in the journal was unmatched. */
  ghost predicate NoneMissed(st: Store, sim: string) {
    forall e | e in st.events && e.simulationId == sim :: e.wasMatched
  }

  function Misses(events: seq<Event>): nat {
    if events == [] then 0 else
      Misses(events[..|events| - 1]) + if events[|events| - 1].wasMatched then 0 else 1
  }

  /** The report's count of unmatched requests: of those the journal still has. */
  function Missed(st: Store, sim: string): nat { Misses(EventsOf(st, Some(sim))) }

  lemma {:induction false} MissesNone(events: seq<Event>)
    ensures Misses(events) == 0 <==> forall e | e in events :: e.wasMatched
    decreases |events|
  {
    if events != [] {
      MissesNone(events[..|events| - 1]);
    }
  }

  ghost function Unmatched(events: seq<Event>): set<nat> { set i: nat | i < |events| && !events[i].wasMatched }

  lemma UnmatchedSnoc(front: seq<Event>, last: Event)
    ensures Unmatched(front + [last]) == Unmatched(front) + if last.wasMatched then {} else {|front|}
    ensures |front| !in Unmatched(front)
  {
    var all := front + [last];
    assert all[|front|] == last && forall i | 0 <= i < |front| :: all[i] == front[i];
  }

  lemma {:induction false} MissesCounted(events: seq<Event>)
    ensures Misses(events) == |Unmatched(events)|
    decreases |events|
  {
    if events == [] {
      assert Unmatched(events) == {};
    } else {
      var front, last := events[..|events| - 1], events[|events| - 1];
      MissesCounted(front);
      UnmatchedSnoc(front, last);
      assert front + [last] == events;
      hide Unmatched;
    }
  }

  /** What a result says of a scenario's case: which case it was, the states seen before and
      after if there were any, and that all went as planned. */
  ghost predicate Tells(c: Case, start: string, result: CaseResult) {
    && result.scenarioId == Some(c.scenarioId) && result.handler == c.handler.name
    && result.requiredState == c.requiredState && result.newState == c.newState && result.pairwise == None
    && result.before == Some(start)
    && (result.after == None ==> !result.passed)
    && (result.passed ==>
          && result.before == Some(c.requiredState)
          && result.after == Some(if c.newState.Some? then c.newState.value else c.requiredState))
  }

  /** A case of a scenario that is unknown fails, and of one that is deployed it tells what
      happened; a case of another kind passes exactly when it gets an answer that fits. */
  lemma CaseVerdict(e: Engine, definitions: Definitions, st: Store, p: Planned)
    ensures var result := RunOne(e, definitions, st, p).1;
      match p
      case OfScenario(c) =>
        if c.scenarioId in definitions then
          var name := ScenarioName(e.sim, c.scenarioId);
          name in st.states ==>
            Tells(c, if c.resetBefore then definitions[c.scenarioId].initialState else st.states[name].state, result)
        else
          && !result.passed && result.scenarioId == Some(c.scenarioId) && result.handler == c.handler.name
          && result.requiredState == c.requiredState && result.newState == c.newState
          && result.before == None && result.after == None && result.pairwise == None
      case OfContract(request, pairwise, fits) =>
        var answer := Execute(e.re, e.limit, st, e.sim, request);
        && result.scenarioId == None && result.pairwise == pairwise
        && result.before == None && result.after == None
        && (result.passed <==> answer.Some? && fits(answer.value.1))
  {
    hide Execute, PlannedRequest, ScenarioName;
  }

  lemma {:induction false} KeepMembers<T>(items: seq<T>, p: T -> bool)
    ensures forall x :: x in Keep(items, p) <==> x in items && p(x)
    decreases |items|
  {
    if items != [] {
      KeepMembers(items[..|items| - 1], p);
    }
  }

  lemma MissedNone(st: Store, sim: string)
    ensures Missed(st, sim) == 0 <==> NoneMissed(st, sim)
  {
    hide Misses, Keep;
    MissesNone(EventsOf(st, Some(sim)));
    KeepMembers(st.events, Owned(sim));
  }

  lemma {:induction false} TrimMembers<T>(items: seq<T>, p: T -> bool, keep: nat)
    ensures forall x | x in Trim(items, p, keep) :: x in items
    decreases |items|
  {
    if items != [] {
      var front := items[..|items| - 1];
      TrimMembers(front, p, keep);
      TrimMembers(front, p, 0);
      if keep > 0 {
        TrimMembers(front, p, keep - 1);
      }
    }
  }

  lemma MatchedKeepsJournal(re: FullMatch, limit: nat, st: Store, sim: string, req: Request)
    requires NoneMissed(st, sim) && Execute(re, limit, st, sim, req).Some? && Select(re, st, sim, req).Some?
    ensures NoneMissed(Execute(re, limit, st, sim, req).value.0, sim)
  {
    ExecuteOutcome(re, limit, st, sim, req);
    hide Execute, Select, Trim;
    TrimMembers(st.events + [EventFor(sim, req, Select(re, st, sim, req))], Owned(sim), limit);
  }

  // --------------------------------------------------- a scenario among the others

  /** No scenario deployed before it has a handler that takes a request planned for it, and
      no other mapping preempts one. */
  ghost predicate Unrivalled(re: FullMatch, before: seq<RuntimeMapping>, fleet: seq<Member>, after: seq<RuntimeMapping>,
                             k: nat)
    requires k < |fleet|
  {
    forall t, h | Reachable(fleet[k].definition, t) && h in HandlersOf(fleet[k].definition, t) ::
      EarlierMiss(fleet, k, h) && NothingPreempts(re, before, after, h)
  }

  ghost predicate EarlierMiss(fleet: seq<Member>, k: nat, h: Handler)
    requires k < |fleet|
  {
    forall j, s, g | 0 <= j < k && g in HandlersOf(fleet[j].definition, s) :: !Covers(g, h)
  }

  ghost predicate NothingPreempts(re: FullMatch, before: seq<RuntimeMapping>, after: seq<RuntimeMapping>, h: Handler) {
    forall states :: !Preempted(re, states, before, after, PlannedRequest(h))
  }

  lemma {:induction false} NoneAccepts(handlers: seq<Handler>, h: Handler)
    requires h.request.verb in VERBS && !HeadersClash(h.request.headers)
    requires forall g | g in handlers :: !Covers(g, h)
    ensures FirstAccepting(handlers, PlannedRequest(h)) == None
    decreases |handlers|
  {
    hide Accepts, Covers, HeadersClash, PlannedRequest;
    if handlers != [] {
      PlannedAcceptedIff(handlers[0], h);
      NoneAccepts(handlers[1..], h);
    }
  }

  lemma OwnAccepts(handlers: seq<Handler>, h: Handler)
    requires h in handlers && h.request.verb in VERBS && !HeadersClash(h.request.headers)
    ensures FirstAccepting(handlers, PlannedRequest(h)).Some?
  {
    hide FirstAccepting, HeadersClash, PlannedRequest;
    FirstCoveringAnswers(handlers, h);
  }

  /** In a state that has the handler, the scenario itself takes the planned request. */
  lemma PlannedReaches(st: Store, sim: string, before: seq<RuntimeMapping>, fleet: seq<Member>,
                       after: seq<RuntimeMapping>, k: nat, h: Handler)
    requires FleetDeployed(st, sim, before, fleet, after) && k < |fleet| && EarlierMiss(fleet, k, h)
    requires h in HandlersOf(fleet[k].definition, StateOf(st.states, sim, fleet[k]))
    ensures FirstReady(st.states, sim, fleet, PlannedRequest(h)) == Some(k)
  {
    hide FirstAccepting, HandlersOf, Covers, HeadersClash, PlannedRequest, FirstReady, StateOf, WellFormed, NoClashes,
      FleetMappings;
    assert MemberSound(st, sim, fleet[k]);
    HandlerTyped(fleet[k].definition, StateOf(st.states, sim, fleet[k]), h);
    hide FleetDeployed;
    OwnAccepts(Offers(st, sim, fleet[k]), h);
    forall j | 0 <= j < k ensures FirstAccepting(Offers(st, sim, fleet[j]), PlannedRequest(h)) == None {
      NoneAccepts(Offers(st, sim, fleet[j]), h);
    }
    FirstReadyAt(st, sim, fleet, PlannedRequest(h), k);
  }

  /** The handlers of a scenario's current state. */
  function Offers(st: Store, sim: string, m: Member): seq<Handler> {
    HandlersOf(m.definition, StateOf(st.states, sim, m))
  }

  lemma FirstReadyAt(st: Store, sim: string, fleet: seq<Member>, req: Request, k: nat)
    requires k < |fleet| && FirstAccepting(Offers(st, sim, fleet[k]), req).Some?
    requires forall j | 0 <= j < k :: FirstAccepting(Offers(st, sim, fleet[j]), req) == None
    ensures FirstReady(st.states, sim, fleet, req) == Some(k)
  {
    FirstReadyIsFirst(st.states, sim, fleet, req);
    hide FirstAccepting, HandlersOf, FirstReady, StateOf;
  }

  /** The store a case of scenario k is executed on. */
  function Ready(e: Engine, st: Store, m: Member, c: Case): Store {
    if c.resetBefore then SetState(st, ScenarioName(e.sim, m.scenario), m.definition.initialState).GetOr(st) else st
  }

  /** Its state there. */
  function Start(e: Engine, st: Store, m: Member, c: Case): string {
    if c.resetBefore then m.definition.initialState else StateOf(st.states, e.sim, m)
  }

  lemma ReadyStarts(e: Engine, st: Store, before: seq<RuntimeMapping>, fleet: seq<Member>, after: seq<RuntimeMapping>,
                    k: nat, c: Case)
    requires FleetDeployed(st, e.sim, before, fleet, after) && k < |fleet|
    ensures var ready, name := Ready(e, st, fleet[k], c), ScenarioName(e.sim, fleet[k].scenario);
      && FleetDeployed(ready, e.sim, before, fleet, after) && ready.events == st.events
      && StateOf(ready.states, e.sim, fleet[k]) == Start(e, st, fleet[k], c)
      && ScenarioState(ready, name) == Some(Start(e, st, fleet[k], c))
      && (c.resetBefore ==> SetState(st, name, fleet[k].definition.initialState).Some?)
  {
    InitialNamed(st, e.sim, before, fleet, after, k);
    if c.resetBefore {
      SetStateMoves(st, e.sim, before, fleet, after, k, fleet[k].definition.initialState);
      hide FleetDeployed, States, StateOf, SetState;
      var ready := Ready(e, st, fleet[k], c);
      assert States(ready, e.sim, fleet)[k] == fleet[k].definition.initialState;
      StatesAt(ready, e.sim, fleet, k);
    }
  }

  lemma StatesAt(st: Store, sim: string, fleet: seq<Member>, k: nat)
    requires k < |fleet|
    ensures States(st, sim, fleet)[k] == StateOf(st.states, sim, fleet[k])
  {
  }

  /** Sent in a state that has its handler, a planned request makes the scenario's own step,
      and the journal records a match. */
  lemma PlannedSteps(e: Engine, st: Store, before: seq<RuntimeMapping>, fleet: seq<Member>, after: seq<RuntimeMapping>,
                     k: nat, h: Handler)
    requires FleetDeployed(st, e.sim, before, fleet, after) && k < |fleet|
    requires h in Offers(st, e.sim, fleet[k]) && EarlierMiss(fleet, k, h) && NothingPreempts(e.re, before, after, h)
    ensures var name := ScenarioName(e.sim, fleet[k].scenario);
      var result := Execute(e.re, e.limit, st, e.sim, PlannedRequest(h));
      var (state, answer) := Step(fleet[k].definition, StateOf(st.states, e.sim, fleet[k]), PlannedRequest(h));
      && result.Some? && answer == Some(result.value.1)
      && ScenarioState(result.value.0, name) == Some(state)
      && StateOf(result.value.0.states, e.sim, fleet[k]) == state
      && (NoneMissed(st, e.sim) ==> NoneMissed(result.value.0, e.sim))
  {
    var req, now := PlannedRequest(h), Execute(e.re, e.limit, st, e.sim, PlannedRequest(h));
    PlannedReaches(st, e.sim, before, fleet, after, k, h);
    ReadySteps(e.re, e.limit, st, e.sim, before, fleet, after, req, k);
    InitialNamed(st, e.sim, before, fleet, after, k);
    StepStaysDeclared(fleet[k].definition, StateOf(st.states, e.sim, fleet[k]), req);
    hide FleetDeployed, Execute, Step, PlannedRequest, EarlierMiss, NoneMissed, FirstReady, WellFormed, NoClashes,
      HandlersOf, Preempted;
    StateNonEmpty(st, e.sim, before, fleet, after, k);
    FleetMatches(e, st, before, fleet, after, req, k);
    if NoneMissed(st, e.sim) {
      MatchedKeepsJournal(e.re, e.limit, st, e.sim, req);
    }
  }

  lemma StateNonEmpty(st: Store, sim: string, before: seq<RuntimeMapping>, fleet: seq<Member>,
                      after: seq<RuntimeMapping>, k: nat)
    requires FleetDeployed(st, sim, before, fleet, after) && k < |fleet|
    ensures StateOf(st.states, sim, fleet[k]) != ""
  {
    assert MemberSound(st, sim, fleet[k]);
  }

  lemma FleetMatches(e: Engine, st: Store, before: seq<RuntimeMapping>, fleet: seq<Member>, after: seq<RuntimeMapping>,
                     req: Request, k: nat)
    requires FleetDeployed(st, e.sim, before, fleet, after) && k < |fleet|
    requires FirstReady(st.states, e.sim, fleet, req) == Some(k) && !Preempted(e.re, st.states, before, after, req)
    ensures Select(e.re, st, e.sim, req).Some?
  {
    hide FleetDeployed, FirstReady, Preempted, Select, FirstAccepting, HandlersOf, StateOf, Offered;
    FleetSelects(e.re, st, e.sim, before, fleet, after, req);
    FirstReadyIsFirst(st.states, e.sim, fleet, req);
  }

  /** One case of scenario k passes exactly when the scenario is in the state it requires
      and its handler, on its own machine, keeps its promise. */
  lemma OneCaseRuns(e: Engine, st: Store, before: seq<RuntimeMapping>, fleet: seq<Member>, after: seq<RuntimeMapping>,
                    k: nat, c: Case)
    requires FleetDeployed(st, e.sim, before, fleet, after) && k < |fleet| && fleet[k].scenario == c.scenarioId
    requires Unrivalled(e.re, before, fleet, after, k) && c.newState == c.handler.newState
    requires Reachable(fleet[k].definition, c.requiredState)
    requires c.handler in HandlersOf(fleet[k].definition, c.requiredState)
    ensures var d, start := fleet[k].definition, Start(e, st, fleet[k], c);
      var (now, result) := RunScenarioCase(e, d, st, c);
      && (result.passed <==> start == c.requiredState && Obeys(e.schema, d, start, c.handler))
      && (result.passed ==>
            && result == PassedCase(c)
            && StateOf(now.states, e.sim, fleet[k]) == c.newState.GetOr(start)
            && (NoneMissed(st, e.sim) ==> NoneMissed(now, e.sim)))
  {
    hide FleetDeployed, Execute, Step, PlannedRequest, EarlierMiss, NothingPreempts, HandlersOf, SetState, Reachable,
      StateOf, ScenarioName, ScenarioState, Start, Ready;
    var m, ready, start := fleet[k], Ready(e, st, fleet[k], c), Start(e, st, fleet[k], c);
    ReadyStarts(e, st, before, fleet, after, k, c);
    CaseOnReady(e, st, m, c);
    if start == c.requiredState {
      PlannedSteps(e, ready, before, fleet, after, k, c.handler);
    }
  }

  /** A case in terms of the store it is executed on. */
  lemma CaseOnReady(e: Engine, st: Store, m: Member, c: Case)
    requires m.scenario == c.scenarioId
    requires c.resetBefore ==> SetState(st, ScenarioName(e.sim, m.scenario), m.definition.initialState).Some?
    ensures var ready, name := Ready(e, st, m, c), ScenarioName(e.sim, m.scenario);
      var seen := ScenarioState(ready, name);
      RunScenarioCase(e, m.definition, st, c) ==
        match Execute(e.re, e.limit, ready, e.sim, PlannedRequest(c.handler))
        case None => (ready, Failed(c, seen))
        case Some(executed) =>
          var shown := ScenarioState(executed.0, name);
          (executed.0,
           CaseResult(
             Some(c.scenarioId), c.handler.name, c.requiredState, c.newState, seen, shown, None,
             && seen == Some(c.requiredState)
             && executed.1.status == c.handler.response.status
             && e.schema(c.handler, executed.1.body)
             && shown == Some(c.newState.GetOr(c.requiredState))))
  {
    hide Execute, SetState, ScenarioName, ScenarioState, PlannedRequest;
  }

  function AsPlanned(cases: seq<Case>): (plan: seq<Planned>)
    ensures |plan| == |cases|
  {
    seq(|cases|, i requires 0 <= i < |cases| => OfScenario(cases[i]))
  }

  lemma AsPlannedAppend(a: seq<Case>, b: seq<Case>)
    ensures AsPlanned(a + b) == AsPlanned(a) + AsPlanned(b)
  {
  }

  /** The cases of scenario k, on the runtime shared with the others, all pass exactly when
      they do on its own machine; then the results are the machine's. */
  lemma {:induction false} BlockRuns(e: Engine, definitions: Definitions, st: Store, before: seq<RuntimeMapping>,
                                     fleet: seq<Member>, after: seq<RuntimeMapping>, k: nat, cases: seq<Case>)
    requires FleetDeployed(st, e.sim, before, fleet, after) && Held(definitions, fleet) && k < |fleet|
    requires fleet[k].scenario in definitions && definitions[fleet[k].scenario] == fleet[k].definition
    requires Unrivalled(e.re, before, fleet, after, k)
    requires Consistent(cases) && StartsReachable(fleet[k].definition, cases)
    requires forall c | c in cases :: c.scenarioId == fleet[k].scenario
    ensures var d, from := fleet[k].definition, StateOf(st.states, e.sim, fleet[k]);
      var (now, results) := RunPlan(e, definitions, st, AsPlanned(cases));
      && (AllTrue(results) <==> Passes(e.schema, d, from, cases))
      && (AllTrue(results) ==>
            results == PassedCases(cases) && (NoneMissed(st, e.sim) ==> NoneMissed(now, e.sim)))
    decreases |cases|
  {
    hide FleetDeployed, RunScenarioCase, Unrivalled, Held, StateOf, Obeys, NoneMissed, Reachable, HandlersOf,
      Start;
    if cases != [] {
      var c, m := cases[0], fleet[k];
      OneCaseRuns(e, st, before, fleet, after, k, c);
      RunOneKeeps(e, definitions, st, before, fleet, after, OfScenario(c));
      var (now, result) := RunScenarioCase(e, m.definition, st, c);
      assert AsPlanned(cases)[0] == OfScenario(c) && AsPlanned(cases)[1..] == AsPlanned(cases[1..]);
      BlockRuns(e, definitions, now, before, fleet, after, k, cases[1..]);
      FirstAndRest(result, RunPlan(e, definitions, now, AsPlanned(cases[1..])).1);
      OneMorePassed(e, st, m, cases);
    }
  }

  lemma FirstAndRest(result: CaseResult, rest: seq<CaseResult>)
    ensures AllTrue([result] + rest) <==> result.passed && AllTrue(rest)
  {
    if AllTrue([result] + rest) {
      assert ([result] + rest)[0].passed;
      forall i | 0 <= i < |rest| ensures rest[i].passed { assert ([result] + rest)[i + 1].passed; }
    }
  }

  lemma OneMorePassed(e: Engine, st: Store, m: Member, cases: seq<Case>)
    requires cases != [] && cases[0].newState == cases[0].handler.newState
    ensures var d, from, start := m.definition, StateOf(st.states, e.sim, m), Start(e, st, m, cases[0]);
      Passes(e.schema, d, from, cases) <==>
        && start == cases[0].requiredState && Obeys(e.schema, d, start, cases[0].handler)
        && Passes(e.schema, d, cases[0].newState.GetOr(start), cases[1..])
    ensures PassedCases(cases) == [PassedCase(cases[0])] + PassedCases(cases[1..])
  {
    hide Step, PlannedRequest, StateOf;
  }
}
