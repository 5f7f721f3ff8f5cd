/** Isolation holds exactly when no scenario name may be used by two simulations; the
    eligibility journey is such a name. */
module SharedNames {
  import opened Wrappers
  import opened Json
  import opened Text
  import opened RuntimeModel
  import opened RuntimeStore
  import opened RuntimeSemantics
  import opened Translation
  import opened CompilerCorrectness
  import opened Isolation

  // ---------------------------------------------------------------- the journey

  const JOURNEY_NAME := "SimuLoom eligibility request journey"

  function JourneyBody(state: string): WireBody {
    Encoded(Object(map["requestId" := Json.Text("REQ-SYN-001"), "status" := Json.Text(state),
      "synthetic" := Bool(true)]))
  }

  function JourneyStep(title: string, scenario: string, verb: string, path: string, status: int, state: string,
                       required: Option<string>, next: Option<string>, operation: string): WireMapping
  {
    WireMapping(
      Some(title), Some(1),
      WireRequest(Some(verb), Some(path), None, map[], [], None),
      WireResponse(Some(status), map["Content-Type" := "application/json"], Some(JourneyBody(state)), None, None),
      map["simuloomOperationId" := Json.Text(operation), "simuloomJourney" := Json.Text("eligibility-request"),
          "simuloomStep" := Json.Text(state)],
      Some(scenario), required, next)
  }

  /** The paths and ids of the two operations of an eligibility contract. */
  datatype Eligibility = Eligibility(
    beginPath: string, beginOperation: string, statusUrl: string, statusOperation: string)

  /** Submit, look once while in process, look again when completed. */
  function Journey(scenario: string, c: Eligibility): seq<WireMapping> {
    [JourneyStep("SimuLoom journey: submit eligibility request", scenario, "POST", c.beginPath, 202, "SUBMITTED",
                 None, Some("PROCESSING"), c.beginOperation),
     JourneyStep("SimuLoom journey: eligibility request processing", scenario, "GET", c.statusUrl, 200, "PROCESSING",
                 Some("PROCESSING"), Some("COMPLETED"), c.statusOperation),
     JourneyStep("SimuLoom journey: eligibility request completed", scenario, "GET", c.statusUrl, 200, "COMPLETED",
                 Some("COMPLETED"), None, c.statusOperation)]
  }

  function Bundle(scenario: string, c: Eligibility): seq<RuntimeMapping> { FromWires(Journey(scenario, c)) }

  function Submit(c: Eligibility): Request { Request("POST", Url(c.beginPath, map[]), [], Null) }

  function Look(c: Eligibility): Request { Request("GET", Url(c.statusUrl, map[]), [], Null) }

  function Processing(scenario: string, c: Eligibility): Response { Reply(Bundle(scenario, c)[1].response) }

  lemma BundleUrgent(scenario: string, c: Eligibility)
    ensures Urgent(Bundle(scenario, c)) && |Bundle(scenario, c)| == 3
    ensures forall m | m in Bundle(scenario, c) :: m.scenarioName == Some(scenario)
  {
  }

  /** Which of the journey's requests a step takes. */
  lemma JourneyMatches(re: FullMatch, scenario: string, c: Eligibility)
    ensures var bundle := Bundle(scenario, c);
      && RequestMatches(re, bundle[0].request, Submit(c)) && !RequestMatches(re, bundle[0].request, Look(c))
      && RequestMatches(re, bundle[1].request, Look(c)) && RequestMatches(re, bundle[2].request, Look(c))
  {
    assert Upper("GET") == "GET" && Upper("POST") == "POST";
  }

  /** What the journey answers in a state. */
  lemma JourneySelects(re: FullMatch, states: map<string, Ownership>, scenario: string, c: Eligibility)
    ensures var bundle := Bundle(scenario, c);
      && FirstMatch(re, states, bundle, Submit(c)) == Some(bundle[0])
      && (CurrentState(states, scenario) == "PROCESSING" ==> FirstMatch(re, states, bundle, Look(c)) == Some(bundle[1]))
      && (CurrentState(states, scenario) == "Started" ==> FirstMatch(re, states, bundle, Look(c)) == None)
  {
    hide CurrentState, RequestMatches;
    var bundle := Bundle(scenario, c);
    JourneyMatches(re, scenario, c);
    assert bundle[1..][0] == bundle[1] && bundle[1..][1..][0] == bundle[2] && bundle[1..][1..][1..] == [];
    assert FirstMatch(re, states, bundle[1..][1..][1..], Look(c)) == None;
    assert FirstMatch(re, states, bundle[1..][1..], Look(c)) == if Matches(re, states, bundle[2],
      Look(c)) then Some(bundle[2]) else None;
  }

  lemma {:induction false} EnsureSame(st: Store, sim: string, mappings: seq<RuntimeMapping>, scenario: string)
    requires forall m | m in mappings :: m.scenarioName == Some(scenario)
    ensures EnsureAll(st, sim, mappings) == if mappings == [] then st else EnsureState(st, sim, scenario, STARTED)
    decreases |mappings|
  {
    if mappings != [] {
      EnsureSame(st, sim, mappings[..|mappings| - 1], scenario);
    }
  }

  lemma BundleDeployed(st: Store, sim: string, scenario: string, c: Eligibility)
    ensures Deploy(st, sim, Bundle(scenario, c), false)
      == EnsureState(ReplaceMappings(st, sim, Bundle(scenario, c)), sim, scenario, STARTED)
  {
    BundleUrgent(scenario, c);
    hide Bundle;
    EnsureSame(ReplaceMappings(st, sim, Bundle(scenario, c)), sim, Bundle(scenario, c), scenario);
  }

  lemma BundleAnswers(re: FullMatch, limit: nat, st: Store, sim: string, scenario: string, c: Eligibility, req: Request)
    requires MappingsOf(st, sim) == Bundle(scenario, c) && scenario in st.states
    ensures var first := FirstMatch(re, st.states, Bundle(scenario, c), req);
      && Select(re, st, sim, req) == first
      && Execute(re, limit, st, sim, req).Some?
      && Execute(re, limit, st, sim, req).value.1 == ReplyOf(first)
      && Execute(re, limit, st, sim, req).value.0.mappings == st.mappings
      && Execute(re, limit, st, sim, req).value.0.states == Transition(st, first).GetOr(st).states
  {
    BundleUrgent(scenario, c);
    hide Bundle, Execute, BestMapping;
    UrgentBest(re, st.states, Bundle(scenario, c), req);
    FirstMatchIsMember(re, st.states, Bundle(scenario, c), req);
    ExecuteOutcome(re, limit, st, sim, req);
  }

  // --------------------------------------------------------------- the leak

  function LeakOps(scenario: string, c: Eligibility, a: string, b: string): seq<Operation> {
    [DeployAll(a, Bundle(scenario, c)), DeployAll(b, Bundle(scenario, c)), Call(a, Submit(c)), Call(b, Look(c))]
  }

  function AloneOps(scenario: string, c: Eligibility, b: string): seq<Operation> {
    [DeployAll(b, Bundle(scenario, c)), Call(b, Look(c))]
  }

  lemma RunSnoc(re: FullMatch, limit: nat, ops: seq<Operation>, op: Operation)
    ensures Run(re, limit, ops + [op]) ==
      var (before, outcomes) := Run(re, limit, ops);
      var (after, outcome) := Perform(re, limit, before, op);
      (after, outcomes + [outcome])
  {
    assert (ops + [op])[..|ops|] == ops;
  }

  lemma RunNothing(re: FullMatch, limit: nat)
    ensures Run(re, limit, []) == (EmptyStore, [])
  {
  }

  lemma BothDeployed(scenario: string, c: Eligibility, a: string, b: string)
    requires a != b
    ensures var st := Deploy(Deploy(EmptyStore, a, Bundle(scenario, c), false), b, Bundle(scenario, c), false);
      && MappingsOf(st, a) == Bundle(scenario, c) == MappingsOf(st, b)
      && scenario in st.states && st.states[scenario].state == STARTED
  {
    hide Bundle;
    BundleDeployed(EmptyStore, a, scenario, c);
    BundleDeployed(Deploy(EmptyStore, a, Bundle(scenario, c), false), b, scenario, c);
  }

  lemma SubmitMoves(re: FullMatch, limit: nat, st: Store, a: string, scenario: string, c: Eligibility)
    requires MappingsOf(st, a) == Bundle(scenario, c) && scenario in st.states
    ensures var result := Execute(re, limit, st, a, Submit(c));
      && result.Some? && result.value.0.mappings == st.mappings
      && scenario in result.value.0.states && result.value.0.states[scenario].state == "PROCESSING"
  {
    BundleAnswers(re, limit, st, a, scenario, c, Submit(c));
    JourneySelects(re, st.states, scenario, c);
    hide Execute, FirstMatch;
    assert Bundle(scenario, c)[0].newState == Some("PROCESSING")
      && Bundle(scenario, c)[0].scenarioName == Some(scenario);
    hide Bundle;
  }

  lemma LookAnswers(re: FullMatch, limit: nat, st: Store, b: string, scenario: string, c: Eligibility)
    requires MappingsOf(st, b) == Bundle(scenario, c) && scenario in st.states
    ensures var result := Execute(re, limit, st, b, Look(c));
      && result.Some?
      && (st.states[scenario].state == "PROCESSING" ==> result.value.1 == Processing(scenario, c))
      && (st.states[scenario].state == STARTED ==> result.value.1 == NO_MATCH)
  {
    hide Execute, FirstMatch;
    BundleAnswers(re, limit, st, b, scenario, c, Look(c));
    JourneySelects(re, st.states, scenario, c);
  }

  lemma LeakedOutcome(re: FullMatch, limit: nat, scenario: string, c: Eligibility, a: string, b: string)
    requires a != b
    ensures Run(re, limit, LeakOps(scenario, c, a, b)).1[3] == Answered(Processing(scenario, c))
  {
    hide Deploy, Execute, Run, Bundle, Processing;
    var ops := LeakOps(scenario, c, a, b);
    RunNothing(re, limit);
    RunSnoc(re, limit, [], ops[0]);
    RunSnoc(re, limit, [ops[0]], ops[1]);
    RunSnoc(re, limit, [ops[0], ops[1]], ops[2]);
    RunSnoc(re, limit, [ops[0], ops[1], ops[2]], ops[3]);
    assert [] + [ops[0]] == [ops[0]] && [ops[0]] + [ops[1]] == [ops[0], ops[1]];
    assert [ops[0], ops[1]] + [ops[2]] == [ops[0], ops[1], ops[2]] && [ops[0], ops[1], ops[2]] + [ops[3]] == ops;
    BothDeployed(scenario, c, a, b);
    var st := Run(re, limit, [ops[0], ops[1]]).0;
    SubmitMoves(re, limit, st, a, scenario, c);
    LookAnswers(re, limit, Run(re, limit, [ops[0], ops[1], ops[2]]).0, b, scenario, c);
  }

  lemma AloneOutcome(re: FullMatch, limit: nat, scenario: string, c: Eligibility, b: string)
    ensures Run(re, limit, AloneOps(scenario, c, b)).1[1] == Answered(NO_MATCH)
  {
    hide Execute, Run, Bundle;
    var ops := AloneOps(scenario, c, b);
    RunNothing(re, limit);
    RunSnoc(re, limit, [], ops[0]);
    RunSnoc(re, limit, [ops[0]], ops[1]);
    assert [] + [ops[0]] == [ops[0]] && [ops[0]] + [ops[1]] == ops;
    BundleDeployed(EmptyStore, b, scenario, c);
    LookAnswers(re, limit, Run(re, limit, [ops[0]]).0, b, scenario, c);
  }

  lemma OnlySnoc(ops: seq<Operation>, op: Operation, sim: string)
    ensures Only(ops + [op], sim) == Only(ops, sim) + if op.simulation == sim then [op] else []
  {
    assert (ops + [op])[..|ops|] == ops;
  }

  lemma OnlyAlone(scenario: string, c: Eligibility, a: string, b: string)
    requires a != b
    ensures Only(LeakOps(scenario, c, a, b), b) == AloneOps(scenario, c, b)
  {
    hide Only, Bundle;
    var ops := LeakOps(scenario, c, a, b);
    OnlyNothing(b);
    OnlySnoc([], ops[0], b);
    OnlySnoc([ops[0]], ops[1], b);
    OnlySnoc([ops[0], ops[1]], ops[2], b);
    OnlySnoc([ops[0], ops[1], ops[2]], ops[3], b);
    assert [] + [ops[0]] == [ops[0]] && [ops[0]] + [ops[1]] == [ops[0], ops[1]];
    assert [ops[0], ops[1]] + [ops[2]] == [ops[0], ops[1], ops[2]] && [ops[0], ops[1], ops[2]] + [ops[3]] == ops;
  }

  lemma OnlyNothing(sim: string)
    ensures Only([], sim) == []
  {
  }

  /** With the journey deployed in two simulations under one name, a simulation that never
      submitted is told that its request is in process; alone it finds nothing. */
  lemma JourneyLeaks(re: FullMatch, limit: nat, scenario: string, c: Eligibility, a: string, b: string)
    requires a != b
    ensures var ops := LeakOps(scenario, c, a, b);
      && Only(ops, b) == AloneOps(scenario, c, b)
      && Run(re, limit, ops).1[3] == Answered(Processing(scenario, c))
      && Run(re, limit, AloneOps(scenario, c, b)).1[1] == Answered(NO_MATCH)
      && Processing(scenario, c).status == 200
  {
    hide Run, Bundle, Only;
    OnlyAlone(scenario, c, a, b);
    LeakedOutcome(re, limit, scenario, c, a, b);
    AloneOutcome(re, limit, scenario, c, b);
    ProcessingIs(scenario, c);
  }

  lemma ProcessingIs(scenario: string, c: Eligibility)
    ensures Processing(scenario, c) == Response(
      200,
      Object(map["requestId" := Json.Text("REQ-SYN-001"), "status" := Json.Text("PROCESSING"),
        "synthetic" := Bool(true)]),
      map["Content-Type" := "application/json"])
  {
  }

  // ------------------------------------------------------- the exact condition

  /** Which scenario names each simulation may use. */
  type Permitted = (string, string) -> bool

  predicate NamesPermitted(may: Permitted, sim: string, mappings: seq<RuntimeMapping>) {
    forall i | 0 <= i < |mappings| && mappings[i].scenarioName.Some? :: may(sim, mappings[i].scenarioName.value)
  }

  /** Operations name permitted scenarios only; a scenario deployment brings mappings of
      that scenario. */
  predicate Conforms(may: Permitted, op: Operation) {
    match op
    case DeployAll(sim, mappings) => NamesPermitted(may, sim, mappings)
    case DeployOne(sim, mappings, name, initial) =>
      may(sim, name) && forall i | 0 <= i < |mappings| :: mappings[i].scenarioName == Some(name)
    case Call(_, _) => true
    case Reset(_) => true
  }

  /** Every simulation gets the outcomes it would get alone. */
  ghost predicate Isolated(re: FullMatch, limit: nat, ops: seq<Operation>) {
    forall sim :: OutcomesOf(ops, Run(re, limit, ops).1, sim) == Run(re, limit, Only(ops, sim)).1
  }

  ghost predicate Disjoint(may: Permitted) {
    forall a, b, name | may(a, name) && may(b, name) :: a == b
  }

  ghost function OwnerOf(may: Permitted, name: string): string {
    if exists sim :: may(sim, name) then var sim :| may(sim, name); sim else ""
  }

  lemma ConformingIsOwned(may: Permitted, op: Operation)
    requires Disjoint(may) && Conforms(may, op)
    ensures Isolation.Owned((name: string) => OwnerOf(may, name), op)
  {
    hide OwnerOf;
    forall sim, name | may(sim, name) ensures OwnerOf(may, name) == sim {
      OwnerIs(may, sim, name);
    }
  }

  lemma OwnerIs(may: Permitted, sim: string, name: string)
    requires Disjoint(may) && may(sim, name)
    ensures OwnerOf(may, name) == sim
  {
  }

  lemma OutcomesAt(ops: seq<Operation>, outcomes: seq<Outcome>, sim: string)
    requires |ops| == |outcomes| && ops != [] && ops[|ops| - 1].simulation == sim
    ensures var seen := OutcomesOf(ops, outcomes, sim);
      seen != [] && seen[|seen| - 1] == outcomes[|ops| - 1]
  {
  }

  lemma SharedNameNotIsolated(re: FullMatch, limit: nat, scenario: string, c: Eligibility, a: string, b: string)
    requires a != b
    ensures !Isolated(re, limit, LeakOps(scenario, c, a, b))
  {
    var ops := LeakOps(scenario, c, a, b);
    JourneyLeaks(re, limit, scenario, c, a, b);
    OutcomesAt(ops, Run(re, limit, ops).1, b);
    ProcessingIs(scenario, c);
    hide OutcomesOf, Run, Only, Bundle, Processing;
    assert |Run(re, limit, AloneOps(scenario, c, b)).1| == 2;
  }

  /** In particular under the one name the compiler gives every simulation's journey. */
  lemma JourneyNotIsolated(re: FullMatch, limit: nat, c: Eligibility, a: string, b: string)
    requires a != b
    ensures !Isolated(re, limit, LeakOps(JOURNEY_NAME, c, a, b))
  {
    SharedNameNotIsolated(re, limit, JOURNEY_NAME, c, a, b);
  }

  lemma LeakConforms(may: Permitted, scenario: string, c: Eligibility, a: string, b: string)
    requires may(a, scenario) && may(b, scenario)
    ensures forall i | 0 <= i < 4 :: Conforms(may, LeakOps(scenario, c, a, b)[i])
  {
    BundleUrgent(scenario, c);
    hide Bundle;
    assert forall i | 0 <= i < 3 :: Bundle(scenario, c)[i] in Bundle(scenario, c);
  }

  /** Every run that keeps to the permitted names is isolated exactly when no name is
      permitted to two simulations. */
  lemma IsolatedIffDisjoint(re: FullMatch, limit: nat, may: Permitted)
    ensures (forall ops: seq<Operation> | (forall i | 0 <= i < |ops| :: Conforms(may, ops[i])) ::
      Isolated(re, limit, ops))
      <==> Disjoint(may)
  {
    hide Conforms, Isolation.Owned, Run, Only, OutcomesOf, LeakOps;
    if Disjoint(may) {
      forall ops: seq<Operation> | forall i | 0 <= i < |ops| :: Conforms(may, ops[i])
        ensures Isolated(re, limit, ops)
      {
        var owner := (name: string) => OwnerOf(may, name);
        forall i | 0 <= i < |ops| ensures Isolation.Owned(owner, ops[i]) {
          ConformingIsOwned(may, ops[i]);
        }
        forall sim ensures OutcomesOf(ops, Run(re, limit, ops).1, sim) == Run(re, limit, Only(ops, sim)).1 {
          InterleavingIsIsolated(re, limit, ops, owner, sim);
        }
      }
    } else {
      var a, b, name :| may(a, name) && may(b, name) && a != b;
      var c := Eligibility("/requests", "begin", "/requests/REQ-SYN-001", "status");
      LeakLength(name, c, a, b);
      LeakConforms(may, name, c, a, b);
      SharedNameNotIsolated(re, limit, name, c, a, b);
    }
  }

  lemma LeakLength(scenario: string, c: Eligibility, a: string, b: string)
    ensures |LeakOps(scenario, c, a, b)| == 4
  {
  }
}
