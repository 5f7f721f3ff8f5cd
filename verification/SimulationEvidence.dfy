/** The verdict on a whole simulation: all its scenarios next to each other and to any other
    mappings on one runtime, and cases of other kinds before and after theirs. */
module SimulationEvidence {
  import opened Wrappers
  import opened RuntimeModel
  import opened RuntimeStore
  import opened RuntimeSemantics
  import opened Scenario
  import opened Compiler
  import opened CompilerCorrectness
  import opened Fleet
  import opened Planner
  import opened ValidationPlan
  import opened Shadowing
  import opened Evidence
  import opened SimulationRun
  import Sorting

  type Scenarios = seq<(string, Definition)>

  function DefinitionsOf(scenarios: Scenarios): Definitions {
    if scenarios == [] then map[] else
      var last := scenarios[|scenarios| - 1];
      DefinitionsOf(scenarios[..|scenarios| - 1])[last.0 := last.1]
  }

  ghost predicate DistinctIds(scenarios: Scenarios) {
    forall i, j | 0 <= i < j < |scenarios| :: scenarios[i].0 != scenarios[j].0
  }

  lemma {:induction false} DefinitionsAre(scenarios: Scenarios)
    requires DistinctIds(scenarios)
    ensures forall i | 0 <= i < |scenarios| ::
      scenarios[i].0 in DefinitionsOf(scenarios) && DefinitionsOf(scenarios)[scenarios[i].0] == scenarios[i].1
    ensures forall id | id in DefinitionsOf(scenarios) :: exists i | 0 <= i < |scenarios| :: scenarios[i].0 == id
    decreases |scenarios|
  {
    if scenarios != [] {
      var front := scenarios[..|scenarios| - 1];
      DefinitionsAre(front);
      forall id | id in DefinitionsOf(scenarios) ensures exists i | 0 <= i < |scenarios| :: scenarios[i].0 == id {
        if id in DefinitionsOf(front) {
          var i :| 0 <= i < |front| && front[i].0 == id;
          assert scenarios[i].0 == id;
        } else {
          assert scenarios[|front|].0 == id;
        }
      }
    }
  }

  /** Each scenario is deployed with its own definition, and nothing takes its requests. */
  ghost predicate Stands(re: FullMatch, before: seq<RuntimeMapping>, fleet: seq<Member>, after: seq<RuntimeMapping>,
                         scenario: (string, Definition)) {
    exists k: nat | k < |fleet| :: IsMember(fleet, k, scenario) && Unrivalled(re, before, fleet, after, k)
  }

  predicate IsMember(fleet: seq<Member>, k: nat, scenario: (string, Definition))
    requires k < |fleet|
  {
    fleet[k] == Member(scenario.0, scenario.1)
  }

  /** A simulation to be validated: its stored scenarios are those deployed. */
  ghost predicate Validated(re: FullMatch, before: seq<RuntimeMapping>, fleet: seq<Member>, after: seq<RuntimeMapping>,
                            scenarios: Scenarios, routes: seq<Routes>) {
    && |scenarios| == |routes| && DistinctIds(scenarios)
    && (forall i | 0 <= i < |scenarios| :: Stands(re, before, fleet, after, scenarios[i]))
    && (forall i | 0 <= i < |scenarios| :: WellFormed(scenarios[i].1) && ShortestRoutes(scenarios[i].1, routes[i]))
  }

  lemma ValidatedHeld(re: FullMatch, before: seq<RuntimeMapping>, fleet: seq<Member>, after: seq<RuntimeMapping>,
                      scenarios: Scenarios, routes: seq<Routes>)
    requires Validated(re, before, fleet, after, scenarios, routes)
    ensures Held(DefinitionsOf(scenarios), fleet)
  {
    hide Unrivalled, WellFormed, ShortestRoutes;
    DefinitionsAre(scenarios);
    forall id | id in DefinitionsOf(scenarios) ensures Member(id, DefinitionsOf(scenarios)[id]) in fleet {
      var i :| 0 <= i < |scenarios| && scenarios[i].0 == id;
      assert Stands(re, before, fleet, after, scenarios[i]);
    }
  }

  // -------------------------------------------------------------- the planned results

  function Block(scenario: (string, Definition), routes: Routes): seq<Case> {
    ScenarioReplays(scenario.0, routes, scenario.1.states)
  }

  /** The results of one scenario's cases when all pass. */
  function BlockResults(scenario: (string, Definition), routes: Routes): seq<CaseResult> {
    PassedCases(Block(scenario, routes))
  }

  function PlanResults(scenarios: Scenarios, routes: seq<Routes>): seq<CaseResult>
    requires |scenarios| == |routes|
  {
    if scenarios == [] then [] else
      var n := |scenarios| - 1;
      PlanResults(scenarios[..n], routes[..n]) + BlockResults(scenarios[n], routes[n])
  }

  // ---------------------------------------------------------------- the plan is run

  /** One scenario's part of the plan. */
  lemma ScenarioRuns(e: Engine, definitions: Definitions, st: Store, before: seq<RuntimeMapping>, fleet: seq<Member>,
                     after: seq<RuntimeMapping>, scenario: (string, Definition), routes: Routes)
    requires FleetDeployed(st, e.sim, before, fleet, after) && Held(definitions, fleet)
    requires scenario.0 in definitions && definitions[scenario.0] == scenario.1
    requires Stands(e.re, before, fleet, after, scenario)
    requires WellFormed(scenario.1) && ShortestRoutes(scenario.1, routes)
    ensures var (now, results) := RunPlan(e, definitions, st, AsPlanned(Block(scenario, routes)));
      && (AllTrue(results) <==> ReachableObey(e.schema, scenario.1))
      && (AllTrue(results) ==>
            && results == BlockResults(scenario, routes)
            && (NoneMissed(st, e.sim) ==> NoneMissed(now, e.sim)))
  {
    hide FleetDeployed, Unrivalled, Held, WellFormed, NoneMissed, ReachableObey, ScenarioReplays, AllTrue, StateOf,
      HandlersOf, Walk, Reachable;
    var (id, d) := scenario;
    var cases := Block(scenario, routes);
    var k: nat :| k < |fleet| && IsMember(fleet, k, scenario) && Unrivalled(e.re, before, fleet, after, k);
    PlanConsistent(id, routes, d.states);
    StatesOwnHandlers(d);
    forall s | s in routes ensures Walk(d, routes[s], s) {
      assert Shortest(d, routes[s], s);
    }
    PlanStartsReachable(d, id, routes, d.states);
    BlockRuns(e, definitions, st, before, fleet, after, k, cases);
    PlanPassesIff(e.schema, d, id, routes, StateOf(st.states, e.sim, fleet[k]));
  }

  ghost predicate AllObeyed(schema: Schema, scenarios: Scenarios) {
    forall i | 0 <= i < |scenarios| :: ReachableObey(schema, scenarios[i].1)
  }

  /** The whole plan, scenario after scenario. */
  lemma {:induction false} PlanRuns(e: Engine, definitions: Definitions, st: Store, before: seq<RuntimeMapping>,
                                    fleet: seq<Member>, after: seq<RuntimeMapping>, scenarios: Scenarios,
                                    routes: seq<Routes>)
    requires FleetDeployed(st, e.sim, before, fleet, after) && Held(definitions, fleet)
    requires forall i | 0 <= i < |scenarios| ::
      scenarios[i].0 in definitions && definitions[scenarios[i].0] == scenarios[i].1
    requires Validated(e.re, before, fleet, after, scenarios, routes)
    ensures var (now, results) := RunPlan(e, definitions, st, AsPlanned(FullPlan(scenarios, routes)));
      && (AllTrue(results) <==> AllObeyed(e.schema, scenarios))
      && (AllTrue(results) ==>
            && results == PlanResults(scenarios, routes)
            && (NoneMissed(st, e.sim) ==> NoneMissed(now, e.sim)))
    decreases |scenarios|
  {
    hide FleetDeployed, Held, WellFormed, NoneMissed, ReachableObey, ScenarioReplays, BlockResults, Stands,
      ShortestRoutes, RunOne, AllTrue;
    if scenarios == [] {
      NothingTrue();
    } else {
      var n := |scenarios| - 1;
      var front, block := FullPlan(scenarios[..n], routes[..n]), Block(scenarios[n], routes[n]);
      PlanRuns(e, definitions, st, before, fleet, after, scenarios[..n], routes[..n]);
      AsPlannedAppend(front, block);
      RunPlanAppend(e, definitions, st, AsPlanned(front), AsPlanned(block));
      RunPlanKeeps(e, definitions, st, before, fleet, after, AsPlanned(front));
      var (middle, first) := RunPlan(e, definitions, st, AsPlanned(front));
      ScenarioRuns(e, definitions, middle, before, fleet, after, scenarios[n], routes[n]);
      AllTrueAppend(first, RunPlan(e, definitions, middle, AsPlanned(block)).1);
      AllObeyedSnoc(e.schema, scenarios);
    }
  }

  lemma NothingTrue()
    ensures AllTrue([])
  {
  }

  lemma AllObeyedSnoc(schema: Schema, scenarios: Scenarios)
    requires scenarios != []
    ensures var n := |scenarios| - 1;
      AllObeyed(schema, scenarios) <==> AllObeyed(schema, scenarios[..n]) && ReachableObey(schema, scenarios[n].1)
  {
    hide ReachableObey;
    var n := |scenarios| - 1;
    assert forall i | 0 <= i < n :: scenarios[..n][i] == scenarios[i];
  }

  lemma AllTrueAppend(a: seq<CaseResult>, b: seq<CaseResult>)
    ensures AllTrue(a + b) <==> AllTrue(a) && AllTrue(b)
  {
    if AllTrue(a + b) {
      forall i | 0 <= i < |a| ensures a[i].passed { assert (a + b)[i].passed; }
      forall i | 0 <= i < |b| ensures b[i].passed { assert (a + b)[|a| + i].passed; }
    }
  }

  // ------------------------------------------------------- what the results show

  lemma {:induction false} PlanMembers(scenarios: Scenarios, routes: seq<Routes>, r: CaseResult)
    requires |scenarios| == |routes|
    ensures r in PlanResults(scenarios, routes)
      <==> exists i | 0 <= i < |scenarios| :: r in BlockResults(scenarios[i], routes[i])
    decreases |scenarios|
  {
    hide BlockResults;
    if scenarios != [] {
      var n := |scenarios| - 1;
      PlanMembers(scenarios[..n], routes[..n], r);
      if i :| 0 <= i < n && r in BlockResults(scenarios[..n][i], routes[..n][i]) {
        assert r in BlockResults(scenarios[i], routes[i]);
      }
      if i :| 0 <= i < |scenarios| && r in BlockResults(scenarios[i], routes[i]) && i < n {
        assert r in BlockResults(scenarios[..n][i], routes[..n][i]);
      }
    }
  }

  lemma BlockShows(scenario: (string, Definition), routes: Routes, r: CaseResult, state: string)
    requires WellFormed(scenario.1) && ShortestRoutes(scenario.1, routes) && r in BlockResults(scenario, routes)
    ensures r.scenarioId == Some(scenario.0)
    ensures Observes(r, scenario.0, state) ==> Reachable(scenario.1, state)
  {
    hide WellFormed, Reachable, Walk, HandlersOf, ScenarioReplays;
    var (id, d) := scenario;
    var cases := Block(scenario, routes);
    PlanConsistent(id, routes, d.states);
    StatesOwnHandlers(d);
    forall s | s in routes ensures Walk(d, routes[s], s) {
      assert Shortest(d, routes[s], s);
    }
    PlanStartsReachable(d, id, routes, d.states);
    PlanReportsReachable(d, id, cases);
    var i :| 0 <= i < |cases| && PassedCases(cases)[i] == r;
    assert cases[i] in cases;
    var one := map[id := d];
    assert id in one && Observes(PassedCases(cases)[i], id, state) ==> Reachable(one[id], state);
  }

  /** The results show reachable states only. */
  lemma PlanShows(re: FullMatch, before: seq<RuntimeMapping>, fleet: seq<Member>,
                  after: seq<RuntimeMapping>, scenarios: Scenarios, routes: seq<Routes>, r: CaseResult, id: string,
                  state: string)
    requires Validated(re, before, fleet, after, scenarios, routes)
    requires r in PlanResults(scenarios, routes)
    requires id in DefinitionsOf(scenarios) && Observes(r, id, state)
    ensures Reachable(DefinitionsOf(scenarios)[id], state)
  {
    hide WellFormed, ReachableObey, BlockResults, PlanResults, Reachable, DefinitionsOf, ShortestRoutes, Stands;
    PlanMembers(scenarios, routes, r);
    var i :| 0 <= i < |scenarios| && r in BlockResults(scenarios[i], routes[i]);
    BlockShows(scenarios[i], routes[i], r, state);
    DefinitionsAre(scenarios);
  }

  ghost predicate AllReachable(scenarios: Scenarios) {
    forall i | 0 <= i < |scenarios| :: EveryReachable(scenarios[i].1)
  }

  ghost predicate EveryReachable(d: Definition) { forall s | s in StateNames(d) :: Reachable(d, s) }

  lemma BlockCovers(scenario: (string, Definition), routes: Routes)
    requires WellFormed(scenario.1) && ShortestRoutes(scenario.1, routes) && EveryReachable(scenario.1)
    ensures var one, results := map[scenario.0 := scenario.1], BlockResults(scenario, routes);
      && (forall t | t in AllStates(one) :: exists i | 0 <= i < |results| :: Observes(results[i], t.0, t.1))
      && (forall t | t in AllTransitions(one) :: exists i | 0 <= i < |results| :: Performs(results[i], t))
  {
    hide WellFormed, Reachable, ScenarioReplays, PassedCases, CoveredStates, CoveredTransitions, AllStates,
      AllTransitions;
    var (id, d) := scenario;
    AllStatesCovered(d, id, routes);
    var results := BlockResults(scenario, routes);
    forall t | t in AllStates(map[id := d]) ensures exists i | 0 <= i < |results| :: Observes(results[i], t.0, t.1) {
      CoveredStateSource(results, t.0, t.1);
    }
    forall t | t in AllTransitions(map[id := d]) ensures exists i | 0 <= i < |results| :: Performs(results[i], t) {
      CoveredTransitionSource(results, t);
    }
  }

  lemma StateOfOne(scenarios: Scenarios, t: (string, string)) returns (i: nat)
    requires DistinctIds(scenarios) && t in AllStates(DefinitionsOf(scenarios))
    ensures i < |scenarios| && t in AllStates(map[scenarios[i].0 := scenarios[i].1])
  {
    DefinitionsAre(scenarios);
    i :| 0 <= i < |scenarios| && scenarios[i].0 == t.0;
    var k: nat :| k < |scenarios[i].1.states| && t.1 == scenarios[i].1.states[k].name;
    assert scenarios[i].0 in map[scenarios[i].0 := scenarios[i].1];
  }

  lemma TransitionOfOne(scenarios: Scenarios, t: Transition) returns (i: nat)
    requires DistinctIds(scenarios) && t in AllTransitions(DefinitionsOf(scenarios))
    ensures i < |scenarios| && t in AllTransitions(map[scenarios[i].0 := scenarios[i].1])
  {
    DefinitionsAre(scenarios);
    i :| 0 <= i < |scenarios| && scenarios[i].0 == t.0;
    var d := scenarios[i].1;
    assert DefinitionsOf(scenarios)[t.0] == d;
    var k: nat, j: nat :| k < |d.states| && j < |d.states[k].handlers| && d.states[k].handlers[j].newState.Some?
      && t == (t.0, d.states[k].name, d.states[k].handlers[j].name, d.states[k].handlers[j].newState.value);
    assert scenarios[i].0 in map[scenarios[i].0 := d];
  }

  /** And all of them, with every transition. */
  lemma PlanCovers(re: FullMatch, before: seq<RuntimeMapping>, fleet: seq<Member>,
                   after: seq<RuntimeMapping>, scenarios: Scenarios, routes: seq<Routes>)
    requires Validated(re, before, fleet, after, scenarios, routes) && AllReachable(scenarios)
    ensures var definitions, results := DefinitionsOf(scenarios), PlanResults(scenarios, routes);
      AllStates(definitions) <= CoveredStates(results) && AllTransitions(definitions) <= CoveredTransitions(results)
  {
    hide WellFormed, ReachableObey, BlockResults, PlanResults, EveryReachable, DefinitionsOf, ShortestRoutes, Stands,
      AllStates, AllTransitions, CoveredStates, CoveredTransitions;
    var results := PlanResults(scenarios, routes);
    forall t | t in AllStates(DefinitionsOf(scenarios)) ensures t in CoveredStates(results) {
      var i := StateOfOne(scenarios, t);
      BlockCovers(scenarios[i], routes[i]);
      var block := BlockResults(scenarios[i], routes[i]);
      var n :| 0 <= n < |block| && Observes(block[n], t.0, t.1);
      PlanMembers(scenarios, routes, block[n]);
      CoveredStateSource(results, t.0, t.1);
    }
    forall t | t in AllTransitions(DefinitionsOf(scenarios)) ensures t in CoveredTransitions(results) {
      var i := TransitionOfOne(scenarios, t);
      BlockCovers(scenarios[i], routes[i]);
      var block := BlockResults(scenarios[i], routes[i]);
      var n :| 0 <= n < |block| && Performs(block[n], t);
      PlanMembers(scenarios, routes, block[n]);
      CoveredTransitionSource(results, t);
    }
  }

  // ------------------------------------------------------------------- the verdict

  ghost predicate ContractCases(plan: seq<Planned>) { forall i | 0 <= i < |plan| :: plan[i].OfContract? }

  lemma {:induction false} ResultsAppend(a: seq<CaseResult>, b: seq<CaseResult>)
    ensures ScenarioResults(a + b) == ScenarioResults(a) + ScenarioResults(b)
    ensures OtherResults(a + b) == OtherResults(a) + OtherResults(b)
    decreases |b|
  {
    if b == [] {
      assert a + b == a;
    } else {
      var front := b[..|b| - 1];
      assert (a + b)[..|a + b| - 1] == a + front;
      ResultsAppend(a, front);
      ResultsSnoc(a + b);
      ResultsSnoc(b);
      hide ScenarioResults, OtherResults;
    }
  }

  /** Which results are a scenario's. */
  lemma {:induction false} ResultKinds(e: Engine, definitions: Definitions, st: Store, plan: seq<Planned>)
    ensures var results := RunPlan(e, definitions, st, plan).1;
      forall i | 0 <= i < |plan| :: OneKind(results[i]) && (results[i].scenarioId.Some? <==> plan[i].OfScenario?)
    decreases |plan|
  {
    hide Execute, SetState, ScenarioState, PlannedRequest;
    if plan != [] {
      var (now, result) := RunOne(e, definitions, st, plan[0]);
      ResultKinds(e, definitions, now, plan[1..]);
      var results := RunPlan(e, definitions, st, plan).1;
      assert results[1..] == RunPlan(e, definitions, now, plan[1..]).1;
      assert forall i | 1 <= i < |plan| :: results[i] == results[1..][i - 1] && plan[i] == plan[1..][i - 1];
    }
  }

  lemma {:induction false} OnlyScenarios(results: seq<CaseResult>)
    requires forall i | 0 <= i < |results| :: results[i].scenarioId.Some?
    ensures ScenarioResults(results) == results && OtherResults(results) == []
    decreases |results|
  {
    if results != [] {
      OnlyScenarios(results[..|results| - 1]);
    }
  }

  lemma {:induction false} OnlyOthers(results: seq<CaseResult>)
    requires forall i | 0 <= i < |results| :: results[i].scenarioId == None
    ensures ScenarioResults(results) == [] && OtherResults(results) == results
    decreases |results|
  {
    if results != [] {
      OnlyOthers(results[..|results| - 1]);
    }
  }

  lemma {:induction false} CountScenarios(results: seq<CaseResult>)
    ensures ScenarioCases(results) == |ScenarioResults(results)|
    ensures forall r | r in results && r.scenarioId.Some? :: r in ScenarioResults(results)
    decreases |results|
  {
    if results != [] {
      CountScenarios(results[..|results| - 1]);
    }
  }

  /** The results of a whole run: its scenario results are those of the plan, run in the
      middle. */
  lemma RunInParts(e: Engine, definitions: Definitions, st: Store, pre: seq<Planned>, cases: seq<Case>,
                   post: seq<Planned>)
    requires ContractCases(pre) && ContractCases(post)
    ensures var results := RunPlan(e, definitions, st, pre + AsPlanned(cases) + post).1;
      && ScenarioResults(results)
           == RunPlan(e, definitions, RunPlan(e, definitions, st, pre).0, AsPlanned(cases)).1
      && forall i | 0 <= i < |results| :: OneKind(results[i])
  {
    hide RunPlan, ScenarioResults, OtherResults;
    var (a, first) := RunPlan(e, definitions, st, pre);
    var (b, second) := RunPlan(e, definitions, a, AsPlanned(cases));
    var third := RunPlan(e, definitions, b, post).1;
    RunPlanAppend(e, definitions, st, pre, AsPlanned(cases));
    RunPlanAppend(e, definitions, st, pre + AsPlanned(cases), post);
    ResultKinds(e, definitions, st, pre);
    ResultKinds(e, definitions, a, AsPlanned(cases));
    ResultKinds(e, definitions, b, post);
    ResultKinds(e, definitions, st, pre + AsPlanned(cases) + post);
    OnlyOthers(first);
    OnlyScenarios(second);
    OnlyOthers(third);
    ResultsAppend(first, second);
    ResultsAppend(first + second, third);
  }

  lemma ResultsMembers(results: seq<CaseResult>)
    ensures forall r | r in results && r.scenarioId.Some? :: r in ScenarioResults(results)
    ensures ScenarioCases(results) == |ScenarioResults(results)|
  {
    CountScenarios(results);
  }

  /** What the scenario results decide, whatever else was run. */
  lemma ScenariosDecide(schema: Schema, re: FullMatch, before: seq<RuntimeMapping>, fleet: seq<Member>,
                        after: seq<RuntimeMapping>, scenarios: Scenarios, routes: seq<Routes>,
                        results: seq<CaseResult>, missed: nat)
    requires Validated(re, before, fleet, after, scenarios, routes) && |FullPlan(scenarios, routes)| <= 500
    requires |ScenarioResults(results)| == |FullPlan(scenarios, routes)|
    requires forall i | 0 <= i < |results| :: OneKind(results[i])
    requires AllTrue(ScenarioResults(results)) <==> AllObeyed(schema, scenarios)
    requires AllObeyed(schema, scenarios) ==> ScenarioResults(results) == PlanResults(scenarios, routes)
    ensures Passed(results, DefinitionsOf(scenarios), missed)
      <==>
        && AllObeyed(schema, scenarios) && AllReachable(scenarios)
        && AllTrue(OtherResults(results)) && PairsFull(OtherResults(results)) && missed == 0
  {
    hide Validated, AllObeyed, PlanResults, DefinitionsOf, CoveredStates, CoveredTransitions, AllStates, AllTransitions,
      Percentage, ScenarioResults, OtherResults, PairsFull, ScenarioCases, PassedCount, OneKind, Reachable,
      EveryReachable;
    var definitions := DefinitionsOf(scenarios);
    MetricsSplit(results);
    AllPassed(results);
    ResultsMembers(results);
    if Passed(results, definitions, missed) {
      forall i, id, state | 0 <= i < |results| && id in definitions && Observes(results[i], id, state)
        ensures Reachable(definitions[id], state)
      {
        PlanShows(re, before, fleet, after, scenarios, routes, results[i], id, state);
      }
      AllReached(results, scenarios, missed, re, before, fleet, after, routes);
    }
    if AllObeyed(schema, scenarios) && AllReachable(scenarios) {
      PlanCovers(re, before, fleet, after, scenarios, routes);
      FullWhenAll(CoveredStates(results), AllStates(definitions));
      FullWhenAll(CoveredTransitions(results), AllTransitions(definitions));
    }
  }

  lemma AllReached(results: seq<CaseResult>, scenarios: Scenarios, missed: nat, re: FullMatch,
                   before: seq<RuntimeMapping>, fleet: seq<Member>, after: seq<RuntimeMapping>, routes: seq<Routes>)
    requires Validated(re, before, fleet, after, scenarios, routes)
    requires Passed(results, DefinitionsOf(scenarios), missed) && ScenarioCases(results) <= 500
    requires ReportsReachable(results, DefinitionsOf(scenarios))
    ensures AllReachable(scenarios)
  {
    DefinitionsAre(scenarios);
    hide Passed, ScenarioCases, ReportsReachable, DefinitionsOf, Stands, WellFormed, ShortestRoutes, Reachable,
      StateNames;
    forall i | 0 <= i < |scenarios| ensures EveryReachable(scenarios[i].1) {
      PassedReachesAll(results, DefinitionsOf(scenarios), missed, scenarios[i].0);
    }
  }

  /** The report on a simulation passes exactly when every declared state of every scenario
      can be reached, every handler of every reachable state, sent its own request, answers
      and moves as it promises, the other cases passed and covered their pairs, and no
      unmatched request is left in the journal. */
  lemma SimulationPassesIff(e: Engine, st: Store, before: seq<RuntimeMapping>, fleet: seq<Member>,
                            after: seq<RuntimeMapping>, scenarios: Scenarios, routes: seq<Routes>,
                            pre: seq<Planned>, post: seq<Planned>)
    requires FleetDeployed(st, e.sim, before, fleet, after)
    requires Validated(e.re, before, fleet, after, scenarios, routes) && |FullPlan(scenarios, routes)| <= 500
    requires ContractCases(pre) && ContractCases(post)
    ensures var plan := pre + AsPlanned(FullPlan(scenarios, routes)) + post;
      var (now, results) := RunPlan(e, DefinitionsOf(scenarios), st, plan);
      Passed(results, DefinitionsOf(scenarios), Missed(now, e.sim))
      <==>
        && AllObeyed(e.schema, scenarios) && AllReachable(scenarios)
        && AllTrue(OtherResults(results)) && PairsFull(OtherResults(results)) && Missed(now, e.sim) == 0
  {
    var definitions, cases := DefinitionsOf(scenarios), FullPlan(scenarios, routes);
    DefinitionsAre(scenarios);
    hide DefinitionsOf, FleetDeployed, RunPlan, Passed, AllObeyed, AllReachable, AllTrue, OtherResults, ScenarioResults,
      PairsFull, Missed, FullPlan, WellFormed, ShortestRoutes, Stands, ContractCases, NoneMissed, OneKind;
    ValidatedHeld(e.re, before, fleet, after, scenarios, routes);
    RunPlanKeeps(e, definitions, st, before, fleet, after, pre);
    PlanRuns(e, definitions, RunPlan(e, definitions, st, pre).0, before, fleet, after, scenarios, routes);
    RunInParts(e, definitions, st, pre, cases, post);
    var (now, results) := RunPlan(e, definitions, st, pre + AsPlanned(cases) + post);
    ScenariosDecide(e.schema, e.re, before, fleet, after, scenarios, routes, results, Missed(now, e.sim));
  }

  // ---------------------------------------------------- from the definitions alone

  ghost predicate EveryServed(schema: Schema, scenarios: Scenarios) {
    forall i | 0 <= i < |scenarios| :: AllServed(schema, scenarios[i].1)
  }

  lemma ServedIff(schema: Schema, st: Store, re: FullMatch, sim: string, before: seq<RuntimeMapping>,
                  fleet: seq<Member>, after: seq<RuntimeMapping>, scenarios: Scenarios, routes: seq<Routes>)
    requires FleetDeployed(st, sim, before, fleet, after) && AllReachable(scenarios)
    requires Validated(re, before, fleet, after, scenarios, routes)
    ensures AllObeyed(schema, scenarios) <==> EveryServed(schema, scenarios)
  {
    hide FleetDeployed, Unrivalled, WellFormed, NoClashes, ReachableObey, AllServed, ShortestRoutes, StateNames,
      Reachable;
    forall i | 0 <= i < |scenarios|
      ensures ReachableObey(schema, scenarios[i].1) <==> AllServed(schema, scenarios[i].1)
    {
      assert Stands(re, before, fleet, after, scenarios[i]) && EveryReachable(scenarios[i].1);
      var k: nat :| k < |fleet| && IsMember(fleet, k, scenarios[i]);
      InitialNamed(st, sim, before, fleet, after, k);
      AllServedIff(schema, scenarios[i].1);
    }
  }

  lemma ResetJournal(st: Store, sim: string)
    ensures NoneMissed(ResetRuntime(st, Some(sim)), sim)
  {
    DropMembers(st.events, Owned(sim));
  }

  /** With the runtime reset first and no cases but those of the scenarios, the verdict
      follows from the definitions: it is passed exactly when every declared state can be
      reached and the first handler to take a planned request serves it as promised. */
  lemma ResetRunPassesIff(e: Engine, st: Store, before: seq<RuntimeMapping>, fleet: seq<Member>,
                          after: seq<RuntimeMapping>, scenarios: Scenarios, routes: seq<Routes>)
    requires FleetDeployed(st, e.sim, before, fleet, after)
    requires Validated(e.re, before, fleet, after, scenarios, routes) && |FullPlan(scenarios, routes)| <= 500
    ensures var start := ResetRuntime(st, Some(e.sim));
      var (now, results) := RunPlan(e, DefinitionsOf(scenarios), start, AsPlanned(FullPlan(scenarios, routes)));
      Passed(results, DefinitionsOf(scenarios), Missed(now, e.sim))
      <==> AllReachable(scenarios) && EveryServed(e.schema, scenarios)
  {
    var start, plan := ResetRuntime(st, Some(e.sim)), AsPlanned(FullPlan(scenarios, routes));
    var definitions := DefinitionsOf(scenarios);
    DefinitionsAre(scenarios);
    hide Missed, RunPlan, Passed, WellFormed, ShortestRoutes, Stands, FleetDeployed, ResetRuntime, NoneMissed, AllTrue,
      PairsFull;
    ResetKeepsFleet(st, e.sim, before, fleet, after);
    ResetJournal(st, e.sim);
    assert [] + plan + [] == plan;
    hide DefinitionsOf, AllObeyed, AllReachable, OtherResults, ScenarioResults, FullPlan, EveryServed;
    ValidatedHeld(e.re, before, fleet, after, scenarios, routes);
    SimulationPassesIff(e, start, before, fleet, after, scenarios, routes, [], []);
    PlanRuns(e, definitions, start, before, fleet, after, scenarios, routes);
    var (now, results) := RunPlan(e, definitions, start, plan);
    OnlyPlanned(e, definitions, start, FullPlan(scenarios, routes));
    MissedNone(now, e.sim);
    if AllReachable(scenarios) {
      ServedIff(e.schema, st, e.re, e.sim, before, fleet, after, scenarios, routes);
    }
  }

  lemma OnlyPlanned(e: Engine, definitions: Definitions, st: Store, cases: seq<Case>)
    ensures var others := OtherResults(RunPlan(e, definitions, st, AsPlanned(cases)).1);
      AllTrue(others) && PairsFull(others)
  {
    hide RunPlan, ScenarioResults, OtherResults, CoveredPairs, PairTotals;
    var plan := AsPlanned(cases);
    var (now, results) := RunPlan(e, definitions, st, plan);
    ResultKinds(e, definitions, st, plan);
    forall i | 0 <= i < |results| ensures results[i].scenarioId.Some? {
      assert plan[i] == OfScenario(cases[i]);
    }
    OnlyScenarios(results);
    NoPairsAtAll();
  }

  lemma NoPairsAtAll()
    ensures PairsFull([])
  {
    NothingToCover();
    Sorting.SortedTextsMembers({});
    assert forall t :: t !in Sorting.SortedTexts({});
    assert Sorting.SortedTexts({}) == [];
    assert PairTotals([]).Keys == {};
    assert PairTotal([]) == 0;
  }

  // -------------------------------------------------- what the hypothesis is about

  /** Only less urgent mappings before the scenarios and no more urgent ones behind them
      never preempt a planned request. */
  lemma LessUrgentPreemptNothing(re: FullMatch, before: seq<RuntimeMapping>, after: seq<RuntimeMapping>, h: Handler)
    requires forall m | m in before :: m.priority > 1
    requires forall m | m in after :: m.priority >= 1
    ensures NothingPreempts(re, before, after, h)
  {
    hide Preempted, PlannedRequest;
    forall states ensures !Preempted(re, states, before, after, PlannedRequest(h)) {
      LessUrgentNeverPreempt(re, states, before, after, PlannedRequest(h));
    }
  }

  /** A case fails when another scenario or mapping takes its request and its handler was
      to move. */
  lemma TakenCaseFails(e: Engine, st: Store, before: seq<RuntimeMapping>, fleet: seq<Member>,
                       after: seq<RuntimeMapping>, k: nat, c: Case)
    requires FleetDeployed(st, e.sim, before, fleet, after) && k < |fleet| && fleet[k].scenario == c.scenarioId
    requires c.newState.Some? && c.newState.value != c.requiredState
    requires var ready, req := Ready(e, st, fleet[k], c), PlannedRequest(c.handler);
      || FirstReady(ready.states, e.sim, fleet, req) != Some(k)
      || Preempted(e.re, ready.states, before, after, req)
    ensures !RunScenarioCase(e, fleet[k].definition, st, c).1.passed
  {
    hide FleetDeployed, PlannedRequest, FirstReady, Preempted, Execute, SetState, StateOf, ScenarioState, Ready, Start;
    var ready, req := Ready(e, st, fleet[k], c), PlannedRequest(c.handler);
    ReadyStarts(e, st, before, fleet, after, k, c);
    CaseOnReady(e, st, fleet[k], c);
    TakenStays(e, ready, before, fleet, after, req, k);
  }

  lemma TakenStays(e: Engine, st: Store, before: seq<RuntimeMapping>, fleet: seq<Member>, after: seq<RuntimeMapping>,
                   req: Request, k: nat)
    requires FleetDeployed(st, e.sim, before, fleet, after) && k < |fleet|
    requires FirstReady(st.states, e.sim, fleet, req) != Some(k) || Preempted(e.re, st.states, before, after, req)
    ensures var name := ScenarioName(e.sim, fleet[k].scenario);
      var result := Execute(e.re, e.limit, st, e.sim, req);
      result.Some? && ScenarioState(result.value.0, name) == ScenarioState(st, name)
  {
    hide FleetMappings, WellFormed, NoClashes, Foreign, Registered, Execute, FirstReady, Preempted, Step, BestMapping,
      MemberSound, StateOf;
    var ready := FirstReady(st.states, e.sim, fleet, req);
    InitialNamed(st, e.sim, before, fleet, after, k);
    if ready.Some? && !Preempted(e.re, st.states, before, after, req) {
      ReadySteps(e.re, e.limit, st, e.sim, before, fleet, after, req, ready.value);
      InitialNamed(st, e.sim, before, fleet, after, ready.value);
      NamesDiffer(e.sim, fleet[k].scenario, fleet[ready.value].scenario);
    } else {
      NoneReadyStays(e.re, e.limit, st, e.sim, before, fleet, after, req);
      assert SameState(st, Execute(e.re, e.limit, st, e.sim, req).value.0, ScenarioName(e.sim, fleet[k].scenario));
    }
  }
}
