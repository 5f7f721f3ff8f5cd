/** Coverage, rounding and the verdict of an evidence report. */
module Evidence {
  import opened Wrappers
  import opened Json
  import opened RuntimeModel
  import opened RuntimeSemantics
  import opened Scenario
  import opened Planner
  import opened ValidationPlan
  import opened Diagnostics
  import opened Sorting

  datatype CaseResult = CaseResult(
    scenarioId: Option<string>,
    handler: string,
    requiredState: string,
    newState: Option<string>,
    before: Option<string>,
    after: Option<string>,
    pairwise: Option<PairwiseInfo>,
    passed: bool)

  /** What a pairwise case covers, and how many pairs its operation has. */
  datatype PairwiseInfo = PairwiseInfo(operation: string, pairIds: set<string>, total: nat)

  type Definitions = map<string, Definition>

  // ------------------------------------------------------------------- percentages

  /** Python's `round`: to the nearest integer, ties to even. */
  function RoundHalfEven(y: real): int {
    var whole := y.Floor;
    var rest := y - whole as real;
    if rest < 0.5 then whole
    else if rest > 0.5 then whole + 1
    else if whole % 2 == 0 then whole else whole + 1
  }

  /** `round(covered / total * 100, 2)`, and 100 when there is nothing to cover. */
  function Percentage(covered: nat, total: nat): real {
    if total == 0 then 100.0
    else RoundHalfEven(covered as real / total as real * 100.0 * 100.0) as real / 100.0
  }

  lemma RoundsToTenThousand(y: real)
    ensures RoundHalfEven(y) == 10000 <==> 9999.5 <= y <= 10000.5
  {
  }

  lemma TimesPositive(a: real, b: real, t: real)
    requires t > 0.0
    ensures a <= b <==> a * t <= b * t
  {
  }

  lemma RatioTimes(c: real, t: real)
    requires t > 0.0
    ensures c / t * 100.0 * 100.0 * t == 10000.0 * c
  {
    var ratio := c / t;
    assert ratio * t == c;
    assert ratio * 100.0 * 100.0 * t == 10000.0 * (ratio * t);
  }

  lemma RealBounds(y: real, c: real, t: real)
    requires t > 0.0 && y * t == 10000.0 * c && c <= t
    ensures y <= 10000.0 && (9999.5 <= y <==> 19999.0 * t <= 20000.0 * c)
  {
    TimesPositive(y, 10000.0, t);
    TimesPositive(9999.5, y, t);
  }

  lemma ScaledRatio(covered: nat, total: nat)
    requires total > 0 && covered <= total
    ensures var y := covered as real / total as real * 100.0 * 100.0;
      y <= 10000.0 && (9999.5 <= y <==> 19999 * total <= 20000 * covered)
  {
    RatioTimes(covered as real, total as real);
    RealBounds(covered as real / total as real * 100.0 * 100.0, covered as real, total as real);
    assert 19999.0 * total as real == (19999 * total) as real && 20000.0 * covered as real == (20000 * covered) as real;
  }

  /** The rounded percentage is 100 exactly when at most one in 20000 is missing. */
  lemma FullPercentageIff(covered: nat, total: nat)
    requires covered <= total
    ensures Percentage(covered, total) == 100.0 <==> 20000 * (total - covered) <= total
  {
    if total > 0 {
      RoundsToTenThousand(covered as real / total as real * 100.0 * 100.0);
      ScaledRatio(covered, total);
    }
  }

  /** Two decimals tell full coverage apart for every count, exactly below 20000. */
  lemma RoundingExactIff(total: nat)
    requires total > 0
    ensures (forall covered: nat | covered <= total :: Percentage(covered, total) == 100.0 <==> covered == total)
      <==> total < 20000
  {
    forall covered: nat | covered <= total
      ensures Percentage(covered, total) == 100.0 <==> 20000 * (total - covered) <= total
    {
      FullPercentageIff(covered, total);
    }
    if total >= 20000 {
      var covered: nat := total - 1;
      FullPercentageIff(covered, total);
      assert Percentage(covered, total) == 100.0;
    }
  }

  // --------------------------------------------------------------------- coverage

  function AllStates(definitions: Definitions): set<(string, string)> {
    set id, i: nat | id in definitions && i < |definitions[id].states| :: (id, definitions[id].states[i].name)
  }

  function ObservedState(r: CaseResult, state: Option<string>): set<(string, string)> {
    if r.scenarioId.Some? && r.passed && state.Some? then {(r.scenarioId.value, state.value)} else {}
  }

  /** The states passing scenario cases were observed in, before or after. */
  function CoveredStates(results: seq<CaseResult>): set<(string, string)> {
    if results == [] then {} else
      var r := results[|results| - 1];
      CoveredStates(results[..|results| - 1]) + ObservedState(r, r.before) + ObservedState(r, r.after)
  }

  type Transition = (string, string, string, string)

  function AllTransitions(definitions: Definitions): set<Transition> {
    set id, i: nat, j: nat |
      id in definitions && i < |definitions[id].states| && j < |definitions[id].states[i].handlers|
      && definitions[id].states[i].handlers[j].newState.Some? ::
      (id, definitions[id].states[i].name, definitions[id].states[i].handlers[j].name,
       definitions[id].states[i].handlers[j].newState.value)
  }

  predicate Exercises(r: CaseResult) {
    r.scenarioId.Some? && r.newState.Some? && r.passed && r.after == r.newState
  }

  function ExercisedBy(r: CaseResult): set<Transition> {
    if Exercises(r) then {(r.scenarioId.value, r.requiredState, r.handler, r.newState.value)} else {}
  }

  function CoveredTransitions(results: seq<CaseResult>): set<Transition> {
    if results == [] then {} else
      var r := results[|results| - 1];
      CoveredTransitions(results[..|results| - 1]) + ExercisedBy(r)
  }

  function PassedCount(results: seq<CaseResult>): nat {
    if results == [] then 0 else
      PassedCount(results[..|results| - 1]) + if results[|results| - 1].passed then 1 else 0
  }

  function ScenarioCases(results: seq<CaseResult>): nat {
    if results == [] then 0 else
      ScenarioCases(results[..|results| - 1]) + if results[|results| - 1].scenarioId.Some? then 1 else 0
  }

  /** The pair ids of passing pairwise cases. */
  function CoveredPairs(results: seq<CaseResult>): set<string> {
    if results == [] then {} else
      var r := results[|results| - 1];
      CoveredPairs(results[..|results| - 1]) + if r.pairwise.Some? && r.passed then r.pairwise.value.pairIds else {}
  }

  /** The largest total reported for each operation. */
  function PairTotals(results: seq<CaseResult>): map<string, nat> {
    if results == [] then map[] else
      var totals := PairTotals(results[..|results| - 1]);
      match results[|results| - 1].pairwise
      case None => totals
      case Some(info) =>
        var known := if info.operation in totals then totals[info.operation] else 0;
        totals[info.operation := if known >= info.total then known else info.total]
  }

  function SumAt(totals: map<string, nat>, keys: seq<string>): nat
    requires forall k | k in keys :: k in totals
  {
    if keys == [] then 0 else SumAt(totals, keys[..|keys| - 1]) + totals[keys[|keys| - 1]]
  }

  function PairTotal(results: seq<CaseResult>): nat {
    var totals := PairTotals(results);
    SortedTextsMembers(totals.Keys);
    SumAt(totals, SortedTexts(totals.Keys))
  }

  predicate PairsFull(results: seq<CaseResult>) { Percentage(|CoveredPairs(results)|, PairTotal(results)) == 100.0 }

  predicate StatesFull(results: seq<CaseResult>, definitions: Definitions) {
    Percentage(|CoveredStates(results) * AllStates(definitions)|, |AllStates(definitions)|) == 100.0
  }

  predicate TransitionsFull(results: seq<CaseResult>, definitions: Definitions) {
    Percentage(|CoveredTransitions(results) * AllTransitions(definitions)|, |AllTransitions(definitions)|) == 100.0
  }

  /** The report's status. */
  predicate Passed(results: seq<CaseResult>, definitions: Definitions, unmatched: nat) {
    && PassedCount(results) == |results|
    && unmatched == 0
    && StatesFull(results, definitions)
    && TransitionsFull(results, definitions)
    && PairsFull(results)
  }

  // ------------------------------------------------------------------- soundness

  lemma {:induction false} AllPassed(results: seq<CaseResult>)
    ensures PassedCount(results) <= |results|
    ensures PassedCount(results) == |results| <==> forall i | 0 <= i < |results| :: results[i].passed
    decreases |results|
  {
    if results != [] {
      AllPassed(results[..|results| - 1]);
    }
  }

  lemma {:induction false} CoveredStatesFew(results: seq<CaseResult>)
    ensures |CoveredStates(results)| <= 2 * ScenarioCases(results)
    decreases |results|
  {
    if results != [] {
      CoveredStatesFew(results[..|results| - 1]);
    }
  }

  lemma {:induction false} CoveredTransitionsFew(results: seq<CaseResult>)
    ensures |CoveredTransitions(results)| <= ScenarioCases(results)
    decreases |results|
  {
    if results != [] {
      CoveredTransitionsFew(results[..|results| - 1]);
    }
  }

  predicate Observes(r: CaseResult, id: string, state: string) {
    r.scenarioId == Some(id) && r.passed && (r.before == Some(state) || r.after == Some(state))
  }

  /** A passing case that ended where its handler leads. */
  predicate Performs(r: CaseResult, t: Transition) {
    && r.scenarioId == Some(t.0) && r.requiredState == t.1 && r.handler == t.2 && r.newState == Some(t.3)
    && r.passed && r.after == Some(t.3)
  }

  lemma {:induction false} CoveredStateSource(results: seq<CaseResult>, id: string, state: string)
    ensures (id, state) in CoveredStates(results) <==> exists i | 0 <= i < |results| :: Observes(results[i], id, state)
    decreases |results|
  {
    if results != [] {
      var front := results[..|results| - 1];
      CoveredStateSource(front, id, state);
      assert forall i | 0 <= i < |front| :: front[i] == results[i];
      assert (exists i | 0 <= i < |front| :: Observes(front[i], id, state))
        ==> exists i | 0 <= i < |results| :: Observes(results[i], id, state);
    }
  }

  lemma {:induction false} CoveredTransitionSource(results: seq<CaseResult>, t: Transition)
    ensures t in CoveredTransitions(results) <==> exists i | 0 <= i < |results| :: Performs(results[i], t)
    decreases |results|
  {
    if results != [] {
      var front := results[..|results| - 1];
      CoveredTransitionSource(front, t);
      assert forall i | 0 <= i < |front| :: front[i] == results[i];
      assert (exists i | 0 <= i < |front| :: Performs(front[i], t))
        ==> exists i | 0 <= i < |results| :: Performs(results[i], t);
    }
  }

  predicate CoversPair(r: CaseResult, id: string) { r.passed && r.pairwise.Some? && id in r.pairwise.value.pairIds }

  /** The covered pairs are those of passing pairwise cases. */
  lemma {:induction false} CoveredPairSource(results: seq<CaseResult>, id: string)
    ensures id in CoveredPairs(results) <==> exists i | 0 <= i < |results| :: CoversPair(results[i], id)
    decreases |results|
  {
    if results != [] {
      var front := results[..|results| - 1];
      CoveredPairSource(front, id);
      assert forall i | 0 <= i < |front| :: front[i] == results[i];
      assert (exists i | 0 <= i < |front| :: CoversPair(front[i], id))
        ==> exists i | 0 <= i < |results| :: CoversPair(results[i], id);
    }
  }

  predicate Totals(r: CaseResult, operation: string, total: nat) {
    r.pairwise.Some? && r.pairwise.value.operation == operation && r.pairwise.value.total == total
  }

  /** An operation's total is the largest any of its cases reports. */
  lemma {:induction false} PairTotalSource(results: seq<CaseResult>, operation: string)
    ensures operation in PairTotals(results) ==>
      var most := PairTotals(results)[operation];
      (most == 0 || exists i | 0 <= i < |results| :: Totals(results[i], operation, most))
    ensures forall i, total | 0 <= i < |results| && Totals(results[i], operation, total) ::
      operation in PairTotals(results) && total <= PairTotals(results)[operation]
    decreases |results|
  {
    if results != [] {
      var front := results[..|results| - 1];
      PairTotalSource(front, operation);
      assert forall i | 0 <= i < |front| :: front[i] == results[i];
      if operation in PairTotals(front) {
        var most := PairTotals(front)[operation];
        if i: nat :| i < |front| && Totals(front[i], operation, most) {
          assert Totals(results[i], operation, most);
        }
      }
    }
  }

  lemma SubsetSize<T>(a: set<T>, b: set<T>)
    requires a <= b
    ensures |a| <= |b|
    ensures |a| == |b| ==> a == b
  {
    assert b == a + (b - a);
    if |a| == |b| {
      assert |b - a| == 0;
    }
  }

  lemma FewMeansAll<T>(covered: set<T>, all: set<T>)
    requires |covered| <= 1000 && Percentage(|covered * all|, |all|) == 100.0
    ensures all <= covered
  {
    SubsetSize(covered * all, covered);
    SubsetSize(covered * all, all);
    FullPercentageIff(|covered * all|, |all|);
  }

  lemma AllStatesShown(results: seq<CaseResult>, definitions: Definitions)
    requires StatesFull(results, definitions) && ScenarioCases(results) <= 500
    ensures forall t | t in AllStates(definitions) :: exists i | 0 <= i < |results| :: Observes(results[i], t.0, t.1)
  {
    hide AllStates, CoveredStates, Percentage, ScenarioCases;
    CoveredStatesFew(results);
    FewMeansAll(CoveredStates(results), AllStates(definitions));
    forall t | t in AllStates(definitions) ensures exists i | 0 <= i < |results| :: Observes(results[i], t.0, t.1) {
      CoveredStateSource(results, t.0, t.1);
    }
  }

  lemma AllTransitionsShown(results: seq<CaseResult>, definitions: Definitions)
    requires TransitionsFull(results, definitions) && ScenarioCases(results) <= 500
    ensures forall t | t in AllTransitions(definitions) :: exists i | 0 <= i < |results| :: Performs(results[i], t)
  {
    hide AllTransitions, CoveredTransitions, Percentage, ScenarioCases;
    CoveredTransitionsFew(results);
    FewMeansAll(CoveredTransitions(results), AllTransitions(definitions));
    forall t | t in AllTransitions(definitions) ensures exists i | 0 <= i < |results| :: Performs(results[i], t) {
      CoveredTransitionSource(results, t);
    }
  }

  /** A passing report with at most 500 scenario cases, whatever other cases it has: every
      case passed, every declared state and transition was exercised by one of them, and
      with fewer than 20000 pairs in all none is missing. */
  lemma VerdictSound(results: seq<CaseResult>, definitions: Definitions, unmatched: nat)
    requires Passed(results, definitions, unmatched) && ScenarioCases(results) <= 500
    ensures unmatched == 0
    ensures forall i | 0 <= i < |results| :: results[i].passed
    ensures forall t | t in AllStates(definitions) :: exists i | 0 <= i < |results| :: Observes(results[i], t.0, t.1)
    ensures forall t | t in AllTransitions(definitions) :: exists i | 0 <= i < |results| :: Performs(results[i], t)
    ensures |CoveredPairs(results)| <= PairTotal(results) < 20000 ==> |CoveredPairs(results)| == PairTotal(results)
  {
    hide StatesFull, TransitionsFull, PairsFull, AllStates, AllTransitions, ScenarioCases, PassedCount, CoveredPairs,
      PairTotal, Observes, Performs;
    AllPassed(results);
    AllStatesShown(results, definitions);
    AllTransitionsShown(results, definitions);
    if |CoveredPairs(results)| <= PairTotal(results) < 20000 {
      PairsExact(results);
    }
  }

  lemma PairsExact(results: seq<CaseResult>)
    requires PairsFull(results) && |CoveredPairs(results)| <= PairTotal(results) < 20000
    ensures |CoveredPairs(results)| == PairTotal(results)
  {
    FullPercentageIff(|CoveredPairs(results)|, PairTotal(results));
  }

  /** The runtime only ever showed states that handlers can reach. */
  ghost predicate ReportsReachable(results: seq<CaseResult>, definitions: Definitions) {
    forall i, id, state | 0 <= i < |results| && id in definitions && Observes(results[i], id, state) ::
      Reachable(definitions[id], state)
  }

  lemma PassedReachesAll(results: seq<CaseResult>, definitions: Definitions, unmatched: nat, id: string)
    requires Passed(results, definitions, unmatched) && ScenarioCases(results) <= 500
    requires ReportsReachable(results, definitions) && id in definitions
    ensures forall state | state in StateNames(definitions[id]) :: Reachable(definitions[id], state)
  {
    VerdictSound(results, definitions, unmatched);
    forall state | state in StateNames(definitions[id]) ensures Reachable(definitions[id], state) {
      assert (id, state) in AllStates(definitions);
      var i :| 0 <= i < |results| && Observes(results[i], id, state);
    }
  }

  /** On such a runtime, a state the diagnostics flag as unreachable forces failure. */
  lemma UnreachableForcesFailure(results: seq<CaseResult>, definitions: Definitions, unmatched: nat,
                                 id: string, state: string)
    requires ScenarioCases(results) <= 500 && ReportsReachable(results, definitions)
    requires id in definitions
    requires UnreachableState(state) in AllDiagnostics(definitions[id].states, ReachableStates(definitions[id]))
    ensures !Passed(results, definitions, unmatched)
  {
    FlaggedUnreachable(definitions[id].states, ReachableStates(definitions[id]), state);
    if Passed(results, definitions, unmatched) {
      PassedReachesAll(results, definitions, unmatched, id);
    }
  }

  // ------------------------------------------------ the results of passing cases

  /** What a passing case of a scenario shows. */
  function PassedCase(c: Case): CaseResult {
    CaseResult(
      Some(c.scenarioId), c.handler.name, c.requiredState, c.newState, Some(c.requiredState),
      Some(c.newState.GetOr(c.requiredState)), None, true)
  }

  function PassedCases(cases: seq<Case>): (results: seq<CaseResult>)
    ensures |results| == |cases|
  {
    seq(|cases|, i requires 0 <= i < |cases| => PassedCase(cases[i]))
  }

  ghost predicate AllTrue(results: seq<CaseResult>) { forall i | 0 <= i < |results| :: results[i].passed }

  /** The cases name the target their handler moves to. */
  ghost predicate Consistent(cases: seq<Case>) {
    forall i | 0 <= i < |cases| :: cases[i].newState == cases[i].handler.newState
  }

  lemma {:induction false} HandlerPlanned(id: string, route: Path, state: string, handlers: seq<Handler>, h: Handler)
    requires h in handlers
    ensures exists c | c in HandlerReplays(id, route, state, handlers) :: c.requiredState == state && c.handler == h
    decreases |handlers|
  {
    var front, last := handlers[..|handlers| - 1], handlers[|handlers| - 1];
    if h in front {
      HandlerPlanned(id, route, state, front, h);
    } else {
      var r := HandlerReplay(id, route, state, last);
      assert r[|route|] in HandlerReplays(id, route, state, handlers);
    }
  }

  /** Every handler of a state with a route has a case of its own. */
  lemma {:induction false} StatePlanned(id: string, routes: Routes, states: seq<State>, k: nat, h: Handler)
    requires k < |states| && states[k].name in routes && h in states[k].handlers
    ensures exists c | c in ScenarioReplays(id, routes, states) :: c.requiredState == states[k].name && c.handler == h
    decreases |states|
  {
    hide HandlerReplays;
    if k < |states| - 1 {
      StatePlanned(id, routes, states[..|states| - 1], k, h);
    } else {
      HandlerPlanned(id, routes[states[k].name], states[k].name, states[k].handlers, h);
    }
  }

  lemma {:induction false} PlanConsistent(id: string, routes: Routes, states: seq<State>)
    ensures Consistent(ScenarioReplays(id, routes, states))
    ensures forall c | c in ScenarioReplays(id, routes, states) :: c.scenarioId == id
    decreases |states|
  {
    if states != [] {
      PlanConsistent(id, routes, states[..|states| - 1]);
      var last := states[|states| - 1];
      if last.name in routes {
        HandlersConsistent(id, routes[last.name], last.name, last.handlers);
      }
    }
  }

  lemma {:induction false} HandlersConsistent(id: string, route: Path, state: string, handlers: seq<Handler>)
    ensures Consistent(HandlerReplays(id, route, state, handlers))
    ensures forall c | c in HandlerReplays(id, route, state, handlers) :: c.scenarioId == id
    decreases |handlers|
  {
    if handlers != [] {
      HandlersConsistent(id, route, state, handlers[..|handlers| - 1]);
    }
  }

  ghost predicate StartsReachable(d: Definition, cases: seq<Case>) {
    forall i | 0 <= i < |cases| ::
      Reachable(d, cases[i].requiredState) && cases[i].handler in HandlersOf(d, cases[i].requiredState)
  }

  lemma {:induction false} HandlersStartReachable(d: Definition, id: string, route: Path, state: string,
                                                  handlers: seq<Handler>)
    requires Walk(d, route, state) && forall h | h in handlers :: h in HandlersOf(d, state)
    ensures StartsReachable(d, HandlerReplays(id, route, state, handlers))
    decreases |handlers|
  {
    hide Walk, HandlersOf, Reachable, HandlerReplay;
    if handlers != [] {
      HandlersStartReachable(d, id, route, state, handlers[..|handlers| - 1]);
      ReplayChains(d, id, route, state, handlers[|handlers| - 1]);
    }
  }

  /** Every planned case starts in a reachable state that has its handler. */
  lemma {:induction false} PlanStartsReachable(d: Definition, id: string, routes: Routes, states: seq<State>)
    requires forall s | s in routes :: Walk(d, routes[s], s)
    requires forall i | 0 <= i < |states| :: HandlersOf(d, states[i].name) == states[i].handlers
    ensures StartsReachable(d, ScenarioReplays(id, routes, states))
    decreases |states|
  {
    hide Walk, HandlersOf, Reachable, HandlerReplays;
    if states != [] {
      var last := states[|states| - 1];
      PlanStartsReachable(d, id, routes, states[..|states| - 1]);
      if last.name in routes {
        HandlersStartReachable(d, id, routes[last.name], last.name, last.handlers);
      }
    }
  }

  lemma PlanReportsReachable(d: Definition, id: string, cases: seq<Case>)
    requires Consistent(cases) && StartsReachable(d, cases)
    ensures ReportsReachable(PassedCases(cases), map[id := d])
  {
    hide Reachable, HandlersOf;
    var results := PassedCases(cases);
    forall i, other, state | 0 <= i < |results| && other in map[id := d] && Observes(results[i], other, state)
      ensures Reachable(d, state)
    {
      var c := cases[i];
      assert Reachable(d, c.requiredState) && c.handler in HandlersOf(d, c.requiredState);
      if c.newState.Some? {
        HandlerReaches(d, c.requiredState, c.handler);
      }
    }
  }

  lemma FullWhenAll<T>(covered: set<T>, all: set<T>)
    requires all <= covered
    ensures Percentage(|covered * all|, |all|) == 100.0
  {
    assert covered * all == all;
    FullPercentageIff(|all|, |all|);
  }

  /** A case of its own for every handler of every declared, reachable state. */
  lemma PlannedResult(d: Definition, id: string, routes: Routes, k: nat, h: Handler)
    requires k < |d.states| && d.states[k].name in routes && h in d.states[k].handlers
    ensures var results, state := PassedCases(ScenarioReplays(id, routes, d.states)), d.states[k].name;
      exists i | 0 <= i < |results| ::
        results[i] == CaseResult(Some(id), h.name, state, h.newState, Some(state), Some(h.newState.GetOr(state)),
          None, true)
  {
    hide ScenarioReplays;
    var cases := ScenarioReplays(id, routes, d.states);
    StatePlanned(id, routes, d.states, k, h);
    PlanConsistent(id, routes, d.states);
    var i :| 0 <= i < |cases| && cases[i].requiredState == d.states[k].name && cases[i].handler == h;
    assert cases[i] in cases && PassedCases(cases)[i] == PassedCase(cases[i]);
  }

  lemma AllStatesCovered(d: Definition, id: string, routes: Routes)
    requires WellFormed(d) && forall s | s in StateNames(d) :: s in routes
    ensures var results := PassedCases(ScenarioReplays(id, routes, d.states));
      AllStates(map[id := d]) <= CoveredStates(results) && AllTransitions(map[id := d]) <= CoveredTransitions(results)
  {
    hide WellFormed, ScenarioReplays, PassedCases, CoveredStates, CoveredTransitions;
    var results := PassedCases(ScenarioReplays(id, routes, d.states));
    StatesOwnHandlers(d);
    forall t | t in AllStates(map[id := d]) ensures t in CoveredStates(results) {
      var k: nat :| k < |d.states| && d.states[k].name == t.1;
      PlannedResult(d, id, routes, k, d.states[k].handlers[0]);
      CoveredStateSource(results, id, t.1);
    }
    forall t | t in AllTransitions(map[id := d]) ensures t in CoveredTransitions(results) {
      var k: nat, j: nat :| k < |d.states| && j < |d.states[k].handlers|
        && d.states[k].handlers[j].newState.Some?
        && t == (id, d.states[k].name, d.states[k].handlers[j].name, d.states[k].handlers[j].newState.value);
      PlannedResult(d, id, routes, k, d.states[k].handlers[j]);
      CoveredTransitionSource(results, t);
    }
  }

  // ------------------------------------------------------- next to other cases

  /** The result of a scenario case, or of a case of another kind. */
  predicate OneKind(r: CaseResult) { r.scenarioId.Some? ==> r.pairwise == None }

  function ScenarioResults(results: seq<CaseResult>): seq<CaseResult> {
    if results == [] then [] else
      ScenarioResults(results[..|results| - 1])
      + if results[|results| - 1].scenarioId.Some? then [results[|results| - 1]] else []
  }

  function OtherResults(results: seq<CaseResult>): seq<CaseResult> {
    if results == [] then [] else
      OtherResults(results[..|results| - 1])
      + if results[|results| - 1].scenarioId.Some? then [] else [results[|results| - 1]]
  }

  lemma ResultsSnoc(results: seq<CaseResult>)
    requires results != []
    ensures var front, last := results[..|results| - 1], results[|results| - 1];
      && (last.scenarioId.Some? ==>
            && ScenarioResults(results) == ScenarioResults(front) + [last]
            && OtherResults(results) == OtherResults(front))
      && (last.scenarioId == None ==>
            && ScenarioResults(results) == ScenarioResults(front)
            && OtherResults(results) == OtherResults(front) + [last])
  {
    var front := results[..|results| - 1];
    assert ScenarioResults(front) + [] == ScenarioResults(front) && OtherResults(front) + [] == OtherResults(front);
  }

  lemma {:induction false} StatesSplit(results: seq<CaseResult>)
    ensures CoveredStates(results) == CoveredStates(ScenarioResults(results))
    decreases |results|
  {
    if results != [] {
      var front, last := results[..|results| - 1], results[|results| - 1];
      StatesSplit(front);
      ResultsSnoc(results);
      hide ScenarioResults;
      assert (ScenarioResults(front) + [last])[..|ScenarioResults(front)|] == ScenarioResults(front);
    }
  }

  lemma CoversNothing(r: CaseResult)
    requires r.scenarioId == None
    ensures ExercisedBy(r) == {}
  {
  }

  lemma {:induction false} TransitionsSplit(results: seq<CaseResult>)
    ensures CoveredTransitions(results) == CoveredTransitions(ScenarioResults(results))
    decreases |results|
  {
    hide ExercisedBy;
    if results != [] {
      var front, last := results[..|results| - 1], results[|results| - 1];
      TransitionsSplit(front);
      ResultsSnoc(results);
      hide ScenarioResults;
      assert (ScenarioResults(front) + [last])[..|ScenarioResults(front)|] == ScenarioResults(front);
      if last.scenarioId == None {
        CoversNothing(last);
      }
    }
  }

  lemma {:induction false} PairsSplit(results: seq<CaseResult>)
    requires forall i | 0 <= i < |results| :: OneKind(results[i])
    ensures CoveredPairs(results) == CoveredPairs(OtherResults(results))
    decreases |results|
  {
    if results != [] {
      var front, last := results[..|results| - 1], results[|results| - 1];
      PairsSplit(front);
      ResultsSnoc(results);
      hide OtherResults;
      assert (OtherResults(front) + [last])[..|OtherResults(front)|] == OtherResults(front);
    }
  }

  lemma {:induction false} TotalsSplit(results: seq<CaseResult>)
    requires forall i | 0 <= i < |results| :: OneKind(results[i])
    ensures PairTotals(results) == PairTotals(OtherResults(results))
    decreases |results|
  {
    if results != [] {
      var front, last := results[..|results| - 1], results[|results| - 1];
      TotalsSplit(front);
      ResultsSnoc(results);
      hide OtherResults;
      assert (OtherResults(front) + [last])[..|OtherResults(front)|] == OtherResults(front);
    }
  }

  lemma {:induction false} TruthSplit(results: seq<CaseResult>)
    ensures AllTrue(results) <==> AllTrue(ScenarioResults(results)) && AllTrue(OtherResults(results))
    decreases |results|
  {
    hide AllTrue;
    if results == [] {
      assert results == ScenarioResults(results) == OtherResults(results);
    } else {
      var front, last := results[..|results| - 1], results[|results| - 1];
      TruthSplit(front);
      assert front + [last] == results;
      ResultsSnoc(results);
      hide ScenarioResults, OtherResults;
      AllTrueSnoc(front, last);
      AllTrueSnoc(ScenarioResults(front), last);
      AllTrueSnoc(OtherResults(front), last);
    }
  }

  /** Scenario results add nothing to the pairwise metric, other results nothing to the
      scenario metrics. */
  lemma MetricsSplit(results: seq<CaseResult>)
    requires forall i | 0 <= i < |results| :: OneKind(results[i])
    ensures CoveredStates(results) == CoveredStates(ScenarioResults(results))
    ensures CoveredTransitions(results) == CoveredTransitions(ScenarioResults(results))
    ensures PairsFull(results) <==> PairsFull(OtherResults(results))
    ensures AllTrue(results) <==> AllTrue(ScenarioResults(results)) && AllTrue(OtherResults(results))
  {
    StatesSplit(results);
    TransitionsSplit(results);
    PairsSplit(results);
    TotalsSplit(results);
    TruthSplit(results);
    hide CoveredStates, CoveredTransitions, CoveredPairs, PairTotals, AllTrue, ScenarioResults, OtherResults,
      Percentage, OneKind;
    SameTotals(results, OtherResults(results));
  }

  lemma SameTotals(a: seq<CaseResult>, b: seq<CaseResult>)
    requires PairTotals(a) == PairTotals(b)
    ensures PairTotal(a) == PairTotal(b)
  {
    hide PairTotals;
    SortedTextsMembers(PairTotals(a).Keys);
  }

  lemma AllTrueSnoc(front: seq<CaseResult>, last: CaseResult)
    ensures AllTrue(front + [last]) <==> AllTrue(front) && last.passed
  {
    if AllTrue(front + [last]) {
      assert (front + [last])[|front|].passed;
      forall i | 0 <= i < |front| ensures front[i].passed { assert (front + [last])[i].passed; }
    }
  }

  lemma NothingToCover()
    ensures Percentage(0, 0) == 100.0
  {
  }
}
