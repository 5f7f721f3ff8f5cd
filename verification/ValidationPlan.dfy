/** The replays the planner emits, the cap on their number, and what passing them means. */
module ValidationPlan {
  import opened Wrappers
  import opened Json
  import opened RuntimeModel
  import opened Scenario
  import opened Planner

  const MAX_CASES := 500

  datatype Case = Case(
    scenarioId: string,
    requiredState: string,
    handler: Handler,
    newState: Option<string>,
    resetBefore: bool,
    targetName: string)

  type Routes = map<string, Path>

  // --------------------------------------------------------------------- the plan

  function Replay(id: string, path: Path, targetName: string): (cases: seq<Case>)
    ensures |cases| == |path|
  {
    seq(|path|, i requires 0 <= i < |path| =>
      Case(id, path[i].state, path[i].handler, path[i].handler.newState, i == 0, targetName))
  }

  function HandlerReplay(id: string, route: Path, state: string, h: Handler): seq<Case> {
    Replay(id, route + [Hop(state, h)], h.name)
  }

  function HandlerReplays(id: string, route: Path, state: string, handlers: seq<Handler>): seq<Case> {
    if handlers == [] then [] else
      HandlerReplays(id, route, state, handlers[..|handlers| - 1])
      + HandlerReplay(id, route, state, handlers[|handlers| - 1])
  }

  function StateReplays(id: string, routes: Routes, s: State): seq<Case> {
    if s.name in routes then HandlerReplays(id, routes[s.name], s.name, s.handlers) else []
  }

  function ScenarioReplays(id: string, routes: Routes, states: seq<State>): seq<Case> {
    if states == [] then [] else
      ScenarioReplays(id, routes, states[..|states| - 1]) + StateReplays(id, routes, states[|states| - 1])
  }

  /** The whole plan, scenario after scenario, before the cap. */
  function FullPlan(scenarios: seq<(string, Definition)>, routes: seq<Routes>): seq<Case>
    requires |scenarios| == |routes|
  {
    if scenarios == [] then [] else
      var n := |scenarios| - 1;
      FullPlan(scenarios[..n], routes[..n]) + ScenarioReplays(scenarios[n].0, routes[n], scenarios[n].1.states)
  }

  ghost predicate ShortestRoutes(d: Definition, routes: Routes) {
    && (forall s :: s in routes <==> Reachable(d, s))
    && (forall s | s in routes :: Shortest(d, routes[s], s))
  }

  // ------------------------------------------------------------- emitting with a cap

  /** Appends cases one by one; None once more than 500 are planned. */
  method AppendReplay(planned: seq<Case>, replay: seq<Case>) returns (more: Option<seq<Case>>)
    requires |planned| <= MAX_CASES
    ensures more == if |planned + replay| > MAX_CASES then None else Some(planned + replay)
  {
    var list := planned;
    for i := 0 to |replay|
      invariant list == planned + replay[..i] && |list| <= MAX_CASES
    {
      list := list + [replay[i]];
      if |list| > MAX_CASES {
        return None;
      }
    }
    assert replay[..|replay|] == replay;
    more := Some(list);
  }

  method PlanState(planned: seq<Case>, id: string, routes: Routes, s: State) returns (more: Option<seq<Case>>)
    requires |planned| <= MAX_CASES
    ensures var all := planned + StateReplays(id, routes, s);
      more == if |all| > MAX_CASES then None else Some(all)
  {
    if s.name !in routes {
      assert planned + [] == planned;
      return Some(planned);
    }
    var list := planned;
    for i := 0 to |s.handlers|
      invariant list == planned + HandlerReplays(id, routes[s.name], s.name, s.handlers[..i])
      invariant |list| <= MAX_CASES
    {
      assert s.handlers[..i + 1][..i] == s.handlers[..i];
      var replay := Replay(id, routes[s.name] + [Hop(s.name, s.handlers[i])], s.handlers[i].name);
      HandlerPrefix(id, routes[s.name], s.name, s.handlers, i + 1);
      var extended := AppendReplay(list, replay);
      if extended == None {
        return None;
      }
      list := extended.value;
    }
    assert s.handlers[..|s.handlers|] == s.handlers;
    more := Some(list);
  }

  lemma {:induction false} HandlerPrefix(id: string, route: Path, state: string, handlers: seq<Handler>, n: nat)
    requires n <= |handlers|
    ensures |HandlerReplays(id, route, state, handlers[..n])| <= |HandlerReplays(id, route, state, handlers)|
    decreases |handlers|
  {
    if n < |handlers| {
      var front := handlers[..|handlers| - 1];
      assert front[..n] == handlers[..n];
      HandlerPrefix(id, route, state, front, n);
    } else {
      assert handlers[..n] == handlers;
    }
  }

  method PlanScenario(planned: seq<Case>, id: string, routes: Routes,
                      states: seq<State>) returns (more: Option<seq<Case>>)
    requires |planned| <= MAX_CASES
    ensures var all := planned + ScenarioReplays(id, routes, states);
      more == if |all| > MAX_CASES then None else Some(all)
  {
    hide StateReplays;
    var list := planned;
    for i := 0 to |states|
      invariant list == planned + ScenarioReplays(id, routes, states[..i])
      invariant |list| <= MAX_CASES
    {
      assert states[..i + 1][..i] == states[..i];
      ScenarioPrefix(id, routes, states, i + 1);
      var extended := PlanState(list, id, routes, states[i]);
      if extended == None {
        return None;
      }
      list := extended.value;
    }
    assert states[..|states|] == states;
    more := Some(list);
  }

  lemma {:induction false} ScenarioPrefix(id: string, routes: Routes, states: seq<State>, n: nat)
    requires n <= |states|
    ensures |ScenarioReplays(id, routes, states[..n])| <= |ScenarioReplays(id, routes, states)|
    decreases |states|
  {
    if n < |states| {
      var front := states[..|states| - 1];
      assert front[..n] == states[..n];
      ScenarioPrefix(id, routes, front, n);
    } else {
      assert states[..n] == states;
    }
  }

  /** The plan for scenarios already in id order, with the routes it follows; None when
      it would exceed 500 cases. */
  method BuildScenarioValidationCases(scenarios: seq<(string, Definition)>)
    returns (plan: Option<seq<Case>>, routes: seq<Routes>)
    requires forall i | 0 <= i < |scenarios| :: WellFormed(scenarios[i].1)
    ensures |routes| == |scenarios|
    ensures forall i | 0 <= i < |scenarios| :: ShortestRoutes(scenarios[i].1, routes[i])
    ensures plan == if |FullPlan(scenarios, routes)| > 500 then None else Some(FullPlan(scenarios, routes))
  {
    hide WellFormed, ShortestRoutes, ScenarioReplays;
    var planned := [];
    var stopped := false;
    routes := [];
    for i := 0 to |scenarios|
      invariant |routes| == i
      invariant forall j | 0 <= j < i :: ShortestRoutes(scenarios[j].1, routes[j])
      invariant stopped <==> |FullPlan(scenarios[..i], routes)| > MAX_CASES
      invariant !stopped ==> planned == FullPlan(scenarios[..i], routes)
    {
      var paths := ShortestPaths(scenarios[i].1);
      RoutesAreShortest(scenarios[i].1, paths);
      ghost var before := routes;
      routes := routes + [paths];
      assert scenarios[..i + 1][..i] == scenarios[..i] && routes[..i] == before;
      if !stopped {
        var extended := PlanScenario(planned, scenarios[i].0, paths, scenarios[i].1.states);
        if extended == None {
          stopped := true;
        } else {
          planned := extended.value;
        }
      }
    }
    assert scenarios[..|scenarios|] == scenarios;
    plan := if stopped then None else Some(planned);
  }

  lemma RoutesAreShortest(d: Definition, paths: Routes)
    requires forall s :: s in paths <==> Reachable(d, s)
    requires forall s | s in paths :: Shortest(d, paths[s], s)
    ensures ShortestRoutes(d, paths)
  {
  }

  // -------------------------------------------------------------- the plan's size

  /** One case more than the distance, for every handler of every reachable state. */
  function PlannedCases(routes: Routes, states: seq<State>): nat {
    if states == [] then 0 else
      var last := states[|states| - 1];
      PlannedCases(routes, states[..|states| - 1])
      + if last.name in routes then |last.handlers| * (|routes[last.name]| + 1) else 0
  }

  lemma {:induction false} HandlerReplaysSize(id: string, route: Path, state: string, handlers: seq<Handler>)
    ensures |HandlerReplays(id, route, state, handlers)| == |handlers| * (|route| + 1)
    decreases |handlers|
  {
    if handlers != [] {
      HandlerReplaysSize(id, route, state, handlers[..|handlers| - 1]);
      assert |handlers| * (|route| + 1) == (|handlers| - 1) * (|route| + 1) + (|route| + 1);
    }
  }

  lemma {:induction false} PlanSize(id: string, routes: Routes, states: seq<State>)
    ensures |ScenarioReplays(id, routes, states)| == PlannedCases(routes, states)
    decreases |states|
  {
    hide HandlerReplays;
    if states != [] {
      var last := states[|states| - 1];
      PlanSize(id, routes, states[..|states| - 1]);
      if last.name in routes {
        HandlerReplaysSize(id, routes[last.name], last.name, last.handlers);
      }
    }
  }

  /** The size does not depend on which shortest routes were found. */
  lemma {:induction false} PlanSizeUnique(d: Definition, routes: Routes, other: Routes, states: seq<State>)
    requires ShortestRoutes(d, routes) && ShortestRoutes(d, other)
    ensures PlannedCases(routes, states) == PlannedCases(other, states)
    decreases |states|
  {
    if states != [] {
      var last := states[|states| - 1];
      PlanSizeUnique(d, routes, other, states[..|states| - 1]);
      assert last.name in routes <==> last.name in other;
      if last.name in routes {
        assert Shortest(d, routes[last.name], last.name) && Shortest(d, other[last.name], last.name);
        assert |routes[last.name]| == |other[last.name]|;
      }
    }
  }

  // ----------------------------------------------------------------- each replay

  /** A replay of a walk: it alone starts with a reset, from the initial state, each
      case requires the state the previous one moved to, and it ends with its target. */
  lemma {:induction false} ReplayChains(d: Definition, id: string, route: Path, state: string, h: Handler)
    requires Walk(d, route, state) && h in HandlersOf(d, state)
    ensures var r := HandlerReplay(id, route, state, h);
      && r[0].requiredState == d.initialState
      && (forall i | 0 <= i < |r| :: r[i].resetBefore == (i == 0) && r[i].handler in HandlersOf(d, r[i].requiredState))
      && (forall i | 0 <= i < |r| :: r[i].newState == r[i].handler.newState)
      && (forall i | 0 < i < |r| :: r[i - 1].newState == Some(r[i].requiredState))
      && r[|r| - 1].requiredState == state && r[|r| - 1].handler == h
      && (forall i | 0 <= i < |r| :: Reachable(d, r[i].requiredState))
    decreases |route|
  {
    hide HandlerReplay, HandlersOf;
    assert Reachable(d, state);
    hide Reachable;
    if route == [] {
      ReplayOfNothing(id, state, h);
    } else {
      var front, last := route[..|route| - 1], route[|route| - 1];
      ReplayChains(d, id, front, last.state, last.handler);
      ReplayOfMore(id, route, state, h);
      var r, q := HandlerReplay(id, route, state, h), HandlerReplay(id, front, last.state, last.handler);
      assert r[|q|] == Case(id, state, h, h.newState, false, h.name);
      forall i | 0 <= i < |q| ensures r[i] == q[i].(targetName := r[i].targetName) {
        assert r[i] == r[..|r| - 1][i];
      }
    }
  }

  /** The request a case sends. */
  function PlannedRequest(h: Handler): Request {
    Request(h.request.verb, Url(h.request.url.path, HandlerQuery(h)), h.request.headers, h.request.jsonBody)
  }

  /** Whether a response body fits what the contract documents for a handler's operation
      and status; true where it documents no schema. */
  type Schema = (Handler, Json) -> bool

  /** In its state, a handler's own request gets its status and a fitting body, and moves
      where it says. */
  predicate Obeys(schema: Schema, d: Definition, state: string, h: Handler) {
    var (next, answer) := Step(d, state, PlannedRequest(h));
    && answer.Some? && answer.value.status == h.response.status && schema(h, answer.value.body)
    && next == h.newState.GetOr(state)
  }

  /** Running the cases in order on the scenario's machine, every check holds. */
  predicate Passes(schema: Schema, d: Definition, state: string, cases: seq<Case>)
    decreases |cases|
  {
    if cases == [] then true else
      var c := cases[0];
      var start := if c.resetBefore then d.initialState else state;
      && start == c.requiredState
      && Obeys(schema, d, start, c.handler)
      && Passes(schema, d, c.newState.GetOr(start), cases[1..])
  }

  function EndState(d: Definition, state: string, cases: seq<Case>): string
    decreases |cases|
  {
    if cases == [] then state else
      var start := if cases[0].resetBefore then d.initialState else state;
      EndState(d, cases[0].newState.GetOr(start), cases[1..])
  }

  lemma {:induction false} PassesAppend(schema: Schema, d: Definition, state: string, a: seq<Case>, b: seq<Case>)
    ensures Passes(schema, d, state, a + b)
      <==> Passes(schema, d, state, a) && Passes(schema, d, EndState(d, state, a), b)
    ensures EndState(d, state, a + b) == EndState(d, EndState(d, state, a), b)
    decreases |a|
  {
    hide Obeys;
    if a == [] {
      assert a + b == b;
    } else {
      assert (a + b)[1..] == a[1..] + b;
      PassesAppend(schema, d, (a[0].newState).GetOr(if a[0].resetBefore then d.initialState else state), a[1..], b);
    }
  }

  /** The hops of a walk behave as planned. */
  ghost predicate RouteObeys(schema: Schema, d: Definition, route: Path) {
    forall i | 0 <= i < |route| :: Obeys(schema, d, route[i].state, route[i].handler)
  }

  /** A replay passes exactly when all its hops behave. */
  lemma {:induction false} ReplayPassesIff(schema: Schema, d: Definition, id: string, route: Path, state: string,
                                           h: Handler, from: string)
    requires Walk(d, route, state) && h in HandlersOf(d, state)
    ensures Passes(schema, d, from, HandlerReplay(id, route, state, h))
      <==> RouteObeys(schema, d, route) && Obeys(schema, d, state, h)
    ensures EndState(d, from, HandlerReplay(id, route, state, h)) == h.newState.GetOr(state)
    decreases |route|
  {
    hide Obeys, Passes, EndState, HandlerReplay;
    if route == [] {
      OneCase(schema, d, id, state, h, true, from);
      ReplayOfNothing(id, state, h);
    } else {
      ReplayOfMore(id, route, state, h);
      var front, last := route[..|route| - 1], route[|route| - 1];
      ReplayPassesIff(schema, d, id, front, last.state, last.handler, from);
      var r, q := HandlerReplay(id, route, state, h), HandlerReplay(id, front, last.state, last.handler);
      Renamed(schema, d, from, r[..|r| - 1], q);
      PassesAppend(schema, d, from, r[..|r| - 1], [Case(id, state, h, h.newState, false, h.name)]);
      OneCase(schema, d, id, state, h, false, state);
      assert front + [last] == route;
    }
  }

  lemma ReplayOfNothing(id: string, state: string, h: Handler)
    ensures HandlerReplay(id, [], state, h) == [Case(id, state, h, h.newState, true, h.name)]
  {
  }

  /** A replay is that of its route, under another name, and one case more. */
  lemma ReplayOfMore(id: string, route: Path, state: string, h: Handler)
    requires route != []
    ensures var last := route[|route| - 1];
      var r, q := HandlerReplay(id, route, state, h), HandlerReplay(id, route[..|route| - 1], last.state, last.handler);
      && |r| == |q| + 1 == |route| + 1
      && r == r[..|r| - 1] + [Case(id, state, h, h.newState, false, h.name)]
      && forall i | 0 <= i < |q| :: r[..|r| - 1][i] == q[i].(targetName := r[..|r| - 1][i].targetName)
  {
    var last := route[|route| - 1];
    assert route[..|route| - 1] + [Hop(last.state, last.handler)] == route;
  }

  lemma OneCase(schema: Schema, d: Definition, id: string, state: string, h: Handler, reset: bool, from: string)
    requires if reset then d.initialState == state else from == state
    ensures var one := [Case(id, state, h, h.newState, reset, h.name)];
      && (Passes(schema, d, from, one) <==> Obeys(schema, d, state, h))
      && EndState(d, from, one) == h.newState.GetOr(state)
  {
    hide Obeys;
    assert [Case(id, state, h, h.newState, reset, h.name)][1..] == [];
  }

  /** The name a replay is filed under plays no part in running it. */
  lemma {:induction false} Renamed(schema: Schema, d: Definition, state: string, a: seq<Case>, b: seq<Case>)
    requires |a| == |b| && forall i | 0 <= i < |a| :: a[i] == b[i].(targetName := a[i].targetName)
    ensures Passes(schema, d, state, a) <==> Passes(schema, d, state, b)
    ensures EndState(d, state, a) == EndState(d, state, b)
    decreases |a|
  {
    hide Obeys;
    if a != [] {
      Renamed(schema, d, (a[0].newState).GetOr(if a[0].resetBefore then d.initialState else state), a[1..], b[1..]);
    }
  }

  ghost predicate AllObey(schema: Schema, d: Definition, state: string, handlers: seq<Handler>) {
    forall i | 0 <= i < |handlers| :: Obeys(schema, d, state, handlers[i])
  }

  lemma {:induction false} HandlersPassIff(schema: Schema, d: Definition, id: string, route: Path, state: string,
                                           handlers: seq<Handler>, from: string)
    requires Walk(d, route, state) && forall i | 0 <= i < |handlers| :: handlers[i] in HandlersOf(d, state)
    ensures Passes(schema, d, from, HandlerReplays(id, route, state, handlers))
      <==> handlers == [] || (RouteObeys(schema, d, route) && AllObey(schema, d, state, handlers))
    decreases |handlers|
  {
    hide Obeys, Passes, EndState, RouteObeys, HandlerReplay, HandlersOf;
    if handlers == [] {
      NoCases(schema, d, from);
    } else {
      var front, last := handlers[..|handlers| - 1], handlers[|handlers| - 1];
      HandlersPassIff(schema, d, id, route, state, front, from);
      var before := HandlerReplays(id, route, state, front);
      PassesAppend(schema, d, from, before, HandlerReplay(id, route, state, last));
      ReplayPassesIff(schema, d, id, route, state, last, EndState(d, from, before));
    }
  }

  lemma NoCases(schema: Schema, d: Definition, from: string)
    ensures Passes(schema, d, from, [])
  {
  }

  ghost predicate StateObeys(schema: Schema, d: Definition, routes: Routes, s: State) {
    s.name in routes ==> RouteObeys(schema, d, routes[s.name]) && AllObey(schema, d, s.name, s.handlers)
  }

  lemma {:induction false} StatesPassIff(schema: Schema, d: Definition, id: string, routes: Routes,
                                         states: seq<State>, from: string)
    requires forall s | s in routes :: Walk(d, routes[s], s)
    requires forall i | 0 <= i < |states| ::
      states[i].handlers != [] && HandlersOf(d, states[i].name) == states[i].handlers
    ensures Passes(schema, d, from, ScenarioReplays(id, routes, states))
      <==> forall i | 0 <= i < |states| :: StateObeys(schema, d, routes, states[i])
    decreases |states|
  {
    hide Passes, EndState, RouteObeys, AllObey, HandlersOf;
    if states == [] {
      NoCases(schema, d, from);
    } else {
      var front, last := states[..|states| - 1], states[|states| - 1];
      StatesPassIff(schema, d, id, routes, front, from);
      var before := ScenarioReplays(id, routes, front);
      PassesAppend(schema, d, from, before, StateReplays(id, routes, last));
      if last.name in routes {
        HandlersPassIff(schema, d, id, routes[last.name], last.name, last.handlers, EndState(d, from, before));
      } else {
        NoCases(schema, d, EndState(d, from, before));
      }
      assert forall i | 0 <= i < |front| :: states[i] == front[i];
    }
  }

  lemma {:induction false} StateIndexOf(states: seq<State>, k: nat)
    requires k < |states| && forall i, j | 0 <= i < j < |states| :: states[i].name != states[j].name
    ensures StateIndex(states, states[k].name) == Some(k)
    decreases |states|
  {
    if k < |states| - 1 {
      StateIndexOf(states[..|states| - 1], k);
    }
  }

  lemma StatesOwnHandlers(d: Definition)
    requires WellFormed(d)
    ensures forall i | 0 <= i < |d.states| ::
      d.states[i].handlers != [] && HandlersOf(d, d.states[i].name) == d.states[i].handlers
  {
    forall i | 0 <= i < |d.states|
      ensures d.states[i].handlers != [] && HandlersOf(d, d.states[i].name) == d.states[i].handlers
    {
      assert StateWellFormed(d.states[i], StateNames(d));
      StateIndexOf(d.states, i);
    }
  }

  lemma {:induction false} WalkHopsReachable(d: Definition, route: Path, target: string)
    requires Walk(d, route, target)
    ensures forall i | 0 <= i < |route| ::
      Reachable(d, route[i].state) && route[i].handler in HandlersOf(d, route[i].state)
    decreases |route|
  {
    if route != [] {
      WalkHopsReachable(d, route[..|route| - 1], route[|route| - 1].state);
    }
  }

  /** Every handler of every reachable state behaves as planned. */
  ghost predicate ReachableObey(schema: Schema, d: Definition) {
    forall s | Reachable(d, s) :: AllObey(schema, d, s, HandlersOf(d, s))
  }

  /** The plan passes on the machine exactly when every handler of every reachable
      state, sent its own request, answers with its status and moves where it says. */
  lemma PlanPassesIff(schema: Schema, d: Definition, id: string, routes: Routes, from: string)
    requires WellFormed(d) && ShortestRoutes(d, routes)
    ensures Passes(schema, d, from, ScenarioReplays(id, routes, d.states)) <==> ReachableObey(schema, d)
  {
    forall s | s in routes ensures Walk(d, routes[s], s) {
      assert Shortest(d, routes[s], s);
    }
    StatesOwnHandlers(d);
    StatesPassIff(schema, d, id, routes, d.states, from);
    hide Passes, ScenarioReplays, Obeys, Walk, WellFormed;
    if forall i | 0 <= i < |d.states| :: StateObeys(schema, d, routes, d.states[i]) {
      forall s | Reachable(d, s) ensures AllObey(schema, d, s, HandlersOf(d, s)) {
        ReachableDeclared(d, s);
        var i :| 0 <= i < |d.states| && d.states[i].name == s;
        assert StateObeys(schema, d, routes, d.states[i]);
      }
    }
    if ReachableObey(schema, d) {
      forall i | 0 <= i < |d.states| ensures StateObeys(schema, d, routes, d.states[i]) {
        var s := d.states[i].name;
        if s in routes {
          WalkHopsReachable(d, routes[s], s);
          forall k | 0 <= k < |routes[s]| ensures Obeys(schema, d, routes[s][k].state, routes[s][k].handler) {
            assert AllObey(schema, d, routes[s][k].state, HandlersOf(d, routes[s][k].state));
          }
        }
      }
    }
  }

  lemma ReachableDeclared(d: Definition, s: string)
    requires WellFormed(d) && Reachable(d, s)
    ensures s in StateNames(d)
  {
    var walk: Path :| Walk(d, walk, s);
    WalkTargetsDeclared(d, walk, s);
  }
}
