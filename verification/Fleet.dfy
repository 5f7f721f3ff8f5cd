/** Several compiled scenarios in one simulation, next to any other mappings. */
module Fleet {
  import opened Wrappers
  import opened RuntimeModel
  import opened RuntimeStore
  import opened RuntimeSemantics
  import opened Scenario
  import opened Translation
  import opened Compiler
  import opened CompilerCorrectness

  datatype Member = Member(scenario: string, definition: Definition)

  /** The scenarios' mappings in order of deployment. */
  function FleetMappings(sim: string, fleet: seq<Member>): seq<RuntimeMapping> {
    if fleet == [] then [] else
      var last := fleet[|fleet| - 1];
      FleetMappings(sim, fleet[..|fleet| - 1]) + RuntimeMappings(sim, last.scenario, last.definition)
  }

  ghost predicate MemberSound(st: Store, sim: string, m: Member) {
    && WellFormed(m.definition) && NoClashes(m.definition.states)
    && ScenarioName(sim, m.scenario) in st.states
    && st.states[ScenarioName(sim, m.scenario)].state != ""
  }

  ghost predicate NamesDistinct(fleet: seq<Member>) {
    forall i, j | 0 <= i < j < |fleet| :: fleet[i].scenario != fleet[j].scenario
  }

  ghost predicate FleetSound(st: Store, sim: string, fleet: seq<Member>) {
    (forall i | 0 <= i < |fleet| :: MemberSound(st, sim, fleet[i])) && NamesDistinct(fleet)
  }

  /** Other mappings, their scenarios registered and none of them in the fleet. */
  ghost predicate Foreign(st: Store, sim: string, fleet: seq<Member>, others: seq<RuntimeMapping>) {
    forall i | 0 <= i < |fleet| :: Unrelated(st, ScenarioName(sim, fleet[i].scenario), others)
  }

  ghost predicate Registered(st: Store, others: seq<RuntimeMapping>) {
    forall m | m in others && m.scenarioName.Some? :: m.scenarioName.value in st.states
  }

  ghost predicate FleetDeployed(st: Store, sim: string, before: seq<RuntimeMapping>, fleet: seq<Member>,
                                after: seq<RuntimeMapping>) {
    && MappingsOf(st, sim) == before + FleetMappings(sim, fleet) + after
    && FleetSound(st, sim, fleet)
    && Foreign(st, sim, fleet, before) && Foreign(st, sim, fleet, after)
    && Registered(st, before) && Registered(st, after)
  }

  // ------------------------------------------------------------- which one answers

  function StateOf(states: map<string, Ownership>, sim: string, m: Member): string {
    CurrentState(states, ScenarioName(sim, m.scenario))
  }

  /** The first scenario, in order of deployment, whose current state accepts. */
  function FirstReady(states: map<string, Ownership>, sim: string, fleet: seq<Member>, req: Request): (k: Option<nat>)
    ensures k.Some? ==> k.value < |fleet|
  {
    if fleet == [] then None else
      var last := fleet[|fleet| - 1];
      var earlier := FirstReady(states, sim, fleet[..|fleet| - 1], req);
      if earlier.Some? then earlier
      else if FirstAccepting(HandlersOf(last.definition, StateOf(states, sim, last)), req).Some? then Some(|fleet| - 1)
      else None
  }

  /** It is what its name says. */
  lemma {:induction false} FirstReadyIsFirst(states: map<string, Ownership>, sim: string, fleet: seq<Member>,
                                             req: Request)
    ensures match FirstReady(states, sim, fleet, req)
      case None => forall i | 0 <= i < |fleet| ::
        FirstAccepting(HandlersOf(fleet[i].definition, StateOf(states, sim, fleet[i])), req) == None
      case Some(k) =>
        && FirstAccepting(HandlersOf(fleet[k].definition, StateOf(states, sim, fleet[k])), req).Some?
        && forall i | 0 <= i < k ::
             FirstAccepting(HandlersOf(fleet[i].definition, StateOf(states, sim, fleet[i])), req) == None
    decreases |fleet|
  {
    hide FirstAccepting, HandlersOf, StateOf;
    if fleet != [] {
      FirstReadyIsFirst(states, sim, fleet[..|fleet| - 1], req);
    }
  }

  lemma {:induction false} FleetUrgent(sim: string, fleet: seq<Member>)
    ensures Urgent(FleetMappings(sim, fleet))
    decreases |fleet|
  {
    hide RuntimeMappings;
    if fleet != [] {
      var last := fleet[|fleet| - 1];
      FleetUrgent(sim, fleet[..|fleet| - 1]);
      MemberUrgent(sim, last);
    }
  }

  lemma MemberUrgent(sim: string, m: Member)
    ensures Urgent(RuntimeMappings(sim, m.scenario, m.definition))
  {
    CompiledPriorities(sim, m.scenario, m.definition.states);
  }

  /** The mapping of a handler that a scenario's current state offers. */
  function Offered(states: map<string, Ownership>, sim: string, m: Member, h: Handler): RuntimeMapping {
    FromWire(CompiledHandler(sim, m.scenario, StateOf(states, sim, m), h))
  }

  lemma {:induction false} FleetFirst(re: FullMatch, st: Store, sim: string, fleet: seq<Member>, req: Request)
    requires FleetSound(st, sim, fleet)
    ensures FirstMatch(re, st.states, FleetMappings(sim, fleet), req) ==
      match FirstReady(st.states, sim, fleet, req)
      case None => None
      case Some(k) =>
        var accepting := FirstAccepting(HandlersOf(fleet[k].definition, StateOf(st.states, sim, fleet[k])), req);
        if accepting.Some? then Some(Offered(st.states, sim, fleet[k], accepting.value)) else None
    decreases |fleet|
  {
    hide FirstAccepting, HandlersOf, RuntimeMappings, FirstMatch, Offered, StateOf;
    if fleet == [] {
      NoneFirst(re, st, sim, req);
    } else {
      var front, last := fleet[..|fleet| - 1], fleet[|fleet| - 1];
      assert forall i | 0 <= i < |front| :: front[i] == fleet[i];
      FleetFirst(re, st, sim, front, req);
      FirstReadyIsFirst(st.states, sim, front, req);
      MemberFirst(re, st, sim, last, req);
      FirstMatchAppend(re, st.states, FleetMappings(sim, front), RuntimeMappings(sim, last.scenario, last.definition),
        req);
    }
  }

  lemma NoneFirst(re: FullMatch, st: Store, sim: string, req: Request)
    ensures FirstMatch(re, st.states, FleetMappings(sim, []), req) == None
  {
  }

  lemma MemberFirst(re: FullMatch, st: Store, sim: string, m: Member, req: Request)
    requires MemberSound(st, sim, m)
    ensures var accepting := FirstAccepting(HandlersOf(m.definition, StateOf(st.states, sim, m)), req);
      FirstMatch(re, st.states, RuntimeMappings(sim, m.scenario, m.definition), req)
        == if accepting.Some? then Some(Offered(st.states, sim, m, accepting.value)) else None
  {
    DeclaredCurrent(st, sim, m);
    hide FirstAccepting, FirstMatch, CompiledHandler, FromWire, WellFormed, NoClashes;
    ScenarioFirst(re, st.states, sim, m.scenario, m.definition, req);
  }

  lemma DeclaredCurrent(st: Store, sim: string, m: Member)
    requires MemberSound(st, sim, m)
    ensures StateOf(st.states, sim, m) == st.states[ScenarioName(sim, m.scenario)].state
  {
  }

  // ------------------------------------------------------------------ one request

  /** What a request does to the fleet: the first ready scenario, if any and unless
      another mapping preempts it, takes its step. */
  lemma FleetSelects(re: FullMatch, st: Store, sim: string, before: seq<RuntimeMapping>, fleet: seq<Member>,
                     after: seq<RuntimeMapping>, req: Request)
    requires FleetDeployed(st, sim, before, fleet, after)
    ensures var ready := FirstReady(st.states, sim, fleet, req);
      Select(re, st, sim, req) ==
        if ready.Some? && !Preempted(re, st.states, before, after, req) then
          var m := fleet[ready.value];
          var accepting := FirstAccepting(HandlersOf(m.definition, StateOf(st.states, sim, m)), req);
          if accepting.Some? then Some(Offered(st.states, sim, m, accepting.value)) else None
        else BestMapping(re, st.states, before + after, req)
  {
    hide FirstAccepting, HandlersOf, FirstMatch, Offered, StateOf, BestMapping, Preempted, FleetMappings,
      MemberSound, FirstReady;
    FleetUrgent(sim, fleet);
    FleetFirst(re, st, sim, fleet, req);
    FirstReadyIsFirst(st.states, sim, fleet, req);
    UrgentSplit(re, st.states, before, FleetMappings(sim, fleet), after, req);
  }

  lemma ReadySteps(re: FullMatch, limit: nat, st: Store, sim: string, before: seq<RuntimeMapping>, fleet: seq<Member>,
                   after: seq<RuntimeMapping>, req: Request, k: nat)
    requires FleetDeployed(st, sim, before, fleet, after)
    requires FirstReady(st.states, sim, fleet, req) == Some(k) && !Preempted(re, st.states, before, after, req)
    ensures var name := ScenarioName(sim, fleet[k].scenario);
      var result := Execute(re, limit, st, sim, req);
      var (state, answer) := Step(fleet[k].definition, StateOf(st.states, sim, fleet[k]), req);
      && name in st.states && result.Some? && result.value.0.mappings == st.mappings
      && result.value.0.states == st.states[name := st.states[name].(state := state)]
      && answer == Some(result.value.1)
  {
    FleetSelects(re, st, sim, before, fleet, after, req);
    FirstReadyIsFirst(st.states, sim, fleet, req);
    ExecuteOutcome(re, limit, st, sim, req);
    assert MemberSound(st, sim, fleet[k]);
    DeclaredCurrent(st, sim, fleet[k]);
    hide Execute, Select, BestMapping, FirstAccepting, CompiledHandler, HandlerReply, Reply, Transition, Preempted,
      FirstReady, FleetMappings, FleetDeployed, WellFormed, NoClashes, HandlersOf, StateOf;
    var m := fleet[k];
    var h := FirstAccepting(HandlersOf(m.definition, StateOf(st.states, sim, m)), req).value;
    CompiledReplies(sim, m.scenario, StateOf(st.states, sim, m), h);
    CompiledMoves(st, sim, m.scenario, StateOf(st.states, sim, m), h);
  }

  lemma NoneReadyStays(re: FullMatch, limit: nat, st: Store, sim: string, before: seq<RuntimeMapping>,
                       fleet: seq<Member>,
                       after: seq<RuntimeMapping>, req: Request)
    requires FleetDeployed(st, sim, before, fleet, after)
    requires FirstReady(st.states, sim, fleet, req) == None || Preempted(re, st.states, before, after, req)
    ensures var result := Execute(re, limit, st, sim, req);
      && result.Some? && result.value.0.mappings == st.mappings && result.value.0.states.Keys == st.states.Keys
      && (forall i | 0 <= i < |fleet| :: SameState(st, result.value.0, ScenarioName(sim, fleet[i].scenario)))
      && result.value.1 == ReplyOf(BestMapping(re, st.states, before + after, req))
  {
    FleetSelects(re, st, sim, before, fleet, after, req);
    ExecuteOutcome(re, limit, st, sim, req);
    hide Execute, Select, BestMapping, FirstAccepting, Reply, Preempted, FirstReady, FleetMappings, MemberSound;
    BestMappingMember(re, st.states, before + after, req);
    ForeignMove(st, sim, before, fleet, after, BestMapping(re, st.states, before + after, req));
  }

  ghost predicate SameState(a: Store, b: Store, name: string) {
    name in a.states && name in b.states && b.states[name] == a.states[name]
  }

  lemma ForeignMove(st: Store, sim: string, before: seq<RuntimeMapping>, fleet: seq<Member>,
                    after: seq<RuntimeMapping>, selected: Option<RuntimeMapping>)
    requires FleetDeployed(st, sim, before, fleet, after) && (selected.Some? ==> selected.value in before + after)
    ensures var moved := Transition(st, selected);
      && moved.Some? && moved.value.states.Keys == st.states.Keys
      && forall i | 0 <= i < |fleet| :: SameState(st, moved.value, ScenarioName(sim, fleet[i].scenario))
  {
    hide FleetMappings;
    forall i | 0 <= i < |fleet|
      ensures SameState(st, Transition(st, selected).value, ScenarioName(sim, fleet[i].scenario))
    {
      assert MemberSound(st, sim, fleet[i]);
      var name := ScenarioName(sim, fleet[i].scenario);
      assert Unrelated(st, name, before) && Unrelated(st, name, after);
    }
  }

  // -------------------------------------------------------- the machines together

  /** One request to all the machines: the first that accepts steps, the others stay. */
  function StepAll(fleet: seq<Member>, states: seq<string>, req: Request): (seq<string>, Option<Response>)
    requires |states| == |fleet|
  {
    if fleet == [] then ([], None) else
      var n := |fleet| - 1;
      var (front, answer) := StepAll(fleet[..n], states[..n], req);
      if answer.Some? then (front + [states[n]], answer)
      else
        var (state, own) := Step(fleet[n].definition, states[n], req);
        (front + [state], own)
  }

  function States(st: Store, sim: string, fleet: seq<Member>): (states: seq<string>)
    ensures |states| == |fleet|
  {
    seq(|fleet|, i requires 0 <= i < |fleet| => StateOf(st.states, sim, fleet[i]))
  }

  lemma {:induction false} StepAllIs(st: Store, sim: string, fleet: seq<Member>, req: Request)
    ensures var (states, answer) := StepAll(fleet, States(st, sim, fleet), req);
      match FirstReady(st.states, sim, fleet, req)
      case None => states == States(st, sim, fleet) && answer == None
      case Some(k) =>
        var (state, own) := Step(fleet[k].definition, StateOf(st.states, sim, fleet[k]), req);
        states == States(st, sim, fleet)[k := state] && answer == own && own.Some?
    decreases |fleet|
  {
    hide FirstAccepting, HandlersOf, StateOf, HandlerReply;
    if fleet != [] {
      var front := fleet[..|fleet| - 1];
      StepAllIs(st, sim, front, req);
      assert States(st, sim, fleet)[..|front|] == States(st, sim, front);
    }
  }

  lemma NamesDiffer(sim: string, a: string, b: string)
    requires a != b
    ensures ScenarioName(sim, a) != ScenarioName(sim, b)
  {
    var head := "SimuLoom:" + sim + ":";
    assert ScenarioName(sim, a)[|head|..] == a && ScenarioName(sim, b)[|head|..] == b;
  }

  lemma StaysFleet(st: Store, now: Store, sim: string, before: seq<RuntimeMapping>, fleet: seq<Member>,
                   after: seq<RuntimeMapping>)
    requires FleetDeployed(st, sim, before, fleet, after)
    requires now.mappings == st.mappings && now.states.Keys == st.states.Keys
    requires forall i | 0 <= i < |fleet| :: MemberSound(now, sim, fleet[i])
    ensures FleetDeployed(now, sim, before, fleet, after)
  {
    hide FleetMappings, MemberSound;
    forall i | 0 <= i < |fleet|
      ensures Unrelated(now, ScenarioName(sim, fleet[i].scenario), before)
      ensures Unrelated(now, ScenarioName(sim, fleet[i].scenario), after)
    {
      assert Unrelated(st, ScenarioName(sim, fleet[i].scenario), before);
      assert Unrelated(st, ScenarioName(sim, fleet[i].scenario), after);
    }
  }

  /** Only scenario k moves, to a declared state. */
  lemma OneMoves(st: Store, now: Store, sim: string, fleet: seq<Member>, k: nat, state: string)
    requires FleetSound(st, sim, fleet) && k < |fleet| && state != ""
    requires var name := ScenarioName(sim, fleet[k].scenario);
      name in st.states && now.states == st.states[name := st.states[name].(state := state)]
    ensures (forall i | 0 <= i < |fleet| :: MemberSound(now, sim, fleet[i]))
    ensures States(now, sim, fleet) == States(st, sim, fleet)[k := state]
  {
    hide WellFormed, NoClashes, StateNames;
    forall i | 0 <= i < |fleet|
      ensures MemberSound(now, sim, fleet[i])
      ensures StateOf(now.states, sim, fleet[i]) == if i == k then state else StateOf(st.states, sim, fleet[i])
    {
      assert MemberSound(st, sim, fleet[i]);
      if i == k {
        DeclaredCurrent(now, sim, fleet[i]);
      } else {
        assert fleet[i].scenario != fleet[k].scenario;
        NamesDiffer(sim, fleet[i].scenario, fleet[k].scenario);
      }
    }
  }

  lemma AllStay(st: Store, now: Store, sim: string, fleet: seq<Member>)
    requires FleetSound(st, sim, fleet)
    requires forall i | 0 <= i < |fleet| :: SameState(st, now, ScenarioName(sim, fleet[i].scenario))
    ensures (forall i | 0 <= i < |fleet| ::
      MemberSound(now, sim, fleet[i])) && States(now, sim, fleet) == States(st, sim, fleet)
  {
    hide WellFormed, NoClashes, StateNames;
    forall i | 0 <= i < |fleet|
      ensures MemberSound(now, sim, fleet[i]) && StateOf(now.states, sim, fleet[i]) == StateOf(st.states, sim, fleet[i])
    {
      assert MemberSound(st, sim, fleet[i]) && SameState(st, now, ScenarioName(sim, fleet[i].scenario));
    }
  }

  /** Every machine in a state its definition declares. */
  ghost predicate AllDeclared(fleet: seq<Member>, states: seq<string>)
    requires |states| == |fleet|
  {
    forall i | 0 <= i < |fleet| :: states[i] in StateNames(fleet[i].definition)
  }

  lemma {:induction false} StepAllStaysDeclared(fleet: seq<Member>, states: seq<string>, req: Request)
    requires |states| == |fleet| && AllDeclared(fleet, states)
    requires forall i | 0 <= i < |fleet| :: WellFormed(fleet[i].definition)
    ensures |StepAll(fleet, states, req).0| == |fleet| && AllDeclared(fleet, StepAll(fleet, states, req).0)
    decreases |fleet|
  {
    hide Step, WellFormed, StateNames;
    if fleet != [] {
      var n := |fleet| - 1;
      StepAllStaysDeclared(fleet[..n], states[..n], req);
      StepStaysDeclared(fleet[n].definition, states[n], req);
    }
  }

  lemma {:induction false} RunAllStaysDeclared(fleet: seq<Member>, states: seq<string>, reqs: seq<Request>)
    requires |states| == |fleet| && AllDeclared(fleet, states)
    requires forall i | 0 <= i < |fleet| :: WellFormed(fleet[i].definition)
    ensures AllDeclared(fleet, RunAll(fleet, states, reqs))
    decreases |reqs|
  {
    hide StepAll, WellFormed, AllDeclared;
    if reqs != [] {
      var front := reqs[..|reqs| - 1];
      RunAllStaysDeclared(fleet, states, front);
      StepAllStaysDeclared(fleet, RunAll(fleet, states, front), reqs[|reqs| - 1]);
    }
  }

  /** One request to a simulation with several scenarios: unless another mapping preempts
      them, the machines together take their step; otherwise they all stay. */
  lemma ExecuteSimulatesFleet(re: FullMatch, limit: nat, st: Store, sim: string, before: seq<RuntimeMapping>,
                              fleet: seq<Member>, after: seq<RuntimeMapping>, req: Request)
    requires FleetDeployed(st, sim, before, fleet, after)
    ensures var result := Execute(re, limit, st, sim, req);
      var (states, answer) := StepAll(fleet, States(st, sim, fleet), req);
      && result.Some? && FleetDeployed(result.value.0, sim, before, fleet, after)
      && if answer.Some? && !Preempted(re, st.states, before, after, req) then
           States(result.value.0, sim, fleet) == states && result.value.1 == answer.value
         else
           && States(result.value.0, sim, fleet) == States(st, sim, fleet)
           && result.value.1 == ReplyOf(BestMapping(re, st.states, before + after, req))
  {
    StepAllIs(st, sim, fleet, req);
    hide Execute, Step, Preempted, BestMapping, FirstReady, FleetMappings, States, StepAll, StateOf, StateNames,
      WellFormed, NoClashes, Foreign, Registered;
    var ready := FirstReady(st.states, sim, fleet, req);
    if ready.Some? && !Preempted(re, st.states, before, after, req) {
      var k := ready.value;
      assert MemberSound(st, sim, fleet[k]);
      ReadySteps(re, limit, st, sim, before, fleet, after, req, k);
      DeclaredCurrent(st, sim, fleet[k]);
      StepStaysDeclared(fleet[k].definition, StateOf(st.states, sim, fleet[k]), req);
      var now := Execute(re, limit, st, sim, req).value.0;
      OneMoves(st, now, sim, fleet, k, Step(fleet[k].definition, StateOf(st.states, sim, fleet[k]), req).0);
      StaysFleet(st, now, sim, before, fleet, after);
    } else {
      NoneReadyStays(re, limit, st, sim, before, fleet, after, req);
      var now := Execute(re, limit, st, sim, req).value.0;
      AllStay(st, now, sim, fleet);
      StaysFleet(st, now, sim, before, fleet, after);
    }
  }

  function RunAll(fleet: seq<Member>, states: seq<string>, reqs: seq<Request>): (after: seq<string>)
    requires |states| == |fleet|
    ensures |after| == |fleet|
  {
    if reqs == [] then states else
      var now := RunAll(fleet, states, reqs[..|reqs| - 1]);
      StepAllSize(fleet, now, reqs[|reqs| - 1]);
      StepAll(fleet, now, reqs[|reqs| - 1]).0
  }

  lemma {:induction false} StepAllSize(fleet: seq<Member>, states: seq<string>, req: Request)
    requires |states| == |fleet|
    ensures |StepAll(fleet, states, req).0| == |fleet|
    decreases |fleet|
  {
    if fleet != [] {
      StepAllSize(fleet[..|fleet| - 1], states[..|fleet| - 1], req);
    }
  }

  lemma RunAllSnoc(fleet: seq<Member>, states: seq<string>, reqs: seq<Request>, req: Request)
    requires |states| == |fleet|
    ensures RunAll(fleet, states, reqs + [req]) == StepAll(fleet, RunAll(fleet, states, reqs), req).0
  {
    assert (reqs + [req])[..|reqs|] == reqs;
  }

  /** Every trace: the scenarios of a simulation run their machines together on exactly
      the requests no other mapping preempts, and each such request is answered by the
      first machine that accepts it. */
  lemma {:induction false} RuntimeSimulatesFleet(re: FullMatch, limit: nat, st: Store, sim: string,
                                                 before: seq<RuntimeMapping>, fleet: seq<Member>,
                                                 after: seq<RuntimeMapping>,
                                                 reqs: seq<Request>)
    requires FleetDeployed(st, sim, before, fleet, after)
    ensures var start := States(st, sim, fleet);
      var result := RunRuntime(re, limit, st, sim, reqs);
      && result.Some? && |result.value.1| == |reqs|
      && FleetDeployed(result.value.0, sim, before, fleet, after)
      && var mine := Mine(re, limit, st, sim, before, after, reqs);
         && States(result.value.0, sim, fleet) == RunAll(fleet, start, Chosen(reqs, mine))
         && forall i | 0 <= i < |reqs| && mine[i] ::
              AnsweredBy(fleet, RunAll(fleet, start, Chosen(reqs[..i], mine[..i])), reqs[i], result.value.1[i])
    decreases |reqs|
  {
    hide Execute, StepAll, Preempted, FleetDeployed, AnsweredBy, Chosen, RunAll, States;
    var start := States(st, sim, fleet);
    if reqs == [] {
      NothingRuns(fleet, start);
    } else {
      var front, last := reqs[..|reqs| - 1], reqs[|reqs| - 1];
      RuntimeSimulatesFleet(re, limit, st, sim, before, fleet, after, front);
      var now := RunRuntime(re, limit, st, sim, front).value.0;
      var own := Mine(re, limit, st, sim, before, after, front);
      var unhindered := !Preempted(re, now.states, before, after, last);
      LastOfFleet(re, limit, now, sim, before, fleet, after, start, front, own, last);
      var mine := Mine(re, limit, st, sim, before, after, reqs);
      assert front + [last] == reqs && mine == own + [unhindered];
      assert forall i | 0 <= i < |front| :: reqs[..i] == front[..i] && mine[..i] == own[..i];
      assert reqs[..|front|] == front && mine[..|front|] == own;
    }
  }

  /** Declared states lead to declared states only, whatever is requested. */
  lemma FleetStaysDeclared(re: FullMatch, limit: nat, st: Store, sim: string, before: seq<RuntimeMapping>,
                           fleet: seq<Member>, after: seq<RuntimeMapping>, reqs: seq<Request>)
    requires FleetDeployed(st, sim, before, fleet, after) && AllDeclared(fleet, States(st, sim, fleet))
    ensures RunRuntime(re, limit, st, sim, reqs).Some?
    ensures AllDeclared(fleet, States(RunRuntime(re, limit, st, sim, reqs).value.0, sim, fleet))
  {
    RuntimeSimulatesFleet(re, limit, st, sim, before, fleet, after, reqs);
    assert forall i | 0 <= i < |fleet| :: MemberSound(st, sim, fleet[i]);
    hide AllDeclared, RunAll, States, FleetDeployed, RunRuntime, AnsweredBy, Chosen, Mine;
    RunAllStaysDeclared(fleet, States(st, sim, fleet), Chosen(reqs, Mine(re, limit, st, sim, before, after, reqs)));
  }

  ghost predicate AnsweredBy(fleet: seq<Member>, states: seq<string>, req: Request, response: Response)
    requires |states| == |fleet|
  {
    var answer := StepAll(fleet, states, req).1;
    answer.Some? ==> response == answer.value
  }

  lemma NothingRuns(fleet: seq<Member>, states: seq<string>)
    requires |states| == |fleet|
    ensures RunAll(fleet, states, Chosen([], [])) == states
  {
  }

  lemma {:induction false} UnansweredStay(fleet: seq<Member>, states: seq<string>, req: Request)
    requires |states| == |fleet| && StepAll(fleet, states, req).1 == None
    ensures StepAll(fleet, states, req).0 == states
    decreases |fleet|
  {
    hide Step;
    if fleet != [] {
      var n := |fleet| - 1;
      UnansweredStay(fleet[..n], states[..n], req);
      StepWithoutAnswer(fleet[n].definition, states[n], req);
      assert states == states[..n] + [states[n]];
    }
  }

  lemma LastOfFleet(re: FullMatch, limit: nat, now: Store, sim: string, before: seq<RuntimeMapping>, fleet: seq<Member>,
                    after: seq<RuntimeMapping>, start: seq<string>, reqs: seq<Request>, mine: seq<bool>, req: Request)
    requires FleetDeployed(now, sim, before, fleet, after) && |reqs| == |mine| && |start| == |fleet|
    requires States(now, sim, fleet) == RunAll(fleet, start, Chosen(reqs, mine))
    ensures var result := Execute(re, limit, now, sim, req);
      var unhindered := !Preempted(re, now.states, before, after, req);
      && result.Some? && FleetDeployed(result.value.0, sim, before, fleet, after)
      && States(result.value.0, sim, fleet) == RunAll(fleet, start, Chosen(reqs + [req], mine + [unhindered]))
      && (unhindered ==> AnsweredBy(fleet, RunAll(fleet, start, Chosen(reqs, mine)), req, result.value.1))
  {
    hide Execute, StepAll, Preempted, FleetDeployed, Chosen, RunAll, States, BestMapping;
    ExecuteSimulatesFleet(re, limit, now, sim, before, fleet, after, req);
    ChosenSnoc(reqs, mine, req, !Preempted(re, now.states, before, after, req));
    RunAllSnoc(fleet, start, Chosen(reqs, mine), req);
    assert Chosen(reqs, mine) + [] == Chosen(reqs, mine);
    if StepAll(fleet, States(now, sim, fleet), req).1 == None {
      UnansweredStay(fleet, States(now, sim, fleet), req);
    }
  }

  // -------------------------------------------------------------------- deployment

  function Without(fleet: seq<Member>, scenario: string): seq<Member> {
    if fleet == [] then [] else
      Without(fleet[..|fleet| - 1], scenario)
      + if fleet[|fleet| - 1].scenario == scenario then [] else [fleet[|fleet| - 1]]
  }

  lemma {:induction false} WithoutMembers(fleet: seq<Member>, scenario: string)
    ensures forall m :: m in Without(fleet, scenario) <==> m in fleet && m.scenario != scenario
    decreases |fleet|
  {
    if fleet != [] {
      WithoutMembers(fleet[..|fleet| - 1], scenario);
    }
  }

  lemma {:induction false} WithoutDistinct(fleet: seq<Member>, scenario: string)
    requires NamesDistinct(fleet)
    ensures NamesDistinct(Without(fleet, scenario))
    decreases |fleet|
  {
    if fleet != [] {
      var front, last := fleet[..|fleet| - 1], fleet[|fleet| - 1];
      WithoutDistinct(front, scenario);
      hide Without;
      var rest := Without(front, scenario);
      forall i | 0 <= i < |rest| ensures rest[i].scenario != last.scenario {
        WithoutMember(front, scenario, i);
        var k :| 0 <= k < |front| && front[k] == rest[i];
        assert fleet[k] == rest[i];
      }
    }
    WithoutLast(fleet, scenario);
  }

  lemma WithoutLast(fleet: seq<Member>, scenario: string)
    ensures fleet == [] ==> Without(fleet, scenario) == []
    ensures fleet != [] ==>
      var last := fleet[|fleet| - 1];
      Without(fleet, scenario)
        == Without(fleet[..|fleet| - 1], scenario) + if last.scenario == scenario then [] else [last]
  {
  }

  lemma OwnMappings(sim: string, m: Member)
    ensures forall i | 0 <= i < |RuntimeMappings(sim, m.scenario, m.definition)| ::
      RuntimeMappings(sim, m.scenario, m.definition)[i].scenarioName == Some(ScenarioName(sim, m.scenario))
  {
    NamedAll(sim, m.scenario, m.definition.states);
  }

  lemma {:induction false} NamedAll(sim: string, scenario: string, states: seq<State>)
    ensures forall i | 0 <= i < |CompiledStates(sim, scenario, states)| ::
      CompiledStates(sim, scenario, states)[i].scenarioName == Some(ScenarioName(sim, scenario))
    decreases |states|
  {
    if states != [] {
      NamedAll(sim, scenario, states[..|states| - 1]);
    }
  }

  lemma {:induction false} DropAllOrNone(items: seq<RuntimeMapping>, p: RuntimeMapping -> bool)
    ensures (forall i | 0 <= i < |items| :: p(items[i])) ==> Drop(items, p) == []
    ensures (forall i | 0 <= i < |items| :: !p(items[i])) ==> Drop(items, p) == items
    decreases |items|
  {
    if items != [] {
      DropAllOrNone(items[..|items| - 1], p);
    }
  }

  lemma {:induction false} DropFleet(sim: string, fleet: seq<Member>, scenario: string)
    ensures Drop(FleetMappings(sim, fleet), InScenario(ScenarioName(sim, scenario)))
      == FleetMappings(sim, Without(fleet, scenario))
    decreases |fleet|
  {
    hide RuntimeMappings, Drop;
    var p := InScenario(ScenarioName(sim, scenario));
    if fleet == [] {
      DropAllOrNone([], p);
    } else {
      var front, last := fleet[..|fleet| - 1], fleet[|fleet| - 1];
      var own := RuntimeMappings(sim, last.scenario, last.definition);
      DropFleet(sim, front, scenario);
      DropAppend(FleetMappings(sim, front), own, p);
      OwnMappings(sim, last);
      DropAllOrNone(own, p);
      if last.scenario != scenario {
        NamesDiffer(sim, last.scenario, scenario);
        assert Without(fleet, scenario)[..|Without(fleet, scenario)| - 1] == Without(front, scenario);
      } else {
        assert Without(front, scenario) + [] == Without(front, scenario);
      }
    }
  }

  /** The store after a deployment: the scenario's mappings last, its state initial. */
  lemma DeploymentStore(st: Store, sim: string, before: seq<RuntimeMapping>, fleet: seq<Member>, m: Member)
    requires MappingsOf(st, sim) == before + FleetMappings(sim, fleet) + []
    ensures var name := ScenarioName(sim, m.scenario);
      var after := DeployScenario(st, sim, RuntimeMappings(sim, m.scenario, m.definition), name,
        m.definition.initialState);
      && MappingsOf(after, sim)
           == Drop(before, InScenario(name)) + FleetMappings(sim, Without(fleet, m.scenario) + [m]) + []
      && name in after.states && after.states[name].state == m.definition.initialState
      && forall other | other in st.states && other != name :: SameState(st, after, other)
  {
    hide RuntimeMappings, Drop, Without, FleetMappings, ScenarioName;
    var name, rest := ScenarioName(sim, m.scenario), Without(fleet, m.scenario);
    DropFleet(sim, fleet, m.scenario);
    DropAppend(before, FleetMappings(sim, fleet), InScenario(name));
    assert before + FleetMappings(sim, fleet) + [] == before + FleetMappings(sim, fleet);
    FleetSnoc(sim, rest, m);
  }

  lemma FleetSnoc(sim: string, fleet: seq<Member>, m: Member)
    ensures FleetMappings(sim, fleet + [m])
      == FleetMappings(sim, fleet) + RuntimeMappings(sim, m.scenario, m.definition)
  {
    hide RuntimeMappings;
    assert (fleet + [m])[..|fleet|] == fleet;
  }

  /** Deploying a scenario puts it last, in its initial state, and leaves the states of
      the others alone. */
  lemma DeploymentJoins(st: Store, sim: string, before: seq<RuntimeMapping>, fleet: seq<Member>, m: Member)
    requires FleetDeployed(st, sim, before, fleet, []) && WellFormed(m.definition) && NoClashes(m.definition.states)
    ensures var name := ScenarioName(sim, m.scenario);
      var after := DeployScenario(st, sim, RuntimeMappings(sim, m.scenario, m.definition), name,
        m.definition.initialState);
      && FleetDeployed(after, sim, Drop(before, InScenario(name)), Without(fleet, m.scenario) + [m], [])
      && StateOf(after.states, sim, m) == m.definition.initialState
      && forall other | other in st.states && other != name :: SameState(st, after, other)
  {
    DeploymentStore(st, sim, before, fleet, m);
    hide RuntimeMappings, Drop, Without, WellFormed, NoClashes, StateNames, DeployScenario, FleetMappings, Foreign,
      FleetSound, ScenarioName, StateOf;
    var name := ScenarioName(sim, m.scenario);
    var after := DeployScenario(st, sim, RuntimeMappings(sim, m.scenario, m.definition), name,
      m.definition.initialState);
    JoinedSound(st, after, sim, before, fleet, m);
    NothingForeign(after, sim, Without(fleet, m.scenario) + [m]);
    KeptRegistered(st, after, sim, before, name);
  }

  lemma JoinedSound(st: Store, after: Store, sim: string, before: seq<RuntimeMapping>, fleet: seq<Member>, m: Member)
    requires FleetDeployed(st, sim, before, fleet, []) && WellFormed(m.definition) && NoClashes(m.definition.states)
    requires var name := ScenarioName(sim, m.scenario);
      && name in after.states && after.states[name].state == m.definition.initialState
      && (forall other | other in st.states && other != name :: SameState(st, after, other))
    ensures var joined := Without(fleet, m.scenario) + [m];
      && FleetSound(after, sim, joined)
      && Foreign(after, sim, joined, Drop(before, InScenario(ScenarioName(sim, m.scenario))))
    ensures StateOf(after.states, sim, m) == m.definition.initialState
  {
    hide Drop, Without, WellFormed, NoClashes, FleetDeployed, MemberSound, Unrelated, ScenarioName, StateOf;
    JoinedMember(st, after, sim, before, fleet, m, m);
    NewCurrent(after, sim, m);
    JoinedDistinct(st, sim, before, fleet, m);
    var rest := Without(fleet, m.scenario);
    var joined := rest + [m];
    forall i | 0 <= i < |joined|
      ensures MemberSound(after, sim, joined[i])
      ensures Unrelated(after, ScenarioName(sim, joined[i].scenario),
        Drop(before, InScenario(ScenarioName(sim, m.scenario))))
    {
      if i < |rest| {
        WithoutMember(fleet, m.scenario, i);
        JoinedMember(st, after, sim, before, fleet, m, rest[i]);
      }
    }
  }

  lemma WithoutMember(fleet: seq<Member>, scenario: string, i: nat)
    requires i < |Without(fleet, scenario)|
    ensures Without(fleet, scenario)[i] in fleet && Without(fleet, scenario)[i].scenario != scenario
  {
    hide Without;
    WithoutMembers(fleet, scenario);
    assert Without(fleet, scenario)[i] in Without(fleet, scenario);
  }

  lemma JoinedDistinct(st: Store, sim: string, before: seq<RuntimeMapping>, fleet: seq<Member>, m: Member)
    requires FleetDeployed(st, sim, before, fleet, [])
    ensures NamesDistinct(Without(fleet, m.scenario) + [m])
  {
    hide Without, FleetDeployed;
    FleetDistinct(st, sim, before, fleet);
    WithoutDistinct(fleet, m.scenario);
    var rest := Without(fleet, m.scenario);
    var joined := rest + [m];
    forall i, j | 0 <= i < j < |joined| ensures joined[i].scenario != joined[j].scenario {
      if j == |rest| {
        WithoutMember(fleet, m.scenario, i);
      }
    }
  }

  lemma FleetDistinct(st: Store, sim: string, before: seq<RuntimeMapping>, fleet: seq<Member>)
    requires FleetDeployed(st, sim, before, fleet, [])
    ensures NamesDistinct(fleet)
  {
  }

  lemma NothingForeign(st: Store, sim: string, fleet: seq<Member>)
    ensures Foreign(st, sim, fleet, []) && Registered(st, [])
  {
  }

  lemma KeptRegistered(st: Store, after: Store, sim: string, before: seq<RuntimeMapping>, name: string)
    requires Registered(st, before)
    requires name in after.states && forall other | other in st.states && other != name :: SameState(st, after, other)
    ensures Registered(after, Drop(before, InScenario(name)))
  {
    DropMembers(before, InScenario(name));
  }

  lemma NewCurrent(st: Store, sim: string, m: Member)
    requires MemberSound(st, sim, m) && st.states[ScenarioName(sim, m.scenario)].state == m.definition.initialState
    ensures StateOf(st.states, sim, m) == m.definition.initialState
  {
    DeclaredCurrent(st, sim, m);
  }

  lemma JoinedMember(st: Store, after: Store, sim: string, before: seq<RuntimeMapping>, fleet: seq<Member>, m: Member,
                     x: Member)
    requires FleetDeployed(st, sim, before, fleet, []) && WellFormed(m.definition) && NoClashes(m.definition.states)
    requires x == m || (x in fleet && x.scenario != m.scenario)
    requires var name := ScenarioName(sim, m.scenario);
      && name in after.states && after.states[name].state == m.definition.initialState
      && (forall other | other in st.states && other != name :: SameState(st, after, other))
    ensures MemberSound(after, sim, x)
    ensures Unrelated(after, ScenarioName(sim, x.scenario), Drop(before, InScenario(ScenarioName(sim, m.scenario))))
  {
    var name := ScenarioName(sim, m.scenario);
    DropMembers(before, InScenario(name));
    InitialIsDeclared(m.definition);
    hide WellFormed, NoClashes, StateNames, FleetMappings, Drop;
    var kept := Drop(before, InScenario(name));
    forall i | 0 <= i < |kept| ensures kept[i] in before && kept[i].scenarioName != Some(name) {
      assert kept[i] in kept;
    }
    if x != m {
      NamesDiffer(sim, x.scenario, m.scenario);
      var k :| 0 <= k < |fleet| && fleet[k] == x;
      assert MemberSound(st, sim, fleet[k]) && Unrelated(st, ScenarioName(sim, fleet[k].scenario), before);
    }
    forall i | 0 <= i < |kept|
      ensures kept[i].scenarioName != Some(ScenarioName(sim, x.scenario))
      ensures kept[i].scenarioName.Some? ==> kept[i].scenarioName.value in after.states
    {
      assert kept[i] in before && kept[i].scenarioName != Some(name);
    }
  }

  lemma InitialIsDeclared(d: Definition)
    requires WellFormed(d)
    ensures d.initialState in StateNames(d)
  {
  }
}
