/** Running a compiled scenario on the native runtime simulates its state machine. */
module CompilerCorrectness {
  import opened Wrappers
  import opened RuntimeModel
  import opened RuntimeStore
  import opened RuntimeSemantics
  import opened Scenario
  import opened Translation
  import opened Compiler

  /** No handler asks one header, in two spellings, for two values. */
  ghost predicate NoClashes(states: seq<State>) {
    forall s, i | 0 <= s < |states| && 0 <= i < |states[s].handlers| ::
      !HeadersClash(states[s].handlers[i].request.headers)
  }

  ghost predicate KnownVerbs(handlers: seq<Handler>) {
    forall i | 0 <= i < |handlers| :: handlers[i].request.verb in VERBS
  }

  ghost predicate ClashFree(handlers: seq<Handler>) {
    forall i | 0 <= i < |handlers| :: !HeadersClash(handlers[i].request.headers)
  }

  // ---------------------------------------------------- first match = first handler

  lemma CompiledMatches(re: FullMatch, states: map<string, Ownership>, sim: string, scenario: string,
                        state: string, h: Handler, req: Request)
    requires h.request.verb in VERBS && !HeadersClash(h.request.headers)
    ensures Matches(re, states, FromWire(CompiledHandler(sim, scenario, state, h)), req)
      <==> Accepts(h, req) && CurrentState(states, ScenarioName(sim, scenario)) == state
  {
    CompiledAccepts(re, sim, scenario, state, h, req);
    hide RequestMatches, Accepts;
  }

  lemma {:induction false} StateFirst(re: FullMatch, states: map<string, Ownership>, sim: string, scenario: string,
                                      s: State, req: Request)
    requires KnownVerbs(s.handlers) && ClashFree(s.handlers)
    ensures FirstMatch(re, states, FromWires(CompiledState(sim, scenario, s)), req) ==
      if CurrentState(states, ScenarioName(sim, scenario)) != s.name then None else
      match FirstAccepting(s.handlers, req)
      case None => None
      case Some(h) => Some(FromWire(CompiledHandler(sim, scenario, s.name, h)))
    decreases |s.handlers|
  {
    hide CompiledHandler, FromWire, Matches, Accepts, HeadersClash;
    if s.handlers != [] {
      var rest := s.(handlers := s.handlers[1..]);
      CompiledMatches(re, states, sim, scenario, s.name, s.handlers[0], req);
      assert FromWires(CompiledState(sim, scenario, s))[1..] == FromWires(CompiledState(sim, scenario, rest));
      StateFirst(re, states, sim, scenario, rest, req);
    }
  }

  /** Of all the compiled mappings, the first that matches belongs to the first
      accepting handler of the current state. */
  lemma {:induction false} CompiledFirst(re: FullMatch, states: map<string, Ownership>, sim: string, scenario: string,
                                         defined: seq<State>, req: Request)
    requires forall i | 0 <= i < |defined| :: KnownVerbs(defined[i].handlers) && ClashFree(defined[i].handlers)
    requires forall i, j | 0 <= i < j < |defined| :: defined[i].name != defined[j].name
    ensures var current := CurrentState(states, ScenarioName(sim, scenario));
      FirstMatch(re, states, FromWires(CompiledStates(sim, scenario, defined)), req) ==
        match StateIndex(defined, current)
        case None => None
        case Some(i) =>
          match FirstAccepting(defined[i].handlers, req)
          case None => None
          case Some(h) => Some(FromWire(CompiledHandler(sim, scenario, current, h)))
    decreases |defined|
  {
    hide CompiledHandler, FromWire, Matches, FirstAccepting, CompiledState, KnownVerbs, ClashFree, CurrentState;
    if defined != [] {
      var front, last := defined[..|defined| - 1], defined[|defined| - 1];
      CompiledFirst(re, states, sim, scenario, front, req);
      StateFirst(re, states, sim, scenario, last, req);
      var a, b := CompiledStates(sim, scenario, front), CompiledState(sim, scenario, last);
      assert FromWires(a + b) == FromWires(a) + FromWires(b);
      FirstMatchAppend(re, states, FromWires(a), FromWires(b), req);
    }
  }

  /** The better of what an earlier and a later list offer. */
  function Better(earlier: Option<RuntimeMapping>, later: Option<RuntimeMapping>): Option<RuntimeMapping> {
    if later.Some? && (earlier == None || later.value.priority < earlier.value.priority) then later else earlier
  }

  lemma {:induction false} BestMappingAppend(re: FullMatch, states: map<string, Ownership>,
                                             a: seq<RuntimeMapping>, b: seq<RuntimeMapping>, req: Request)
    ensures BestMapping(re, states, a + b, req)
      == Better(BestMapping(re, states, a, req), BestMapping(re, states, b, req))
    decreases |b|
  {
    hide Matches, BestMapping;
    if b == [] {
      assert a + b == a;
      BestOfNone(re, states, req);
    } else {
      var front, last := b[..|b| - 1], b[|b| - 1];
      BestMappingAppend(re, states, a, front, req);
      assert (a + front) + [last] == a + b && front + [last] == b;
      BestMappingSnoc(re, states, a + front, last, req);
      BestMappingSnoc(re, states, front, last, req);
    }
  }

  lemma BestOfNone(re: FullMatch, states: map<string, Ownership>, req: Request)
    ensures BestMapping(re, states, [], req) == None
  {
  }

  ghost predicate Urgent(mappings: seq<RuntimeMapping>) {
    forall i | 0 <= i < |mappings| :: mappings[i].priority == 1
  }

  /** Of mappings of one priority the first match is the best. */
  lemma {:induction false} UrgentBest(re: FullMatch, states: map<string, Ownership>, urgent: seq<RuntimeMapping>,
                                      req: Request)
    requires Urgent(urgent)
    ensures BestMapping(re, states, urgent, req) == FirstMatch(re, states, urgent, req)
    ensures FirstMatch(re, states, urgent, req).Some? ==> FirstMatch(re, states, urgent, req).value.priority == 1
    decreases |urgent|
  {
    hide Matches, BestMapping;
    if urgent == [] {
      BestOfNone(re, states, req);
    } else {
      var front, last := urgent[..|urgent| - 1], urgent[|urgent| - 1];
      UrgentBest(re, states, front, req);
      assert front + [last] == urgent;
      BestMappingSnoc(re, states, front, last, req);
      FirstMatchAppend(re, states, front, [last], req);
    }
  }

  /** Whether a mapping before or after a list of priority 1 wins over whatever in the
      list matches. */
  predicate Preempts(earlier: Option<RuntimeMapping>, later: Option<RuntimeMapping>) {
    (earlier.Some? && earlier.value.priority <= 1) || (later.Some? && later.value.priority < 1)
  }

  predicate Preempted(re: FullMatch, states: map<string, Ownership>,
                      before: seq<RuntimeMapping>, after: seq<RuntimeMapping>, req: Request) {
    Preempts(BestMapping(re, states, before, req), BestMapping(re, states, after, req))
  }

  /** Mappings of priority 1 between others: their first match answers exactly when no
      other preempts it; otherwise the others answer as if they were alone. */
  lemma UrgentSplit(re: FullMatch, states: map<string, Ownership>, before: seq<RuntimeMapping>,
                    urgent: seq<RuntimeMapping>, after: seq<RuntimeMapping>, req: Request)
    requires Urgent(urgent)
    ensures BestMapping(re, states, before + urgent + after, req) ==
      if FirstMatch(re, states, urgent, req).Some? && !Preempted(re, states, before, after, req)
      then FirstMatch(re, states, urgent, req)
      else BestMapping(re, states, before + after, req)
  {
    hide BestMapping, FirstMatch;
    BestMappingAppend(re, states, before + urgent, after, req);
    BestMappingAppend(re, states, before, urgent, req);
    BestMappingAppend(re, states, before, after, req);
    UrgentBest(re, states, urgent, req);
  }

  lemma {:induction false} CompiledPriorities(sim: string, scenario: string, states: seq<State>)
    ensures Urgent(FromWires(CompiledStates(sim, scenario, states)))
    decreases |states|
  {
    if states != [] {
      var front, last := states[..|states| - 1], states[|states| - 1];
      CompiledPriorities(sim, scenario, front);
      var a, b := CompiledStates(sim, scenario, front), CompiledState(sim, scenario, last);
      assert FromWires(a + b) == FromWires(a) + FromWires(b);
    }
  }

  // ---------------------------------------------------------------- the simulation

  /** The scenario is deployed in one of its states, between any other mappings that
      belong to other scenarios, each of them deployed too. */
  ghost predicate Deployed(st: Store, sim: string, scenario: string, d: Definition,
                           before: seq<RuntimeMapping>, after: seq<RuntimeMapping>) {
    var name := ScenarioName(sim, scenario);
    && MappingsOf(st, sim) == before + RuntimeMappings(sim, scenario, d) + after
    && name in st.states && st.states[name].state != ""
    && Unrelated(st, name, before) && Unrelated(st, name, after)
  }

  ghost predicate Unrelated(st: Store, name: string, others: seq<RuntimeMapping>) {
    forall i | 0 <= i < |others| ::
      && others[i].scenarioName != Some(name)
      && (others[i].scenarioName.Some? ==> others[i].scenarioName.value in st.states)
  }

  /** Which mapping answers: the current state's first accepting handler unless another
      mapping preempts it, or else the best of the other mappings. */
  lemma SelectedMapping(re: FullMatch, st: Store, sim: string, scenario: string, d: Definition,
                        before: seq<RuntimeMapping>, after: seq<RuntimeMapping>, req: Request)
    requires WellFormed(d) && NoClashes(d.states) && Deployed(st, sim, scenario, d, before, after)
    ensures var state := st.states[ScenarioName(sim, scenario)].state;
      var accepting := FirstAccepting(HandlersOf(d, state), req);
      Select(re, st, sim, req) ==
        if accepting.Some? && !Preempted(re, st.states, before, after, req)
        then Some(FromWire(CompiledHandler(sim, scenario, state, accepting.value)))
        else BestMapping(re, st.states, before + after, req)
  {
    CompiledPriorities(sim, scenario, d.states);
    hide CompiledHandler, FromWire, FirstAccepting, WellFormed, NoClashes, KnownVerbs, ClashFree, FirstMatch,
      Preempted, BestMapping;
    ScenarioFirst(re, st.states, sim, scenario, d, req);
    UrgentSplit(re, st.states, before, RuntimeMappings(sim, scenario, d), after, req);
  }

  /** Of one scenario's mappings, the first match belongs to the first accepting handler
      of the current state. */
  lemma ScenarioFirst(re: FullMatch, states: map<string, Ownership>, sim: string, scenario: string, d: Definition,
                      req: Request)
    requires WellFormed(d) && NoClashes(d.states) && ScenarioName(sim, scenario) in states
    requires states[ScenarioName(sim, scenario)].state != ""
    ensures var state := states[ScenarioName(sim, scenario)].state;
      FirstMatch(re, states, RuntimeMappings(sim, scenario, d), req) ==
        match FirstAccepting(HandlersOf(d, state), req)
        case None => None
        case Some(h) => Some(FromWire(CompiledHandler(sim, scenario, state, h)))
  {
    hide CompiledHandler, FromWire, FirstAccepting, KnownVerbs, ClashFree, FirstMatch;
    HandlersTyped(d);
    NoHandlers(req);
    CompiledFirst(re, states, sim, scenario, d.states, req);
  }

  lemma NoHandlers(req: Request)
    ensures FirstAccepting([], req) == None
  {
  }

  lemma HandlersTyped(d: Definition)
    requires WellFormed(d) && NoClashes(d.states)
    ensures forall i | 0 <= i < |d.states| :: KnownVerbs(d.states[i].handlers) && ClashFree(d.states[i].handlers)
  {
    forall i | 0 <= i < |d.states| ensures KnownVerbs(d.states[i].handlers) && ClashFree(d.states[i].handlers) {
      assert StateWellFormed(d.states[i], StateNames(d));
    }
  }

  lemma HandlerTyped(d: Definition, state: string, h: Handler)
    requires WellFormed(d) && NoClashes(d.states) && h in HandlersOf(d, state)
    ensures h.request.verb in VERBS && !HeadersClash(h.request.headers)
  {
    hide HeadersClash;
    HandlersTyped(d);
    var i := StateIndex(d.states, state).value;
    assert KnownVerbs(d.states[i].handlers) && ClashFree(d.states[i].handlers);
  }

  /** The scenario takes this request: its state has a handler for it and no other
      mapping preempts it. */
  predicate Takes(re: FullMatch, states: map<string, Ownership>, name: string, d: Definition,
                  before: seq<RuntimeMapping>, after: seq<RuntimeMapping>, req: Request) {
    && FirstAccepting(HandlersOf(d, CurrentState(states, name)), req).Some?
    && !Preempted(re, states, before, after, req)
  }

  lemma TakenStep(re: FullMatch, limit: nat, st: Store, sim: string, scenario: string, d: Definition,
                  before: seq<RuntimeMapping>, after: seq<RuntimeMapping>, req: Request)
    requires WellFormed(d) && NoClashes(d.states) && Deployed(st, sim, scenario, d, before, after)
    requires Takes(re, st.states, ScenarioName(sim, scenario), d, before, after, req)
    ensures var name := ScenarioName(sim, scenario);
      var result := Execute(re, limit, st, sim, req);
      var (state, answer) := Step(d, st.states[name].state, req);
      && result.Some? && result.value.0.mappings == st.mappings
      && result.value.0.states == st.states[name := st.states[name].(state := state)]
      && answer == Some(result.value.1)
  {
    var state := st.states[ScenarioName(sim, scenario)].state;
    SelectedMapping(re, st, sim, scenario, d, before, after, req);
    ExecuteOutcome(re, limit, st, sim, req);
    hide Execute, WellFormed, NoClashes, Select, BestMapping, FirstAccepting, CompiledHandler, HandlerReply, Reply,
      Transition, Preempted;
    var h := FirstAccepting(HandlersOf(d, state), req).value;
    CompiledReplies(sim, scenario, state, h);
    CompiledMoves(st, sim, scenario, state, h);
  }

  lemma PassedStep(re: FullMatch, limit: nat, st: Store, sim: string, scenario: string, d: Definition,
                   before: seq<RuntimeMapping>, after: seq<RuntimeMapping>, req: Request)
    requires WellFormed(d) && NoClashes(d.states) && Deployed(st, sim, scenario, d, before, after)
    requires !Takes(re, st.states, ScenarioName(sim, scenario), d, before, after, req)
    ensures var name := ScenarioName(sim, scenario);
      var result := Execute(re, limit, st, sim, req);
      && result.Some? && result.value.0.mappings == st.mappings
      && result.value.0.states.Keys == st.states.Keys
      && result.value.0.states[name] == st.states[name]
      && result.value.1 == ReplyOf(BestMapping(re, st.states, before + after, req))
  {
    SelectedMapping(re, st, sim, scenario, d, before, after, req);
    ExecuteOutcome(re, limit, st, sim, req);
    hide Execute, WellFormed, NoClashes, Select, BestMapping, FirstAccepting, CompiledHandler, Reply, Transition,
      Preempted;
    BestMappingMember(re, st.states, before + after, req);
    OthersMove(st, sim, scenario, d, before, after, BestMapping(re, st.states, before + after, req));
  }

  /** Moving the states of deployed scenarios keeps the deployment. */
  lemma StaysDeployed(st: Store, now: Store, sim: string, scenario: string, d: Definition,
                      before: seq<RuntimeMapping>, after: seq<RuntimeMapping>)
    requires Deployed(st, sim, scenario, d, before, after)
    requires now.mappings == st.mappings && now.states.Keys == st.states.Keys
    requires now.states[ScenarioName(sim, scenario)].state != ""
    ensures Deployed(now, sim, scenario, d, before, after)
  {
    hide RuntimeMappings, StateNames;
  }

  /** One request: unless another mapping preempts it, the runtime does what the machine
      does; otherwise, or when no handler accepts, the other mappings answer and the
      scenario stays where it is. */
  lemma ExecuteSimulatesStep(re: FullMatch, limit: nat, st: Store, sim: string, scenario: string, d: Definition,
                             before: seq<RuntimeMapping>, after: seq<RuntimeMapping>, req: Request)
    requires WellFormed(d) && NoClashes(d.states) && Deployed(st, sim, scenario, d, before, after)
    ensures var name := ScenarioName(sim, scenario);
      var result := Execute(re, limit, st, sim, req);
      var (state, answer) := Step(d, CurrentState(st.states, name), req);
      && result.Some?
      && Deployed(result.value.0, sim, scenario, d, before, after)
      && (st.states[name].state in StateNames(d) ==> result.value.0.states[name].state in StateNames(d))
      && if answer.Some? && !Preempted(re, st.states, before, after, req) then
           && result.value.0.states == st.states[name := st.states[name].(state := state)]
           && result.value.1 == answer.value
         else
           && result.value.0.states[name] == st.states[name]
           && result.value.1 == ReplyOf(BestMapping(re, st.states, before + after, req))
  {
    hide Execute, WellFormed, NoClashes, BestMapping, Preempted, FirstAccepting, StateNames, HandlersOf,
      RuntimeMappings, HandlerReply;
    var name := ScenarioName(sim, scenario);
    StepStaysDeclared(d, st.states[name].state, req);
    if Takes(re, st.states, name, d, before, after, req) {
      TakenStep(re, limit, st, sim, scenario, d, before, after, req);
    } else {
      PassedStep(re, limit, st, sim, scenario, d, before, after, req);
    }
    StaysDeployed(st, Execute(re, limit, st, sim, req).value.0, sim, scenario, d, before, after);
  }

  lemma CompiledMoves(st: Store, sim: string, scenario: string, state: string, h: Handler)
    requires ScenarioName(sim, scenario) in st.states && st.states[ScenarioName(sim, scenario)].state == state
    ensures var name := ScenarioName(sim, scenario);
      var moved := Transition(st, Some(FromWire(CompiledHandler(sim, scenario, state, h))));
      && moved.Some?
      && moved.value.mappings == st.mappings
      && moved.value.states == st.states[name := st.states[name].(state := h.newState.GetOr(state))]
  {
  }

  lemma OthersMove(st: Store, sim: string, scenario: string, d: Definition, before: seq<RuntimeMapping>,
                   after: seq<RuntimeMapping>, selected: Option<RuntimeMapping>)
    requires Deployed(st, sim, scenario, d, before, after) && (selected.Some? ==> selected.value in before + after)
    ensures var name := ScenarioName(sim, scenario);
      var moved := Transition(st, selected);
      && moved.Some?
      && moved.value.states.Keys == st.states.Keys
      && moved.value.states[name] == st.states[name]
  {
  }

  lemma BestMappingMember(re: FullMatch, states: map<string, Ownership>, mappings: seq<RuntimeMapping>, req: Request)
    ensures BestMapping(re, states, mappings, req).Some? ==> BestMapping(re, states, mappings, req).value in mappings
  {
    hide Best;
  }

  function RunRuntime(re: FullMatch, limit: nat, st: Store, sim: string, reqs: seq<Request>)
    : Option<(Store, seq<Response>)>
  {
    if reqs == [] then Some((st, [])) else
      var (before, responses) :- RunRuntime(re, limit, st, sim, reqs[..|reqs| - 1]);
      var (after, response) :- Execute(re, limit, before, sim, reqs[|reqs| - 1]);
      Some((after, responses + [response]))
  }

  /** Which requests of a trace no other mapping preempts. */
  ghost function Mine(re: FullMatch, limit: nat, st: Store, sim: string, before: seq<RuntimeMapping>,
                      after: seq<RuntimeMapping>, reqs: seq<Request>): (mine: seq<bool>)
    requires RunRuntime(re, limit, st, sim, reqs).Some?
    ensures |mine| == |reqs|
  {
    if reqs == [] then [] else
      var now := RunRuntime(re, limit, st, sim, reqs[..|reqs| - 1]).value.0;
      Mine(re, limit, st, sim, before, after, reqs[..|reqs| - 1])
      + [!Preempted(re, now.states, before, after, reqs[|reqs| - 1])]
  }

  /** The requests that are a scenario's own. */
  function Chosen(reqs: seq<Request>, mine: seq<bool>): seq<Request>
    requires |reqs| == |mine|
  {
    if reqs == [] then [] else
      var n := |reqs| - 1;
      Chosen(reqs[..n], mine[..n]) + if mine[n] then [reqs[n]] else []
  }

  lemma {:induction false} ChosenSnoc(reqs: seq<Request>, mine: seq<bool>, req: Request, own: bool)
    requires |reqs| == |mine|
    ensures Chosen(reqs + [req], mine + [own]) == Chosen(reqs, mine) + if own then [req] else []
  {
    assert (reqs + [req])[..|reqs|] == reqs && (mine + [own])[..|reqs|] == mine;
  }

  /** What the i-th response is: the machine's, if the request is the scenario's own and
      the machine answers it. */
  ghost predicate Answers(d: Definition, start: string, reqs: seq<Request>, mine: seq<bool>, i: nat, response: Response,
                          alone: bool)
    requires i < |reqs| == |mine|
  {
    mine[i] ==>
      var answer := Step(d, RunMachine(d, start, Chosen(reqs[..i], mine[..i])).0, reqs[i]).1;
      if answer.Some? then response == answer.value else alone ==> response == NO_MATCH
  }

  /** Every trace, next to any other mappings: the runtime never fails, the scenario runs
      its machine on exactly the requests nothing preempts, and answers what the machine
      answers. With no other mappings the rest is 404. */
  lemma {:induction false} RuntimeSimulatesMachine(re: FullMatch, limit: nat, st: Store, sim: string, scenario: string,
                                                   d: Definition, before: seq<RuntimeMapping>,
                                                   after: seq<RuntimeMapping>,
                                                   reqs: seq<Request>)
    requires WellFormed(d) && NoClashes(d.states) && Deployed(st, sim, scenario, d, before, after)
    ensures var name := ScenarioName(sim, scenario);
      var start := CurrentState(st.states, name);
      var result := RunRuntime(re, limit, st, sim, reqs);
      && result.Some? && |result.value.1| == |reqs|
      && Deployed(result.value.0, sim, scenario, d, before, after)
      && var mine := Mine(re, limit, st, sim, before, after, reqs);
         && CurrentState(result.value.0.states, name) == RunMachine(d, start, Chosen(reqs, mine)).0
         && forall i: nat | i < |reqs| :: Answers(d, start, reqs, mine, i, result.value.1[i], before + after == [])
    ensures var name := ScenarioName(sim, scenario);
      CurrentState(st.states, name) in StateNames(d) ==>
        CurrentState(RunRuntime(re, limit, st, sim, reqs).value.0.states, name) in StateNames(d)
    decreases |reqs|
  {
    hide Execute, Step, WellFormed, NoClashes, Deployed, ScenarioName, Preempted, Answers, Chosen, RunMachine,
      CurrentState, StateNames;
    var start := CurrentState(st.states, ScenarioName(sim, scenario));
    if start in StateNames(d) {
      EveryRunDeclared(d, start);
    }
    if reqs == [] {
      NothingRun(d, start);
    } else {
      var front, last := reqs[..|reqs| - 1], reqs[|reqs| - 1];
      RuntimeSimulatesMachine(re, limit, st, sim, scenario, d, before, after, front);
      var own := Mine(re, limit, st, sim, before, after, front);
      var now := RunRuntime(re, limit, st, sim, front).value.0;
      var unhindered := !Preempted(re, now.states, before, after, last);
      LastAnswer(re, limit, now, sim, scenario, d, before, after, start, front, own, last);
      assert front + [last] == reqs && Mine(re, limit, st, sim, before, after, reqs) == own + [unhindered];
      forall i: nat | i < |front|
        ensures Answers(d, start, reqs, own + [unhindered], i, RunRuntime(re, limit, st, sim, front).value.1[i],
          before + after == [])
      {
        EarlierAnswer(d, start, front, own, i, RunRuntime(re, limit, st, sim, front).value.1[i], before + after == [],
          last, unhindered);
      }
    }
  }

  lemma EveryRunDeclared(d: Definition, start: string)
    requires WellFormed(d) && start in StateNames(d)
    ensures forall reqs :: RunMachine(d, start, reqs).0 in StateNames(d)
  {
    forall reqs ensures RunMachine(d, start, reqs).0 in StateNames(d) {
      RunStaysDeclared(d, start, reqs);
    }
  }

  lemma NothingRun(d: Definition, start: string)
    ensures RunMachine(d, start, Chosen([], [])).0 == start
  {
  }

  lemma EarlierAnswer(d: Definition, start: string, reqs: seq<Request>, mine: seq<bool>, i: nat, response: Response,
                      alone: bool, req: Request, own: bool)
    requires |reqs| == |mine| && i < |reqs| && Answers(d, start, reqs, mine, i, response, alone)
    ensures Answers(d, start, reqs + [req], mine + [own], i, response, alone)
  {
    assert (reqs + [req])[..i] == reqs[..i] && (mine + [own])[..i] == mine[..i];
  }

  lemma DeployedCurrent(st: Store, sim: string, scenario: string, d: Definition, before: seq<RuntimeMapping>,
                        after: seq<RuntimeMapping>)
    requires Deployed(st, sim, scenario, d, before, after)
    ensures var name := ScenarioName(sim, scenario);
      name in st.states && CurrentState(st.states, name) == st.states[name].state
  {
  }

  /** The last request moves the scenario as it moves the machine. */
  lemma LastMove(re: FullMatch, limit: nat, now: Store, sim: string, scenario: string, d: Definition,
                 before: seq<RuntimeMapping>, after: seq<RuntimeMapping>, start: string,
                 reqs: seq<Request>, mine: seq<bool>, req: Request)
    requires WellFormed(d) && NoClashes(d.states) && Deployed(now, sim, scenario, d, before, after) && |reqs| == |mine|
    requires CurrentState(now.states, ScenarioName(sim, scenario)) == RunMachine(d, start, Chosen(reqs, mine)).0
    ensures var result := Execute(re, limit, now, sim, req);
      var unhindered := !Preempted(re, now.states, before, after, req);
      && result.Some? && Deployed(result.value.0, sim, scenario, d, before, after)
      && CurrentState(result.value.0.states, ScenarioName(sim, scenario))
           == RunMachine(d, start, Chosen(reqs + [req], mine + [unhindered])).0
  {
    hide Execute, Step, WellFormed, NoClashes, ScenarioName, Preempted, Chosen, RunMachine, RuntimeMappings,
      StateNames, FirstAccepting, BestMapping, CurrentState;
    var state := CurrentState(now.states, ScenarioName(sim, scenario));
    ExecuteSimulatesStep(re, limit, now, sim, scenario, d, before, after, req);
    DeployedCurrent(now, sim, scenario, d, before, after);
    StepWithoutAnswer(d, state, req);
    RunMachineSnoc(d, start, Chosen(reqs, mine), req);
    ChosenSnoc(reqs, mine, req, !Preempted(re, now.states, before, after, req));
    assert Chosen(reqs, mine) + [] == Chosen(reqs, mine);
    DeployedCurrent(Execute(re, limit, now, sim, req).value.0, sim, scenario, d, before, after);
  }

  lemma AnswersLast(d: Definition, start: string, reqs: seq<Request>, mine: seq<bool>, req: Request, own: bool,
                    response: Response, alone: bool)
    requires |reqs| == |mine|
    requires var answer := Step(d, RunMachine(d, start, Chosen(reqs, mine)).0, req).1;
      own ==> if answer.Some? then response == answer.value else alone ==> response == NO_MATCH
    ensures Answers(d, start, reqs + [req], mine + [own], |reqs|, response, alone)
  {
    hide Step, RunMachine, Chosen;
    assert (reqs + [req])[..|reqs|] == reqs && (mine + [own])[..|reqs|] == mine;
  }

  lemma LastAnswer(re: FullMatch, limit: nat, now: Store, sim: string, scenario: string, d: Definition,
                   before: seq<RuntimeMapping>, after: seq<RuntimeMapping>, start: string,
                   reqs: seq<Request>, mine: seq<bool>, req: Request)
    requires WellFormed(d) && NoClashes(d.states) && Deployed(now, sim, scenario, d, before, after) && |reqs| == |mine|
    requires CurrentState(now.states, ScenarioName(sim, scenario)) == RunMachine(d, start, Chosen(reqs, mine)).0
    ensures var result := Execute(re, limit, now, sim, req);
      var unhindered := !Preempted(re, now.states, before, after, req);
      && result.Some? && Deployed(result.value.0, sim, scenario, d, before, after)
      && CurrentState(result.value.0.states, ScenarioName(sim, scenario))
           == RunMachine(d, start, Chosen(reqs + [req], mine + [unhindered])).0
      && Answers(d, start, reqs + [req], mine + [unhindered], |reqs|, result.value.1, before + after == [])
  {
    hide Execute, Step, WellFormed, NoClashes, ScenarioName, Preempted, Chosen, RunMachine, Deployed, CurrentState,
      Answers, BestMapping;
    LastMove(re, limit, now, sim, scenario, d, before, after, start, reqs, mine, req);
    ExecuteSimulatesStep(re, limit, now, sim, scenario, d, before, after, req);
    if before + after == [] {
      BestOfNone(re, now.states, req);
    }
    AnswersLast(d, start, reqs, mine, req, !Preempted(re, now.states, before, after, req),
      Execute(re, limit, now, sim, req).value.1, before + after == []);
  }

  lemma StepWithoutAnswer(d: Definition, state: string, req: Request)
    ensures Step(d, state, req).1 == None ==> Step(d, state, req).0 == state
  {
  }

  lemma RunMachineSnoc(d: Definition, state: string, reqs: seq<Request>, req: Request)
    ensures RunMachine(d, state, reqs + [req]).0 == Step(d, RunMachine(d, state, reqs).0, req).0
  {
    assert (reqs + [req])[..|reqs|] == reqs;
  }

  /** No other mapping as urgent: every request is the scenario's own. */
  lemma LessUrgentNeverPreempt(re: FullMatch, states: map<string, Ownership>, before: seq<RuntimeMapping>,
                               after: seq<RuntimeMapping>, req: Request)
    requires forall m | m in before :: m.priority > 1
    requires forall m | m in after :: m.priority >= 1
    ensures !Preempted(re, states, before, after, req)
  {
    BestMappingMember(re, states, before, req);
    BestMappingMember(re, states, after, req);
    hide BestMapping;
  }

  lemma {:induction false} AllMine(re: FullMatch, limit: nat, st: Store, sim: string, before: seq<RuntimeMapping>,
                                   after: seq<RuntimeMapping>, reqs: seq<Request>)
    requires RunRuntime(re, limit, st, sim, reqs).Some?
    requires forall m | m in before :: m.priority > 1
    requires forall m | m in after :: m.priority >= 1
    ensures forall i | 0 <= i < |reqs| :: Mine(re, limit, st, sim, before, after, reqs)[i]
    decreases |reqs|
  {
    hide Execute, Preempted;
    if reqs != [] {
      var front := reqs[..|reqs| - 1];
      AllMine(re, limit, st, sim, before, after, front);
      var now := RunRuntime(re, limit, st, sim, front).value.0;
      LessUrgentNeverPreempt(re, now.states, before, after, reqs[|reqs| - 1]);
      var most := Mine(re, limit, st, sim, before, after, front);
      assert Mine(re, limit, st, sim, before, after, reqs) == most + [true];
      forall i | 0 <= i < |reqs| ensures (most + [true])[i] {
        assert i < |front| ==> most[i];
      }
    }
  }

  lemma {:induction false} ChosenAll(reqs: seq<Request>, mine: seq<bool>)
    requires |reqs| == |mine| && forall i | 0 <= i < |mine| :: mine[i]
    ensures Chosen(reqs, mine) == reqs
    decreases |reqs|
  {
    if reqs != [] {
      ChosenAll(reqs[..|reqs| - 1], mine[..|reqs| - 1]);
    }
  }

  /** An answer of a run is the answer of the step after the requests before it. */
  lemma {:induction false} MachineAnswer(d: Definition, state: string, reqs: seq<Request>, i: nat)
    requires i < |reqs|
    ensures |RunMachine(d, state, reqs).1| == |reqs|
    ensures RunMachine(d, state, reqs).1[i] == Step(d, RunMachine(d, state, reqs[..i]).0, reqs[i]).1
    decreases |reqs|
  {
    hide Step;
    var front := reqs[..|reqs| - 1];
    MachineAnswers(d, state, front);
    if i < |front| {
      MachineAnswer(d, state, front, i);
      assert front[..i] == reqs[..i];
    }
  }

  lemma {:induction false} MachineAnswers(d: Definition, state: string, reqs: seq<Request>)
    ensures |RunMachine(d, state, reqs).1| == |reqs|
    decreases |reqs|
  {
    hide Step;
    if reqs != [] {
      MachineAnswers(d, state, reqs[..|reqs| - 1]);
    }
  }

  /** What the machine answers to the i-th request is what the runtime answers; what it
      does not answer is 404 when the scenario is alone. */
  ghost predicate AnswersAsMachine(answer: Option<Response>, response: Response, alone: bool) {
    if answer.Some? then response == answer.value else alone ==> response == NO_MATCH
  }

  /** With only less urgent mappings before it and no more urgent ones behind it, a
      compiled scenario runs its machine on the whole trace. */
  lemma UndisturbedRunsMachine(re: FullMatch, limit: nat, st: Store, sim: string, scenario: string, d: Definition,
                               before: seq<RuntimeMapping>, after: seq<RuntimeMapping>, reqs: seq<Request>)
    requires WellFormed(d) && NoClashes(d.states) && Deployed(st, sim, scenario, d, before, after)
    requires forall m | m in before :: m.priority > 1
    requires forall m | m in after :: m.priority >= 1
    ensures var name := ScenarioName(sim, scenario);
      var result := RunRuntime(re, limit, st, sim, reqs);
      var (state, answers) := RunMachine(d, CurrentState(st.states, name), reqs);
      && result.Some? && |result.value.1| == |answers| == |reqs|
      && CurrentState(result.value.0.states, name) == state
      && forall i | 0 <= i < |reqs| :: AnswersAsMachine(answers[i], result.value.1[i], before + after == [])
  {
    hide Execute, Step, WellFormed, NoClashes, Deployed, ScenarioName, Answers, Chosen, RunMachine, CurrentState, Mine,
      RunRuntime, AnswersAsMachine;
    var start := CurrentState(st.states, ScenarioName(sim, scenario));
    RuntimeSimulatesMachine(re, limit, st, sim, scenario, d, before, after, reqs);
    AllMine(re, limit, st, sim, before, after, reqs);
    var mine := Mine(re, limit, st, sim, before, after, reqs);
    ChosenAll(reqs, mine);
    MachineAnswers(d, start, reqs);
    var responses := RunRuntime(re, limit, st, sim, reqs).value.1;
    forall i | 0 <= i < |reqs|
      ensures AnswersAsMachine(RunMachine(d, start, reqs).1[i], responses[i], before + after == [])
    {
      UndisturbedAnswer(d, start, reqs, mine, i, responses[i], before + after == []);
    }
  }

  lemma UndisturbedAnswer(d: Definition, start: string, reqs: seq<Request>, mine: seq<bool>, i: nat,
                          response: Response, alone: bool)
    requires |reqs| == |mine| && i < |reqs| && Answers(d, start, reqs, mine, i, response, alone)
    requires forall k | 0 <= k < |mine| :: mine[k]
    ensures i < |RunMachine(d, start, reqs).1| && AnswersAsMachine(RunMachine(d, start, reqs).1[i], response, alone)
  {
    hide Step, RunMachine, Chosen;
    MachineAnswer(d, start, reqs, i);
    ChosenAll(reqs[..i], mine[..i]);
  }

  ghost predicate AllRegistered(st: Store, sim: string) {
    forall m | m in MappingsOf(st, sim) && m.scenarioName.Some? :: m.scenarioName.value in st.states
  }

  /** Deploying the compiled mappings puts them behind whatever else is deployed, and the
      scenario in its initial state. */
  lemma DeployScenarioDeploys(st: Store, sim: string, scenario: string, d: Definition)
    requires WellFormed(d) && AllRegistered(st, sim)
    ensures var name := ScenarioName(sim, scenario);
      var after := DeployScenario(st, sim, RuntimeMappings(sim, scenario, d), name, d.initialState);
      && Deployed(after, sim, scenario, d, Drop(MappingsOf(st, sim), InScenario(name)), [])
      && after.states[name].state == d.initialState
  {
    hide RuntimeMappings;
    var name := ScenarioName(sim, scenario);
    var others := Drop(MappingsOf(st, sim), InScenario(name));
    DropMembers(MappingsOf(st, sim), InScenario(name));
    forall i | 0 <= i < |others|
      ensures others[i].scenarioName != Some(name)
      ensures others[i].scenarioName.Some? ==> others[i].scenarioName.value in st.states
    {
      assert others[i] in others;
    }
    assert others + RuntimeMappings(sim, scenario, d) + [] == others + RuntimeMappings(sim, scenario, d);
  }
}
