/** What a handler promises its callers, in terms of what its author wrote: the requests
    it takes and the answers it gives, and the mapping that does so on a runtime. */
module HandlerOutcomes {
  import opened Wrappers
  import opened Json
  import opened Text
  import opened RuntimeModel
  import opened RuntimeSemantics
  import opened RuntimeAnswers
  import opened Scenario
  import opened Translation
  import opened Compiler

  /** The query parameters listed win over those of the path, all of which are kept. */
  ghost predicate AsksQuery(h: Handler, name: string, value: string) {
    if name in h.request.queryParameters then h.request.queryParameters[name] == value
    else name in h.request.url.query && h.request.url.query[name] == value
  }

  ghost predicate GivesQuery(req: Request, name: string, value: string) {
    name in req.url.query && req.url.query[name] == value
  }

  /** Everything the handler asks is in the request; what else that holds does not matter. */
  ghost predicate Takes(h: Handler, req: Request) {
    && h.request.verb == Upper(req.verb)
    && h.request.url.path == req.url.path
    && (forall name, value | AsksQuery(h, name, value) :: GivesQuery(req, name, value))
    && (forall i: nat | i < |h.request.headers| ::
          GivesHeader(req.headers, Lower(h.request.headers[i].0), h.request.headers[i].1))
    && (h.request.jsonBody == Null || h.request.jsonBody == req.body)
  }

  lemma QueryAsked(h: Handler, name: string, value: string)
    ensures AsksQuery(h, name, value) <==> name in HandlerQuery(h) && HandlerQuery(h)[name] == value
  {
  }

  lemma TakesIff(h: Handler, req: Request)
    ensures Accepts(h, req) <==> Takes(h, req)
  {
    hide HandlerQuery, Upper, Lower, GivesHeader;
    forall name, value
      ensures AsksQuery(h, name, value) <==> name in HandlerQuery(h) && HandlerQuery(h)[name] == value
    {
      QueryAsked(h, name, value);
    }
    hide AsksQuery;
    if Takes(h, req) {
      forall name | name in HandlerQuery(h) ensures Lookup(req.url.query, name) == Some(HandlerQuery(h)[name]) {
        assert AsksQuery(h, name, HandlerQuery(h)[name]);
      }
    }
    forall i: nat | i < |h.request.headers|
      ensures Lookup(HeaderValues(req.headers), Lower(h.request.headers[i].0)) == Some(h.request.headers[i].1)
        <==> GivesHeader(req.headers, Lower(h.request.headers[i].0), h.request.headers[i].1)
    {
      ValuesGiven(req.headers, Lower(h.request.headers[i].0), h.request.headers[i].1);
    }
  }

  /** The headers written for the response, and a JSON content type unless it has its own. */
  ghost predicate OwnHeaders(h: Handler, headers: map<string, string>, name: string) {
    if name in h.response.headers then name in headers && headers[name] == h.response.headers[name]
    else if name == "Content-Type" then name in headers && headers[name] == "application/json"
    else name !in headers
  }

  ghost predicate WireName(fault: Fault, name: string) {
    name == match fault
      case EmptyResponse => "EMPTY_RESPONSE"
      case ConnectionReset => "CONNECTION_RESET_BY_PEER"
      case MalformedResponse => "MALFORMED_RESPONSE_CHUNK"
  }

  /** A fault is reported instead of the body, under the name it has on the wire. */
  ghost predicate Breaks(h: Handler, reply: Response, fault: string) {
    && reply.status == 503
    && reply.body == Object(map["code" := Json.Text("INJECTED_FAULT"), "fault" := Json.Text(fault),
                                "synthetic" := Bool(true)])
    && "x-simuloom-fault" in reply.headers && reply.headers["x-simuloom-fault"] == fault
    && forall name | name != "x-simuloom-fault" :: OwnHeaders(h, reply.headers, name)
  }

  ghost predicate Answers(h: Handler, reply: Response) {
    match h.response.fault
    case None =>
      && reply.status == h.response.status && reply.body == h.response.jsonBody
      && forall name :: OwnHeaders(h, reply.headers, name)
    case Some(fault) => exists name :: WireName(fault, name) && Breaks(h, reply, name)
  }

  lemma ReplyAnswers(h: Handler)
    ensures Answers(h, HandlerReply(h))
  {
    if h.response.fault.Some? {
      assert WireName(h.response.fault.value, FaultName(h.response.fault.value));
    }
  }

  /** The first of the handlers to take the request answers it and says where it leads. */
  ghost predicate Serves(handlers: seq<Handler>, i: nat, req: Request, state: string, after: string, reply: Response) {
    && i < |handlers|
    && Takes(handlers[i], req)
    && (forall j: nat | j < i :: !Takes(handlers[j], req))
    && Answers(handlers[i], reply)
    && (handlers[i].newState.Some? ==> after == handlers[i].newState.value)
    && (handlers[i].newState == None ==> after == state)
  }

  ghost predicate NoneTakes(handlers: seq<Handler>, req: Request) {
    forall i: nat | i < |handlers| :: !Takes(handlers[i], req)
  }

  ghost predicate OnlyNamed(states: seq<State>, k: nat) {
    k < |states| && forall j: nat | j < |states| && j != k :: states[j].name != states[k].name
  }

  lemma HandlersOfNamed(d: Definition, k: nat)
    requires OnlyNamed(d.states, k)
    ensures HandlersOf(d, d.states[k].name) == d.states[k].handlers
  {
  }

  /** One step of the machine: the first handler of the state that takes the request answers
      and moves; without one there is no answer and the state stays. */
  lemma StepMeans(d: Definition, k: nat, req: Request)
    requires OnlyNamed(d.states, k)
    ensures var state, handlers := d.states[k].name, d.states[k].handlers;
      match Step(d, state, req)
      case (after, Some(reply)) => exists i :: Serves(handlers, i, req, state, after, reply)
      case (after, None) => after == state && NoneTakes(handlers, req)
  {
    HandlersOfNamed(d, k);
    var state, handlers := d.states[k].name, d.states[k].handlers;
    FirstAcceptingIsHandler(handlers, req);
    forall i: nat | i < |handlers| ensures Accepts(handlers[i], req) <==> Takes(handlers[i], req) {
      TakesIff(handlers[i], req);
    }
    hide Accepts, Takes, Answers, HandlerReply, HandlersOf;
    if FirstAccepting(handlers, req).Some? {
      var h := FirstAccepting(handlers, req).value;
      ReplyAnswers(h);
      var i: nat :| i < |handlers| && handlers[i] == h && Accepts(h, req)
        && forall j | 0 <= j < i :: !Accepts(handlers[j], req);
      assert Serves(handlers, i, req, state, h.newState.GetOr(state), HandlerReply(h));
    }
  }

  // ------------------------------------------------------------- the deployed mapping

  ghost predicate Ascends(headers: seq<(string, string)>) {
    forall i, j | 0 <= i < j < |headers| :: Lexicographic(headers[i].0, headers[j].0)
  }

  lemma NotAfter(a: string, b: string)
    ensures Lexicographic(a, b) <==> TextLeq(a, b)
    ensures TextLeq(a, b) || TextLeq(b, a)
  {
    TextLeqIff(a, b);
    TextLeqTotal(a, b);
  }

  lemma SnocAscends(headers: seq<(string, string)>, last: (string, string))
    requires Ascends(headers) && forall h | h in headers :: Lexicographic(h.0, last.0)
    ensures Ascends(headers + [last])
  {
    hide Lexicographic;
  }

  lemma {:induction false} InsertMembers(h: (string, string), sorted: seq<(string, string)>)
    ensures multiset(InsertHeader(h, sorted)) == multiset(sorted) + multiset{h}
    decreases |sorted|
  {
    hide TextLeq;
    if sorted != [] {
      assert sorted == sorted[..|sorted| - 1] + [sorted[|sorted| - 1]];
      InsertMembers(h, sorted[..|sorted| - 1]);
    }
  }

  lemma {:induction false} InsertAscends(h: (string, string), sorted: seq<(string, string)>)
    requires Ascends(sorted)
    ensures Ascends(InsertHeader(h, sorted))
    decreases |sorted|
  {
    hide Lexicographic, TextLeq;
    if sorted != [] {
      var front, last := sorted[..|sorted| - 1], sorted[|sorted| - 1];
      assert sorted == front + [last];
      NotAfter(last.0, h.0);
      NotAfter(h.0, last.0);
      forall x | x in front ensures Lexicographic(x.0, last.0) {
        var i :| 0 <= i < |front| && sorted[i] == x;
      }
      if TextLeq(last.0, h.0) {
        forall x | x in sorted ensures Lexicographic(x.0, h.0) {
          if x in front {
            NotAfter(x.0, last.0);
            NotAfter(x.0, h.0);
            TextLeqTransitive(x.0, last.0, h.0);
          }
        }
        SnocAscends(sorted, h);
      } else {
        InsertAscends(h, front);
        forall x | x in InsertHeader(h, front) ensures Lexicographic(x.0, last.0) {
          InsertHeaderMembers(h, front, x);
        }
        SnocAscends(InsertHeader(h, front), last);
      }
    }
  }

  /** A handler's headers are compiled in the order of their names, none lost or added. */
  lemma {:induction false} HeadersAscend(headers: seq<(string, string)>)
    ensures Ascends(SortHeaders(headers)) && multiset(SortHeaders(headers)) == multiset(headers)
    decreases |headers|
  {
    hide InsertHeader, Lexicographic;
    if headers != [] {
      var front, last := headers[..|headers| - 1], headers[|headers| - 1];
      assert headers == front + [last];
      HeadersAscend(front);
      InsertAscends(last, SortHeaders(front));
      InsertMembers(last, SortHeaders(front));
    }
  }

  /** What a deployed mapping says of the handler it stands for. */
  ghost predicate StandsFor(m: RuntimeMapping, sim: string, scenario: string, state: string, h: Handler) {
    && m.name == "SimuLoom scenario: " + scenario + " - " + h.name
    && m.priority == 1
    && m.scenarioName == Some("SimuLoom:" + sim + ":" + scenario)
    && m.requiredState == Some(state)
    && m.newState == h.newState
    && m.response.delayMs == h.response.delayMs
    && m.metadata == map["simuloomSimulationId" := Json.Text(sim), "simuloomScenarioId" := Json.Text(scenario),
                         "simuloomScenarioState" := Json.Text(state), "simuloomHandler" := Json.Text(h.name)]
  }

  lemma CompiledStandsFor(sim: string, scenario: string, state: string, h: Handler)
    ensures StandsFor(FromWire(CompiledHandler(sim, scenario, state, h)), sim, scenario, state, h)
  {
    hide SortHeaders;
  }

  lemma {:induction false} CompiledSizes(sim: string, scenario: string, states: seq<State>)
    ensures |CompiledStates(sim, scenario, states)| == HandlerTotal(states)
    decreases |states|
  {
    hide CompiledHandler;
    if states != [] {
      CompiledSizes(sim, scenario, states[..|states| - 1]);
    }
  }

  /** One mapping per handler, in the order of the states and within each of its handlers. */
  lemma {:induction false} CompiledInOrder(sim: string, scenario: string, states: seq<State>, i: nat, j: nat)
    requires i < |states| && j < |states[i].handlers|
    ensures var ms, at := FromWires(CompiledStates(sim, scenario, states)), HandlerTotal(states[..i]) + j;
      && |ms| == HandlerTotal(states)
      && at < |ms|
      && StandsFor(ms[at], sim, scenario, states[i].name, states[i].handlers[j])
    decreases |states|
  {
    hide StandsFor, CompiledHandler, FromWire;
    var front, last := states[..|states| - 1], states[|states| - 1];
    CompiledSizes(sim, scenario, front);
    var ws, before := CompiledStates(sim, scenario, states), CompiledStates(sim, scenario, front);
    assert ws == before + CompiledState(sim, scenario, last);
    if i < |front| {
      CompiledInOrder(sim, scenario, front, i, j);
      assert front[..i] == states[..i];
      var at := HandlerTotal(states[..i]) + j;
      assert FromWires(ws)[at] == FromWire(ws[at]) == FromWires(before)[at];
    } else {
      assert states[..i] == front;
      assert ws[HandlerTotal(front) + j] == CompiledHandler(sim, scenario, last.name, last.handlers[j]);
      CompiledStandsFor(sim, scenario, last.name, last.handlers[j]);
    }
  }
}
