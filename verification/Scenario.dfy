/** Scenario definitions, the well-formedness their validators enforce, and the state
    machine a definition describes. */
module Scenario {
  import opened Wrappers
  import opened Json
  import opened Text
  import opened RuntimeModel
  import opened RuntimeSemantics

  /** `path` is the text of the path, `url` what it splits into. */
  datatype HandlerRequest = HandlerRequest(
    verb: string,
    path: string,
    url: Url,
    queryParameters: map<string, string>,
    headers: seq<(string, string)>,
    jsonBody: Json)

  datatype Fault = EmptyResponse | ConnectionReset | MalformedResponse

  datatype HandlerResponse = HandlerResponse(
    status: int,
    headers: map<string, string>,
    jsonBody: Json,
    delayMs: nat,
    fault: Option<Fault>)

  datatype Handler = Handler(
    name: string,
    request: HandlerRequest,
    response: HandlerResponse,
    newState: Option<string>)

  datatype Timeout = Timeout(ms: nat, target: string)

  datatype EventTransition = EventTransition(topic: string, newState: string)

  datatype State = State(
    name: string,
    handlers: seq<Handler>,
    timeout: Option<Timeout>,
    eventTransitions: seq<EventTransition>)

  datatype Definition = Definition(
    name: string,
    description: string,
    initialState: string,
    states: seq<State>,
    reset: Option<string>)

  const VERBS := {"GET", "POST", "PUT", "PATCH", "DELETE", "HEAD", "OPTIONS"}

  function StateNames(d: Definition): set<string> {
    set i | 0 <= i < |d.states| :: d.states[i].name
  }

  function HandlerTotal(states: seq<State>): nat {
    if states == [] then 0
    else HandlerTotal(states[..|states| - 1]) + |states[|states| - 1].handlers|
  }

  predicate StateWellFormed(s: State, known: set<string>) {
    && s.name != ""
    && 1 <= |s.handlers| <= 50
    && (forall i, j | 0 <= i < j < |s.handlers| :: s.handlers[i].name != s.handlers[j].name)
    && (forall i | 0 <= i < |s.handlers| ::
          && s.handlers[i].request.verb in VERBS
          && 100 <= s.handlers[i].response.status <= 599
          && s.handlers[i].response.delayMs <= 60_000
          && (s.handlers[i].newState.Some? ==> s.handlers[i].newState.value in known))
    && (s.timeout.Some? ==> 1 <= s.timeout.value.ms <= 86_400_000 && s.timeout.value.target in known)
    && |s.eventTransitions| <= 50
    && (forall i, j | 0 <= i < j < |s.eventTransitions| ::
          s.eventTransitions[i].topic != s.eventTransitions[j].topic)
    && (forall i | 0 <= i < |s.eventTransitions| :: s.eventTransitions[i].newState in known)
  }

  predicate WellFormed(d: Definition) {
    && 1 <= |d.states| <= 50
    && (forall i, j | 0 <= i < j < |d.states| :: d.states[i].name != d.states[j].name)
    && d.initialState in StateNames(d)
    && (d.reset.Some? ==> d.reset.value in StateNames(d))
    && HandlerTotal(d.states) <= 200
    && (forall i | 0 <= i < |d.states| :: StateWellFormed(d.states[i], StateNames(d)))
  }

  function ResetState(d: Definition): string { d.reset.GetOr(d.initialState) }

  function StateIndex(states: seq<State>, name: string): (i: Option<nat>)
    ensures i.Some? ==> i.value < |states| && states[i.value].name == name
    ensures i == None ==> forall j | 0 <= j < |states| :: states[j].name != name
  {
    if states == [] then None
    else if states[|states| - 1].name == name then Some(|states| - 1)
    else StateIndex(states[..|states| - 1], name)
  }

  function HandlersOf(d: Definition, state: string): seq<Handler> {
    match StateIndex(d.states, state)
    case None => []
    case Some(i) => d.states[i].handlers
  }

  // ------------------------------------------------------------- the machine

  function HandlerQuery(h: Handler): map<string, string> {
    h.request.url.query + h.request.queryParameters
  }

  /** What a handler asks of a request: all of its query values, all of its headers
      whatever their spelling, and its body when it has one. */
  predicate Accepts(h: Handler, req: Request) {
    && h.request.verb == Upper(req.verb)
    && h.request.url.path == req.url.path
    && (forall name | name in HandlerQuery(h) :: Lookup(req.url.query, name) == Some(HandlerQuery(h)[name]))
    && (forall i | 0 <= i < |h.request.headers| ::
          Lookup(HeaderValues(req.headers), Lower(h.request.headers[i].0)) == Some(h.request.headers[i].1))
    && (h.request.jsonBody != Null ==> h.request.jsonBody == req.body)
  }

  function FirstAccepting(handlers: seq<Handler>, req: Request): Option<Handler> {
    if handlers == [] then None
    else if Accepts(handlers[0], req) then Some(handlers[0])
    else FirstAccepting(handlers[1..], req)
  }

  function FaultName(f: Fault): string {
    match f
    case EmptyResponse => "EMPTY_RESPONSE"
    case ConnectionReset => "CONNECTION_RESET_BY_PEER"
    case MalformedResponse => "MALFORMED_RESPONSE_CHUNK"
  }

  function HandlerHeaders(h: Handler): map<string, string> {
    map["Content-Type" := "application/json"] + h.response.headers
  }

  function HandlerReply(h: Handler): Response {
    match h.response.fault
    case None => Response(h.response.status, h.response.jsonBody, HandlerHeaders(h))
    case Some(fault) =>
      Response(
        503,
        Object(map["code" := Json.Text("INJECTED_FAULT"), "fault" := Json.Text(FaultName(fault)),
          "synthetic" := Bool(true)]),
        HandlerHeaders(h)["x-simuloom-fault" := FaultName(fault)])
  }

  /** The first accepting handler answers and names the next state; without one there
      is no answer and the state stays. */
  function Step(d: Definition, state: string, req: Request): (string, Option<Response>) {
    match FirstAccepting(HandlersOf(d, state), req)
    case None => (state, None)
    case Some(h) => (h.newState.GetOr(state), Some(HandlerReply(h)))
  }

  function RunMachine(d: Definition, state: string, reqs: seq<Request>): (string, seq<Option<Response>>) {
    if reqs == [] then (state, []) else
      var (before, answers) := RunMachine(d, state, reqs[..|reqs| - 1]);
      var (after, answer) := Step(d, before, reqs[|reqs| - 1]);
      (after, answers + [answer])
  }

  lemma {:induction false} FirstAcceptingIsHandler(handlers: seq<Handler>, req: Request)
    ensures match FirstAccepting(handlers, req)
      case None => forall i | 0 <= i < |handlers| :: !Accepts(handlers[i], req)
      case Some(h) => exists i | 0 <= i < |handlers| ::
        handlers[i] == h && Accepts(h, req) && forall j | 0 <= j < i :: !Accepts(handlers[j], req)
    decreases |handlers|
  {
    hide Accepts;
    if handlers != [] && !Accepts(handlers[0], req) {
      FirstAcceptingIsHandler(handlers[1..], req);
      match FirstAccepting(handlers, req)
      case None =>
        assert forall i | 1 <= i < |handlers| :: handlers[i] == handlers[1..][i - 1];
      case Some(h) =>
        var i :| 0 <= i < |handlers| - 1 && handlers[1..][i] == h && Accepts(h, req)
          && forall j | 0 <= j < i :: !Accepts(handlers[1..][j], req);
        assert handlers[i + 1] == h && forall j | 1 <= j < i + 1 :: handlers[j] == handlers[1..][j - 1];
    }
  }

  /** A declared state stays declared. */
  lemma StepStaysDeclared(d: Definition, state: string, req: Request)
    requires WellFormed(d)
    ensures state in StateNames(d) ==> Step(d, state, req).0 in StateNames(d)
    ensures state !in StateNames(d) ==> Step(d, state, req) == (state, None)
    ensures state != "" ==> Step(d, state, req).0 != ""
  {
    if state in StateNames(d) {
      FirstAcceptingIsHandler(HandlersOf(d, state), req);
      var k := StateIndex(d.states, state).value;
      assert StateWellFormed(d.states[k], StateNames(d));
      DeclaredNamed(d, Step(d, state, req).0);
    }
  }

  lemma {:induction false} RunStaysDeclared(d: Definition, state: string, reqs: seq<Request>)
    requires WellFormed(d) && state in StateNames(d)
    ensures RunMachine(d, state, reqs).0 in StateNames(d)
    decreases |reqs|
  {
    hide Step, WellFormed, StateNames;
    if reqs != [] {
      var front := reqs[..|reqs| - 1];
      RunStaysDeclared(d, state, front);
      StepStaysDeclared(d, RunMachine(d, state, front).0, reqs[|reqs| - 1]);
    }
  }

  lemma DeclaredNamed(d: Definition, state: string)
    requires WellFormed(d) && state in StateNames(d)
    ensures state != ""
  {
    var k: nat :| k < |d.states| && d.states[k].name == state;
    assert StateWellFormed(d.states[k], StateNames(d));
  }
}
