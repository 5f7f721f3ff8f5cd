/** The scenario compiler: one prioritised mapping per handler. */
module Compiler {
  import opened Wrappers
  import opened Json
  import opened Text
  import opened RuntimeModel
  import opened RuntimeSemantics
  import opened Scenario
  import opened Translation

  function ScenarioName(sim: string, scenario: string): string { "SimuLoom:" + sim + ":" + scenario }

  /** Simulation ids hold no colon, so no two scenarios share a runtime name. */
  lemma ScenarioNameInjective(sim: string, scenario: string, otherSim: string, otherScenario: string)
    requires ':' !in sim && ':' !in otherSim
    requires ScenarioName(sim, scenario) == ScenarioName(otherSim, otherScenario)
    ensures sim == otherSim && scenario == otherScenario
  {
    var a, b := sim + ":" + scenario, otherSim + ":" + otherScenario;
    assert ScenarioName(sim, scenario)[9..] == a && ScenarioName(otherSim, otherScenario)[9..] == b;
    SplitAtFirst(sim, ':', scenario);
    SplitAtFirst(otherSim, ':', otherScenario);
  }

  // ----------------------------------------------------------- sorted headers

  function InsertHeader(h: (string, string), sorted: seq<(string, string)>): seq<(string, string)> {
    if sorted == [] || TextLeq(sorted[|sorted| - 1].0, h.0) then sorted + [h]
    else InsertHeader(h, sorted[..|sorted| - 1]) + [sorted[|sorted| - 1]]
  }

  /** `sorted(headers.items())`. */
  function SortHeaders(headers: seq<(string, string)>): seq<(string, string)> {
    if headers == [] then [] else
      InsertHeader(headers[|headers| - 1], SortHeaders(headers[..|headers| - 1]))
  }

  lemma {:induction false} InsertHeaderMembers(h: (string, string), sorted: seq<(string, string)>, x: (string, string))
    ensures x in InsertHeader(h, sorted) <==> x == h || x in sorted
    decreases |sorted|
  {
    hide TextLeq;
    if sorted != [] && !TextLeq(sorted[|sorted| - 1].0, h.0) {
      InsertHeaderMembers(h, sorted[..|sorted| - 1], x);
    }
  }

  lemma {:induction false} SortHeadersMembers(headers: seq<(string, string)>, x: (string, string))
    ensures x in SortHeaders(headers) <==> x in headers
    decreases |headers|
  {
    hide InsertHeader;
    if headers != [] {
      SortHeadersMembers(headers[..|headers| - 1], x);
      InsertHeaderMembers(headers[|headers| - 1], SortHeaders(headers[..|headers| - 1]), x);
    }
  }

  function HeaderEquals(headers: seq<(string, string)>): seq<(string, WireMatcher)> {
    seq(|headers|, i requires 0 <= i < |headers| => (headers[i].0, EqualTo(headers[i].1)))
  }

  function QueryEquals(query: map<string, string>): map<string, WireMatcher> {
    map name | name in query :: EqualTo(query[name])
  }

  // ------------------------------------------------------------ compilation

  function CompiledHandler(sim: string, scenario: string, state: string, h: Handler): WireMapping {
    WireMapping(
      Some("SimuLoom scenario: " + scenario + " - " + h.name),
      Some(1),
      WireRequest(
        Some(h.request.verb), Some(h.request.url.path), None,
        QueryEquals(HandlerQuery(h)),
        HeaderEquals(SortHeaders(h.request.headers)),
        if h.request.jsonBody != Null then Some(Encoded(h.request.jsonBody)) else None),
      WireResponse(
        Some(h.response.status),
        HandlerHeaders(h),
        if h.response.fault.Some? then None else Some(Encoded(h.response.jsonBody)),
        if h.response.delayMs != 0 then Some(h.response.delayMs) else None,
        if h.response.fault.Some? then Some(FaultName(h.response.fault.value)) else None),
      map[
        "simuloomSimulationId" := Json.Text(sim),
        "simuloomScenarioId" := Json.Text(scenario),
        "simuloomScenarioState" := Json.Text(state),
        "simuloomHandler" := Json.Text(h.name)],
      Some(ScenarioName(sim, scenario)),
      Some(state),
      h.newState)
  }

  function CompiledState(sim: string, scenario: string, s: State): (ws: seq<WireMapping>)
    ensures |ws| == |s.handlers|
  {
    seq(|s.handlers|, i requires 0 <= i < |s.handlers| => CompiledHandler(sim, scenario, s.name, s.handlers[i]))
  }

  function CompiledStates(sim: string, scenario: string, states: seq<State>): seq<WireMapping> {
    if states == [] then [] else
      CompiledStates(sim, scenario, states[..|states| - 1]) + CompiledState(sim, scenario, states[|states| - 1])
  }

  method CompileRequest(h: Handler) returns (request: WireRequest)
    ensures request == CompiledHandler("", "", "", h).request
  {
    hide SortHeaders;
    request := WireRequest(Some(h.request.verb), Some(h.request.url.path), None, map[], [], None);
    var query := h.request.url.query + h.request.queryParameters;
    if query != map[] {
      request := request.(queryParameters := QueryEquals(query));
    }
    if h.request.headers != [] {
      request := request.(headers := HeaderEquals(SortHeaders(h.request.headers)));
    } else {
      SortNothing();
    }
    if h.request.jsonBody != Null {
      request := request.(bodyPattern := Some(Encoded(h.request.jsonBody)));
    }
  }

  method CompileResponse(h: Handler) returns (response: WireResponse)
    ensures response == CompiledHandler("", "", "", h).response
  {
    hide SortHeaders;
    var headers := map["Content-Type" := "application/json"] + h.response.headers;
    response := WireResponse(Some(h.response.status), headers, Some(Encoded(h.response.jsonBody)), None, None);
    if h.response.delayMs != 0 {
      response := response.(fixedDelayMilliseconds := Some(h.response.delayMs));
    }
    if h.response.fault.Some? {
      response := response.(body := None);
      response := response.(fault := Some(FaultName(h.response.fault.value)));
    }
  }

  method CompileHandler(sim: string, scenario: string, state: string, h: Handler) returns (mapping: WireMapping)
    ensures mapping == CompiledHandler(sim, scenario, state, h)
  {
    hide SortHeaders;
    var request := CompileRequest(h);
    var response := CompileResponse(h);
    mapping := WireMapping(
      Some("SimuLoom scenario: " + scenario + " - " + h.name), Some(1), request, response,
      map[
        "simuloomSimulationId" := Json.Text(sim),
        "simuloomScenarioId" := Json.Text(scenario),
        "simuloomScenarioState" := Json.Text(state),
        "simuloomHandler" := Json.Text(h.name)],
      Some(ScenarioName(sim, scenario)), Some(state), None);
    if h.newState.Some? {
      mapping := mapping.(newScenarioState := h.newState);
    }
  }

  lemma SortNothing()
    ensures SortHeaders([]) == []
  {
  }

  method CompileScenarioMappings(sim: string, scenario: string, d: Definition) returns (mappings: seq<WireMapping>)
    ensures mappings == CompiledStates(sim, scenario, d.states)
  {
    hide CompiledHandler;
    mappings := [];
    for s := 0 to |d.states|
      invariant mappings == CompiledStates(sim, scenario, d.states[..s])
    {
      assert d.states[..s + 1][..s] == d.states[..s];
      ghost var before := mappings;
      var state := d.states[s];
      for i := 0 to |state.handlers|
        invariant mappings == before + CompiledState(sim, scenario, state)[..i]
      {
        var mapping := CompileHandler(sim, scenario, state.name, state.handlers[i]);
        mappings := mappings + [mapping];
      }
      assert CompiledState(sim, scenario, state)[..|state.handlers|] == CompiledState(sim, scenario, state);
    }
    assert d.states[..|d.states|] == d.states;
  }

  /** The runtime mappings a scenario deploys. */
  function RuntimeMappings(sim: string, scenario: string, d: Definition): seq<RuntimeMapping> {
    FromWires(CompiledStates(sim, scenario, d.states))
  }

  // ------------------------------------------ one handler, one mapping, one test

  /** Two spellings of one header that ask for different values. */
  ghost predicate HeadersClash(headers: seq<(string, string)>) {
    exists i, j | 0 <= i < j < |headers| :: Conflict(headers[i], headers[j])
  }

  predicate Conflict(a: (string, string), b: (string, string)) {
    Lower(a.0) == Lower(b.0) && a.1 != b.1
  }

  lemma ClashMembers(headers: seq<(string, string)>)
    ensures HeadersClash(headers) <==> exists a, b | a in headers && b in headers :: Conflict(a, b)
  {
    if HeadersClash(headers) {
      var i, j :| 0 <= i < j < |headers| && Conflict(headers[i], headers[j]);
      assert headers[i] in headers && headers[j] in headers;
    }
    if a, b :| a in headers && b in headers && Conflict(a, b) {
      var i :| 0 <= i < |headers| && headers[i] == a;
      var j :| 0 <= j < |headers| && headers[j] == b;
      assert if i < j then Conflict(headers[i], headers[j]) else Conflict(headers[j], headers[i]);
    }
  }

  function Equalities(headers: seq<(string, string)>): (ms: seq<(string, ValueMatcher)>)
    ensures |ms| == |headers|
  {
    seq(|headers|, i requires 0 <= i < |headers| => (headers[i].0, ValueMatcher(Some(headers[i].1), false)))
  }

  /** The lower-cased matcher table: every header has an entry, with the value of some
      header of that spelling. */
  lemma {:induction false} MatcherTable(headers: seq<(string, string)>)
    ensures var table := HeaderMatchers(Equalities(headers));
      && (forall h | h in headers :: Lower(h.0) in table)
      && (forall name | name in table ::
            exists h | h in headers :: Lower(h.0) == name && table[name] == ValueMatcher(Some(h.1), false))
    decreases |headers|
  {
    if headers != [] {
      var front, last := headers[..|headers| - 1], headers[|headers| - 1];
      MatcherTable(front);
      assert Equalities(headers)[..|headers| - 1] == Equalities(front);
      var table := HeaderMatchers(Equalities(headers));
      assert table == HeaderMatchers(Equalities(front))[Lower(last.0) := ValueMatcher(Some(last.1), false)];
      forall name | name in table
        ensures exists h | h in headers :: Lower(h.0) == name && table[name] == ValueMatcher(Some(h.1), false)
      {
        if name == Lower(last.0) {
          assert last in headers;
        } else {
          var h :| h in front && Lower(h.0) == name
            && HeaderMatchers(Equalities(front))[name] == ValueMatcher(Some(h.1), false);
          assert h in headers;
        }
      }
    }
  }

  ghost predicate HeadersAccept(headers: seq<(string, string)>, actual: map<string, string>) {
    forall h | h in headers :: Lookup(actual, Lower(h.0)) == Some(h.1)
  }

  /** Without a clash the table asks for exactly what the headers ask. */
  lemma TableIsExact(headers: seq<(string, string)>, actual: map<string, string>)
    requires !HeadersClash(headers)
    ensures ValuesMatch(HeaderMatchers(Equalities(headers)), actual) <==> HeadersAccept(headers, actual)
  {
    MatcherTable(headers);
    ClashMembers(headers);
    var table := HeaderMatchers(Equalities(headers));
    forall h | h in headers ensures table[Lower(h.0)] == ValueMatcher(Some(h.1), false) {
      var other :| other in headers && Lower(other.0) == Lower(h.0)
        && table[Lower(h.0)] == ValueMatcher(Some(other.1), false);
      assert !Conflict(h, other);
    }
  }

  /** With a clash the headers refuse every request, their table does not. */
  lemma {:induction false} TableAcceptsItself(headers: seq<(string, string)>)
    ensures ValuesMatch(HeaderMatchers(Equalities(headers)), HeaderValues(headers))
    decreases |headers|
  {
    if headers != [] {
      var front := headers[..|headers| - 1];
      TableAcceptsItself(front);
      assert Equalities(headers)[..|headers| - 1] == Equalities(front);
    }
  }

  lemma SortKeepsClash(headers: seq<(string, string)>)
    ensures HeadersClash(SortHeaders(headers)) <==> HeadersClash(headers)
    ensures forall actual :: HeadersAccept(SortHeaders(headers), actual) <==> HeadersAccept(headers, actual)
  {
    forall x ensures x in SortHeaders(headers) <==> x in headers { SortHeadersMembers(headers, x); }
    ClashMembers(headers);
    ClashMembers(SortHeaders(headers));
  }

  lemma CompiledRequestIs(sim: string, scenario: string, state: string, h: Handler)
    requires h.request.verb in VERBS
    ensures FromWire(CompiledHandler(sim, scenario, state, h)).request == RequestMatcher(
      h.request.verb, Some(h.request.url.path), None, FromMatchers(QueryEquals(HandlerQuery(h))),
      Equalities(SortHeaders(h.request.headers)), h.request.jsonBody != Null, h.request.jsonBody)
  {
    hide SortHeaders;
    assert FromHeaders(HeaderEquals(SortHeaders(h.request.headers))) == Equalities(SortHeaders(h.request.headers));
    VerbsAreUpper(h.request.verb);
  }

  lemma VerbsAreUpper(verb: string)
    requires verb in VERBS
    ensures Upper(verb) == verb
  {
  }

  lemma AcceptsHeaders(h: Handler, req: Request)
    ensures HeadersAccept(h.request.headers, HeaderValues(req.headers)) <==>
      forall i | 0 <= i < |h.request.headers| ::
        Lookup(HeaderValues(req.headers), Lower(h.request.headers[i].0)) == Some(h.request.headers[i].1)
  {
  }

  /** Without a header clash the compiled mapping accepts exactly the handler's requests. */
  lemma CompiledAccepts(re: FullMatch, sim: string, scenario: string, state: string, h: Handler, req: Request)
    requires h.request.verb in VERBS && !HeadersClash(h.request.headers)
    ensures RequestMatches(re, FromWire(CompiledHandler(sim, scenario, state, h)).request, req) <==> Accepts(h, req)
  {
    CompiledRequestIs(sim, scenario, state, h);
    SortKeepsClash(h.request.headers);
    AcceptsHeaders(h, req);
    hide CompiledHandler, FromWire, HeadersAccept, HeadersClash, SortHeaders, HeaderMatchers, ValuesMatch;
    TableIsExact(SortHeaders(h.request.headers), HeaderValues(req.headers));
  }

  /** The request that carries everything the compiled mapping looks at. */
  function OwnRequest(h: Handler): Request {
    Request(h.request.verb, Url(h.request.url.path, HandlerQuery(h)), SortHeaders(h.request.headers),
      h.request.jsonBody)
  }

  lemma OwnRequestMatches(re: FullMatch, sim: string, scenario: string, state: string, h: Handler)
    requires h.request.verb in VERBS
    ensures RequestMatches(re, FromWire(CompiledHandler(sim, scenario, state, h)).request, OwnRequest(h))
  {
    CompiledRequestIs(sim, scenario, state, h);
    VerbsAreUpper(h.request.verb);
    hide SortHeaders, ValuesMatch, HeaderMatchers, HeaderValues, CompiledHandler, FromWire;
    TableAcceptsItself(SortHeaders(h.request.headers));
  }

  /** A handler compiles to a mapping that accepts exactly its requests, exactly when
      its headers do not clash. */
  lemma CompiledExactIff(re: FullMatch, sim: string, scenario: string, state: string, h: Handler)
    requires h.request.verb in VERBS
    ensures (forall req ::
        RequestMatches(re, FromWire(CompiledHandler(sim, scenario, state, h)).request, req) <==> Accepts(h, req))
      <==> !HeadersClash(h.request.headers)
  {
    hide CompiledHandler, RequestMatches, FromWire, OwnRequest;
    if HeadersClash(h.request.headers) {
      OwnRequestMatches(re, sim, scenario, state, h);
      AcceptsHeaders(h, OwnRequest(h));
    } else {
      forall req { CompiledAccepts(re, sim, scenario, state, h, req); }
    }
  }

  lemma CompiledReplies(sim: string, scenario: string, state: string, h: Handler)
    ensures Reply(FromWire(CompiledHandler(sim, scenario, state, h)).response) == HandlerReply(h)
  {
    hide SortHeaders;
  }
}
