/** Mapping dictionaries and their translation to and from runtime mappings. A text
    that parses as JSON is represented by the value it parses to. */
module Translation {
  import opened Wrappers
  import opened Json
  import opened Text
  import opened RuntimeModel

  datatype WireBody = Encoded(value: Json) | Plain(text: string) | Inline(value: Json)

  /** A matcher with neither key is an equality with the empty text; `Vague` has an
      `absent` flag that counts as set but is not true. */
  datatype WireMatcher = EqualTo(value: string) | Absent | Vague

  /** `bodyPattern` is the first body pattern's `equalToJson`. */
  datatype WireRequest = WireRequest(
    verb: Option<string>,
    urlPath: Option<string>,
    urlPathPattern: Option<string>,
    queryParameters: map<string, WireMatcher>,
    headers: seq<(string, WireMatcher)>,
    bodyPattern: Option<WireBody>)

  datatype WireResponse = WireResponse(
    status: Option<int>,
    headers: map<string, string>,
    body: Option<WireBody>,
    fixedDelayMilliseconds: Option<int>,
    fault: Option<string>)

  datatype WireMapping = WireMapping(
    name: Option<string>,
    priority: Option<int>,
    request: WireRequest,
    response: WireResponse,
    metadata: map<string, Json>,
    scenarioName: Option<string>,
    requiredScenarioState: Option<string>,
    newScenarioState: Option<string>)

  function JsonValue(body: WireBody): Json {
    match body
    case Encoded(value) => value
    case Plain(text) => Json.Text(text)
    case Inline(value) => value
  }

  function FromMatcher(m: WireMatcher): ValueMatcher {
    match m
    case EqualTo(value) => ValueMatcher(Some(value), false)
    case Absent => ValueMatcher(None, true)
    case Vague => ValueMatcher(None, false)
  }

  function ToMatcher(m: ValueMatcher): WireMatcher {
    if m.absent then Absent else EqualTo(m.equalTo.GetOr(""))
  }

  function FromMatchers(ms: map<string, WireMatcher>): map<string, ValueMatcher> {
    map name | name in ms :: FromMatcher(ms[name])
  }

  function ToMatchers(ms: map<string, ValueMatcher>): map<string, WireMatcher> {
    map name | name in ms :: ToMatcher(ms[name])
  }

  function FromHeaders(hs: seq<(string, WireMatcher)>): (r: seq<(string, ValueMatcher)>)
    ensures |r| == |hs|
  {
    seq(|hs|, i requires 0 <= i < |hs| => (hs[i].0, FromMatcher(hs[i].1)))
  }

  function ToHeaders(hs: seq<(string, ValueMatcher)>): (r: seq<(string, WireMatcher)>)
    ensures |r| == |hs|
  {
    seq(|hs|, i requires 0 <= i < |hs| => (hs[i].0, ToMatcher(hs[i].1)))
  }

  function FromWire(w: WireMapping): RuntimeMapping {
    RuntimeMapping(
      w.name.GetOr("SimuLoom mapping"),
      w.priority.GetOr(10),
      RequestMatcher(
        Upper(w.request.verb.GetOr("GET")),
        w.request.urlPath,
        w.request.urlPathPattern,
        FromMatchers(w.request.queryParameters),
        FromHeaders(w.request.headers),
        w.request.bodyPattern.Some?,
        if w.request.bodyPattern.Some? then JsonValue(w.request.bodyPattern.value) else Null),
      ResponseDefinition(
        w.response.status.GetOr(200),
        w.response.headers,
        if w.response.body.Some? then JsonValue(w.response.body.value) else Null,
        w.response.fixedDelayMilliseconds.GetOr(0),
        w.response.fault),
      w.metadata,
      w.scenarioName,
      w.requiredScenarioState,
      w.newScenarioState)
  }

  function FromWires(ws: seq<WireMapping>): (ms: seq<RuntimeMapping>)
    ensures |ms| == |ws|
  {
    seq(|ws|, i requires 0 <= i < |ws| => FromWire(ws[i]))
  }

  /** A fault that Python counts as present: a non-empty text. */
  function Faulty(fault: Option<string>): bool { fault.Some? && fault.value != "" }

  method ToWireRequest(m: RuntimeMapping) returns (request: WireRequest)
    ensures request == ToWire(m).request
  {
    request := WireRequest(Some(m.request.verb), None, None, map[], [], None);
    if m.request.path.Some? {
      request := request.(urlPath := m.request.path);
    }
    if m.request.pathPattern.Some? {
      request := request.(urlPathPattern := m.request.pathPattern);
    }
    if m.request.query != map[] {
      request := request.(queryParameters := ToMatchers(m.request.query));
    }
    if m.request.headers != [] {
      request := request.(headers := ToHeaders(m.request.headers));
    }
    if m.request.matchBody {
      request := request.(bodyPattern := Some(Encoded(m.request.jsonBody)));
    }
  }

  method ToWireResponse(m: RuntimeMapping) returns (response: WireResponse)
    ensures response == ToWire(m).response
  {
    response := WireResponse(Some(m.response.status), m.response.headers, Some(Encoded(m.response.jsonBody)), None,
      None);
    if m.response.delayMs != 0 {
      response := response.(fixedDelayMilliseconds := Some(m.response.delayMs));
    }
    if Faulty(m.response.fault) {
      response := response.(body := None);
      response := response.(fault := m.response.fault);
    }
  }

  method ToWireMapping(m: RuntimeMapping) returns (w: WireMapping)
    ensures w == ToWire(m)
  {
    var request := ToWireRequest(m);
    var response := ToWireResponse(m);
    w := WireMapping(Some(m.name), Some(m.priority), request, response, m.metadata, None, None, None);
    if m.scenarioName.Some? {
      w := w.(scenarioName := m.scenarioName);
    }
    if m.requiredState.Some? {
      w := w.(requiredScenarioState := m.requiredState);
    }
    if m.newState.Some? {
      w := w.(newScenarioState := m.newState);
    }
  }

  function ToWire(m: RuntimeMapping): WireMapping {
    WireMapping(
      Some(m.name), Some(m.priority),
      WireRequest(
        Some(m.request.verb), m.request.path, m.request.pathPattern,
        ToMatchers(m.request.query), ToHeaders(m.request.headers),
        if m.request.matchBody then Some(Encoded(m.request.jsonBody)) else None),
      WireResponse(
        Some(m.response.status), m.response.headers,
        if Faulty(m.response.fault) then None else Some(Encoded(m.response.jsonBody)),
        if m.response.delayMs != 0 then Some(m.response.delayMs) else None,
        if Faulty(m.response.fault) then m.response.fault else None),
      m.metadata, m.scenarioName, m.requiredState, m.newState)
  }

  predicate CanonicalMatcher(m: ValueMatcher) { m.absent <==> m.equalTo == None }

  /** Mappings that say each thing in one way only: upper-case verb, matchers that are
      either absent or an equality, no body without body matching, and no response body
      next to a fault. */
  predicate Canonical(m: RuntimeMapping) {
    && Upper(m.request.verb) == m.request.verb
    && (forall name | name in m.request.query :: CanonicalMatcher(m.request.query[name]))
    && (forall i | 0 <= i < |m.request.headers| :: CanonicalMatcher(m.request.headers[i].1))
    && (m.request.matchBody || m.request.jsonBody == Null)
    && m.response.fault != Some("")
    && (m.response.fault.Some? ==> m.response.jsonBody == Null)
  }

  lemma MatcherRoundTrip(m: ValueMatcher)
    ensures FromMatcher(ToMatcher(m)) == m <==> CanonicalMatcher(m)
  {
  }

  lemma MatchersRoundTrip(ms: map<string, ValueMatcher>)
    ensures FromMatchers(ToMatchers(ms)) == ms <==> forall name | name in ms :: CanonicalMatcher(ms[name])
  {
    var back := FromMatchers(ToMatchers(ms));
    assert forall name | name in ms :: back[name] == FromMatcher(ToMatcher(ms[name]));
    forall name | name in ms { MatcherRoundTrip(ms[name]); }
  }

  lemma HeadersRoundTrip(hs: seq<(string, ValueMatcher)>)
    ensures FromHeaders(ToHeaders(hs)) == hs <==> forall i | 0 <= i < |hs| :: CanonicalMatcher(hs[i].1)
  {
    var back := FromHeaders(ToHeaders(hs));
    assert forall i | 0 <= i < |hs| :: back[i] == (hs[i].0, FromMatcher(ToMatcher(hs[i].1)));
    forall i | 0 <= i < |hs| { MatcherRoundTrip(hs[i].1); }
  }

  /** Translating out and back returns the mapping exactly when it is canonical. */
  lemma TranslationRoundTripIff(m: RuntimeMapping)
    ensures FromWire(ToWire(m)) == m <==> Canonical(m)
  {
    hide FromMatchers, ToMatchers, FromHeaders, ToHeaders;
    MatchersRoundTrip(m.request.query);
    HeadersRoundTrip(m.request.headers);
  }

  predicate ClearMatchers(w: WireRequest) {
    && (forall name | name in w.queryParameters :: w.queryParameters[name] != Vague)
    && forall i | 0 <= i < |w.headers| :: w.headers[i].1 != Vague
  }

  lemma FromMatcherCanonical(m: WireMatcher)
    ensures CanonicalMatcher(FromMatcher(m)) <==> m != Vague
  {
  }

  lemma MatchersCanonicalIff(w: WireMapping)
    ensures var request := FromWire(w).request;
      && (forall name | name in request.query :: CanonicalMatcher(request.query[name]))
      && (forall i | 0 <= i < |request.headers| :: CanonicalMatcher(request.headers[i].1))
      <==> ClearMatchers(w.request)
  {
    hide CanonicalMatcher, FromMatcher;
    var request := FromWire(w).request;
    forall name | name in request.query
      ensures CanonicalMatcher(request.query[name]) <==> w.request.queryParameters[name] != Vague
    {
      FromMatcherCanonical(w.request.queryParameters[name]);
    }
    forall i | 0 <= i < |request.headers|
      ensures CanonicalMatcher(request.headers[i].1) <==> w.request.headers[i].1 != Vague
    {
      FromMatcherCanonical(w.request.headers[i].1);
    }
  }

  /** Translating in lands on a canonical mapping exactly when no matcher has a vague
      flag, no fault is empty and none stands beside a body. */
  lemma TranslatedIsCanonicalIff(w: WireMapping)
    ensures Canonical(FromWire(w)) <==>
      && ClearMatchers(w.request)
      && w.response.fault != Some("")
      && (w.response.fault.Some? && w.response.body.Some? ==> JsonValue(w.response.body.value) == Null)
  {
    hide CanonicalMatcher, ClearMatchers, FromMatchers, FromHeaders, Upper;
    UpperUpper(w.request.verb.GetOr("GET"));
    MatchersCanonicalIff(w);
  }
}
