/** What a mapping dictionary asks and answers once it is deployed, with the meaning of
    every key that is left out. */
module WireAnswers {
  import opened Wrappers
  import opened Json
  import opened Text
  import opened RuntimeModel
  import opened RuntimeStore
  import opened RuntimeSemantics
  import opened RuntimeAnswers
  import opened Translation

  /** An equality asks for its value; both other matchers ask for none. */
  ghost predicate AsksQuery(want: WireMatcher, query: map<string, string>, name: string) {
    match want
    case EqualTo(value) => name in query && query[name] == value
    case Absent => name !in query
    case Vague => name !in query
  }

  ghost predicate AsksHeader(want: WireMatcher, headers: seq<(string, string)>, name: string) {
    match want
    case EqualTo(value) => GivesHeader(headers, Lower(name), value)
    case Absent => !HasHeader(headers, Lower(name))
    case Vague => !HasHeader(headers, Lower(name))
  }

  /** The JSON a body stands for; text that does not parse stands for itself. */
  ghost predicate Means(body: WireBody, value: Json) {
    match body
    case Encoded(v) => value == v
    case Plain(text) => value == Json.Text(text)
    case Inline(v) => value == v
  }

  /** Whatever the dictionary says of the request, in any letter case for the method; it is a
      GET if it names none. */
  ghost predicate Asks(re: FullMatch, states: map<string, Ownership>, w: WireMapping, req: Request) {
    var want := w.request;
    && (want.verb.Some? ==> Upper(want.verb.value) == Upper(req.verb))
    && (want.verb == None ==> Upper(req.verb) == "GET")
    && (want.urlPath.Some? ==> req.url.path == want.urlPath.value)
    && (want.urlPathPattern.Some? ==> re(want.urlPathPattern.value, req.url.path))
    && (forall name | name in want.queryParameters :: AsksQuery(want.queryParameters[name], req.url.query, name))
    && (forall i: nat | LastNamed(want.headers, i) ::
          AsksHeader(want.headers[i].1, req.headers, want.headers[i].0))
    && (want.bodyPattern.Some? ==> Means(want.bodyPattern.value, req.body))
    && (w.scenarioName.Some? && w.requiredScenarioState.Some? ==>
          InState(states, w.scenarioName.value, w.requiredScenarioState.value))
  }

  ghost predicate SameHeader(hs: seq<(string, WireMatcher)>, headers: seq<(string, string)>, i: nat) {
    && i < |hs|
    && HeaderSuits(FromHeaders(hs)[i].1, headers, FromHeaders(hs)[i].0) == AsksHeader(hs[i].1, headers, hs[i].0)
  }

  lemma TranslatedHeaders(hs: seq<(string, WireMatcher)>, headers: seq<(string, string)>, i: nat)
    ensures LastNamed(FromHeaders(hs), i) <==> LastNamed(hs, i)
    ensures i < |hs| ==> SameHeader(hs, headers, i)
  {
    hide Lower, GivesHeader, HasHeader;
    var translated := FromHeaders(hs);
    assert forall j | 0 <= j < |hs| :: translated[j].0 == hs[j].0;
  }

  ghost predicate HeadersSuit(hs: seq<(string, ValueMatcher)>, headers: seq<(string, string)>) {
    forall i: nat | LastNamed(hs, i) :: HeaderSuits(hs[i].1, headers, hs[i].0)
  }

  ghost predicate HeadersAsk(hs: seq<(string, WireMatcher)>, headers: seq<(string, string)>) {
    forall i: nat | LastNamed(hs, i) :: AsksHeader(hs[i].1, headers, hs[i].0)
  }

  lemma HeadersTranslated(hs: seq<(string, WireMatcher)>, headers: seq<(string, string)>)
    ensures HeadersSuit(FromHeaders(hs), headers) <==> HeadersAsk(hs, headers)
  {
    forall i: nat
      ensures LastNamed(hs, i) ==> i < |hs|
      ensures LastNamed(FromHeaders(hs), i) <==> LastNamed(hs, i)
      ensures i < |hs| ==> SameHeader(hs, headers, i)
    {
      TranslatedHeaders(hs, headers, i);
      LastInside(hs, i);
    }
    hide LastNamed, HeaderSuits, AsksHeader;
  }

  lemma QueriesTranslated(ms: map<string, WireMatcher>, query: map<string, string>)
    ensures (forall name | name in FromMatchers(ms) :: QuerySuits(FromMatchers(ms)[name], query, name))
      <==> forall name | name in ms :: AsksQuery(ms[name], query, name)
  {
    forall name | name in ms
      ensures QuerySuits(FromMatchers(ms)[name], query, name) <==> AsksQuery(ms[name], query, name)
    {
    }
    hide QuerySuits, AsksQuery;
    assert FromMatchers(ms).Keys == ms.Keys;
  }

  /** A deployed dictionary answers exactly the requests that meet what it asks. */
  lemma TranslatedAsks(re: FullMatch, states: map<string, Ownership>, w: WireMapping, req: Request)
    ensures Suits(re, states, FromWire(w), req) <==> Asks(re, states, w, req)
  {
    assert Upper("GET") == "GET";
    hide InState, QuerySuits, AsksQuery, FromMatchers, FromHeaders;
    HeadersTranslated(w.request.headers, req.headers);
    QueriesTranslated(w.request.queryParameters, req.url.query);
    hide LastNamed, HeaderSuits, AsksHeader, Upper;
  }

  lemma LastInside<T(!new)>(headers: seq<(string, T)>, i: nat)
    ensures LastNamed(headers, i) ==> i < |headers|
  {
  }

  /** What it answers with: status 200, an empty body and no delay unless it says otherwise,
      and priority 10 among the others. */
  lemma TranslatedAnswers(w: WireMapping)
    ensures var m := FromWire(w);
      && m.name == (if w.name.Some? then w.name.value else "SimuLoom mapping")
      && m.priority == (if w.priority.Some? then w.priority.value else 10)
      && m.response.status == (if w.response.status.Some? then w.response.status.value else 200)
      && m.response.headers == w.response.headers && m.response.fault == w.response.fault
      && m.response.delayMs
           == (if w.response.fixedDelayMilliseconds.Some? then w.response.fixedDelayMilliseconds.value else 0)
      && (if w.response.body.Some? then Means(w.response.body.value, m.response.jsonBody)
          else m.response.jsonBody == Null)
      && m.newState == w.newScenarioState && m.metadata == w.metadata
  {
  }

  /** Written out and read back, a matcher without a value asks for the empty text, and one
      that asks for absence loses any value it had. */
  lemma MatcherReturns(m: ValueMatcher)
    ensures FromMatcher(ToMatcher(m)).absent == m.absent
    ensures FromMatcher(ToMatcher(m)).equalTo
      == if m.absent then None else if m.equalTo.Some? then m.equalTo else Some("")
  {
  }
}
