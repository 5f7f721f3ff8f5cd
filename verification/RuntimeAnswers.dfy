/** What an answer of the runtime means for any mappings, in terms of the mapping and the
    request alone. */
module RuntimeAnswers {
  import opened Wrappers
  import opened Json
  import opened Text
  import opened RuntimeModel
  import opened RuntimeStore
  import opened RuntimeSemantics

  /** No later entry has this one's name in any spelling. */
  ghost predicate LastNamed<T(!new)>(headers: seq<(string, T)>, i: nat) {
    i < |headers| && forall j | i < j < |headers| :: Lower(headers[j].0) != Lower(headers[i].0)
  }

  /** Some entry has the lower-cased name. */
  ghost predicate HasHeader<T(!new)>(headers: seq<(string, T)>, lowered: string) {
    exists j | 0 <= j < |headers| :: Lower(headers[j].0) == lowered
  }

  /** The last such entry has the value. */
  ghost predicate GivesHeader<T(!new)>(headers: seq<(string, T)>, lowered: string, value: T) {
    exists j: nat | j < |headers| :: LastNamed(headers, j) && Lower(headers[j].0) == lowered && headers[j].1 == value
  }

  /** A matcher asks for a value, or for none at all. */
  ghost predicate QuerySuits(want: ValueMatcher, query: map<string, string>, name: string) {
    if !want.absent && want.equalTo.Some? then name in query && query[name] == want.equalTo.value else name !in query
  }

  ghost predicate HeaderSuits(want: ValueMatcher, headers: seq<(string, string)>, name: string) {
    if !want.absent && want.equalTo.Some? then GivesHeader(headers, Lower(name), want.equalTo.value)
    else !HasHeader(headers, Lower(name))
  }

  /** Everything the mapping asks of the request and of its scenario. */
  ghost predicate Suits(re: FullMatch, states: map<string, Ownership>, m: RuntimeMapping, req: Request) {
    var want := m.request;
    && want.verb == Upper(req.verb)
    && (want.path.Some? ==> req.url.path == want.path.value)
    && (want.pathPattern.Some? ==> re(want.pathPattern.value, req.url.path))
    && (forall name | name in want.query :: QuerySuits(want.query[name], req.url.query, name))
    && (forall i: nat | LastNamed(want.headers, i) ::
          HeaderSuits(want.headers[i].1, req.headers, want.headers[i].0))
    && (want.matchBody ==> req.body == want.jsonBody)
    && (m.scenarioName.Some? && m.requiredState.Some? ==>
          InState(states, m.scenarioName.value, m.requiredState.value))
  }

  /** A scenario that is unknown, or has no state, is in Started. */
  ghost predicate InState(states: map<string, Ownership>, name: string, state: string) {
    if name in states && states[name].state != "" then states[name].state == state else state == "Started"
  }

  // ----------------------------------------------------------------------- headers

  lemma HasSnoc<T(!new)>(front: seq<(string, T)>, last: (string, T), lowered: string)
    ensures HasHeader(front + [last], lowered) <==> HasHeader(front, lowered) || Lower(last.0) == lowered
  {
    hide Lower;
    var all := front + [last];
    assert all[|front|] == last && forall j | 0 <= j < |front| :: all[j] == front[j];
  }

  lemma LastSnoc<T(!new)>(front: seq<(string, T)>, last: (string, T), j: nat)
    requires j < |front|
    ensures LastNamed(front + [last], j) <==> LastNamed(front, j) && Lower(last.0) != Lower(front[j].0)
  {
    hide Lower;
    var all := front + [last];
    assert all[|front|] == last && forall i | 0 <= i < |front| :: all[i] == front[i];
  }

  lemma GivesSnoc<T(!new)>(front: seq<(string, T)>, last: (string, T), lowered: string, value: T)
    ensures GivesHeader(front + [last], lowered, value)
      <==> if Lower(last.0) == lowered then last.1 == value else GivesHeader(front, lowered, value)
  {
    var all := front + [last];
    assert LastNamed(all, |front|);
    hide Lower, LastNamed;
    assert all[|front|] == last && forall j | 0 <= j < |front| :: all[j] == front[j];
    forall j: nat | j < |front|
      ensures LastNamed(all, j) <==> LastNamed(front, j) && Lower(last.0) != Lower(front[j].0)
    {
      LastSnoc(front, last, j);
    }
  }

  lemma {:induction false} ValuesGiven(headers: seq<(string, string)>, lowered: string, value: string)
    ensures lowered in HeaderValues(headers) <==> HasHeader(headers, lowered)
    ensures GivesHeader(headers, lowered, value)
      <==> lowered in HeaderValues(headers) && HeaderValues(headers)[lowered] == value
    decreases |headers|
  {
    hide Lower, HasHeader, GivesHeader;
    if headers == [] {
      NothingGiven(lowered, value);
    } else {
      var front, last := headers[..|headers| - 1], headers[|headers| - 1];
      ValuesGiven(front, lowered, value);
      assert front + [last] == headers;
      HasSnoc(front, last, lowered);
      GivesSnoc(front, last, lowered, value);
    }
  }

  lemma NothingGiven<T(!new)>(lowered: string, value: T)
    ensures !HasHeader<T>([], lowered) && !GivesHeader([], lowered, value)
  {
  }

  /** The matcher kept for a name is that of its last spelling. */
  lemma {:induction false} MatchersGiven(headers: seq<(string, ValueMatcher)>, lowered: string, value: ValueMatcher)
    ensures GivesHeader(headers, lowered, value)
      <==> lowered in HeaderMatchers(headers) && HeaderMatchers(headers)[lowered] == value
    decreases |headers|
  {
    hide Lower, GivesHeader;
    if headers == [] {
      NothingGiven(lowered, value);
    } else {
      var front, last := headers[..|headers| - 1], headers[|headers| - 1];
      MatchersGiven(front, lowered, value);
      assert front + [last] == headers;
      GivesSnoc(front, last, lowered, value);
    }
  }

  lemma HeaderSuitsIff(want: ValueMatcher, headers: seq<(string, string)>, name: string)
    ensures HeaderSuits(want, headers, name)
      <==> if want.absent then Lower(name) !in HeaderValues(headers)
           else Lookup(HeaderValues(headers), Lower(name)) == want.equalTo
  {
    hide Lower, HeaderValues, GivesHeader, HasHeader;
    ValuesGiven(headers, Lower(name), want.equalTo.GetOr(""));
  }

  lemma HeadersSuitIff(wanted: seq<(string, ValueMatcher)>, headers: seq<(string, string)>)
    ensures ValuesMatch(HeaderMatchers(wanted), HeaderValues(headers))
      <==> forall i: nat | LastNamed(wanted, i) :: HeaderSuits(wanted[i].1, headers, wanted[i].0)
  {
    hide Lower, HeaderValues, HeaderMatchers, HeaderSuits;
    var table := HeaderMatchers(wanted);
    if ValuesMatch(table, HeaderValues(headers)) {
      forall i: nat | LastNamed(wanted, i) ensures HeaderSuits(wanted[i].1, headers, wanted[i].0) {
        MatchersGiven(wanted, Lower(wanted[i].0), wanted[i].1);
        HeaderSuitsIff(wanted[i].1, headers, wanted[i].0);
      }
    }
    if forall i: nat | LastNamed(wanted, i) :: HeaderSuits(wanted[i].1, headers, wanted[i].0) {
      hide LastNamed;
      forall lowered | lowered in table
        ensures if table[lowered].absent then lowered !in HeaderValues(headers)
                else Lookup(HeaderValues(headers), lowered) == table[lowered].equalTo
      {
        MatchersGiven(wanted, lowered, table[lowered]);
        var i: nat :| i < |wanted| && LastNamed(wanted, i) && Lower(wanted[i].0) == lowered
          && wanted[i].1 == table[lowered];
        HeaderSuitsIff(wanted[i].1, headers, wanted[i].0);
      }
    }
  }

  lemma QueriesSuitIff(wanted: map<string, ValueMatcher>, query: map<string, string>)
    ensures ValuesMatch(wanted, query) <==> forall name | name in wanted :: QuerySuits(wanted[name], query, name)
  {
  }

  /** Matching is meeting everything that is asked. */
  lemma SuitsIff(re: FullMatch, states: map<string, Ownership>, m: RuntimeMapping, req: Request)
    ensures Matches(re, states, m, req) <==> Suits(re, states, m, req)
  {
    hide ValuesMatch, HeaderMatchers, HeaderValues, HeaderSuits, QuerySuits, LastNamed;
    HeadersSuitIff(m.request.headers, req.headers);
    QueriesSuitIff(m.request.query, req.url.query);
  }

  // ------------------------------------------------------------- which mapping, what answer

  /** The i-th mapping suits, and every other that does is less urgent, or as urgent and
      later. */
  ghost predicate Foremost(re: FullMatch, states: map<string, Ownership>, ms: seq<RuntimeMapping>, req: Request,
                           i: nat) {
    && i < |ms| && Suits(re, states, ms[i], req)
    && forall j: nat | j < |ms| && Suits(re, states, ms[j], req) ::
         ms[i].priority < ms[j].priority || (ms[i].priority == ms[j].priority && i <= j)
  }

  ghost predicate NoneSuits(re: FullMatch, states: map<string, Ownership>, ms: seq<RuntimeMapping>, req: Request) {
    forall j: nat | j < |ms| :: !Suits(re, states, ms[j], req)
  }

  /** A fault that is not empty makes a 503 that names it; everything else is as defined. */
  ghost predicate RepliesAs(response: Response, r: ResponseDefinition) {
    if r.fault.Some? && r.fault.value != "" then
      response == Response(
        503,
        Object(map["code" := Json.Text("INJECTED_FAULT"), "fault" := Json.Text(r.fault.value),
          "synthetic" := Bool(true)]),
        r.headers["x-simuloom-fault" := r.fault.value])
    else response == Response(r.status, r.jsonBody, r.headers)
  }

  ghost predicate IsNotFound(response: Response) {
    response == Response(
      404, Object(map["code" := Json.Text("NO_MATCH"), "synthetic" := Bool(true)]),
      map["content-type" := "application/json"])
  }

  /** Only the scenario of the mapping moves, to its new state. */
  ghost predicate MovesTo(before: Store, after: Store, m: RuntimeMapping) {
    && after.states.Keys == before.states.Keys
    && forall name | name in before.states ::
         after.states[name] ==
           if m.scenarioName == Some(name) && m.newState.Some?
           then Ownership(before.states[name].simulation, m.newState.value) else before.states[name]
  }

  /** The journal gets one entry more, of which a limit may take the oldest away. */
  ghost predicate Records(before: Store, after: Store, limit: nat, sim: string, event: Event) {
    && Keep(after.events, Owned(sim)) == LastOf(Keep(before.events, Owned(sim)) + [event], limit)
    && Drop(after.events, Owned(sim)) == Drop(before.events, Owned(sim))
  }

  lemma SelectedIsForemost(re: FullMatch, st: Store, sim: string, req: Request)
    ensures match Select(re, st, sim, req)
      case None => NoneSuits(re, st.states, MappingsOf(st, sim), req)
      case Some(m) => exists i: nat ::
        Foremost(re, st.states, MappingsOf(st, sim), req, i) && m == MappingsOf(st, sim)[i]
  {
    var ms := MappingsOf(st, sim);
    hide Matches, Suits, MappingsOf;
    BestIsLeast(re, st.states, ms, req);
    forall j: nat | j < |ms| ensures Matches(re, st.states, ms[j], req) <==> Suits(re, st.states, ms[j], req) {
      SuitsIff(re, st.states, ms[j], req);
    }
    var b := Best(re, st.states, ms, req);
    if b.Some? {
      assert Foremost(re, st.states, ms, req, b.value);
    }
  }

  lemma ForemostIsOne(re: FullMatch, states: map<string, Ownership>, ms: seq<RuntimeMapping>, req: Request, i: nat,
                      j: nat)
    requires Foremost(re, states, ms, req, i) && Foremost(re, states, ms, req, j)
    ensures i == j
  {
    hide Suits;
  }

  lemma ReplyIs(m: RuntimeMapping)
    ensures RepliesAs(Reply(m.response), m.response)
  {
  }

  lemma TransitionMoves(st: Store, m: RuntimeMapping)
    ensures var moved := Transition(st, Some(m));
      && (moved == None <==> m.newState.Some? && m.scenarioName.Some? && m.scenarioName.value !in st.states)
      && (moved.Some? ==> MovesTo(st, moved.value, m) && moved.value.events == st.events)
  {
  }

  lemma AppendRecords(st: Store, after: Store, limit: nat, sim: string, event: Event)
    requires after.events == Trim(st.events + [event], Owned(sim), limit) && event.simulationId == sim
    ensures Records(st, after, limit, sim, event)
  {
    Snoc(st.events, event, Owned(sim));
    hide Trim, Keep, Drop;
    TrimKeepsLast(st.events + [event], Owned(sim), limit);
    TrimDropsNoOther(st.events + [event], Owned(sim), limit);
  }

  /** What is answered and recorded once the mapping is selected. */
  lemma HitMeans(re: FullMatch, limit: nat, st: Store, sim: string, req: Request, m: RuntimeMapping)
    requires Select(re, st, sim, req) == Some(m)
    ensures AnswersWith(Execute(re, limit, st, sim, req), limit, st, sim, req, m)
  {
    ExecuteOutcome(re, limit, st, sim, req);
    TransitionMoves(st, m);
    ReplyIs(m);
    var event := Event(sim, Upper(req.verb), req.url, true, Some(m.name));
    assert EventFor(sim, req, Some(m)) == event;
    hide Execute, Select, Trim, Records, RepliesAs, MovesTo, Reply, Transition, Upper;
    var result := Execute(re, limit, st, sim, req);
    if result.Some? {
      AppendRecords(st, result.value.0, limit, sim, event);
      SameMoves(st, Transition(st, Some(m)).value, result.value.0, m);
    }
  }

  lemma SameMoves(before: Store, a: Store, b: Store, m: RuntimeMapping)
    requires MovesTo(before, a, m) && a.states == b.states
    ensures MovesTo(before, b, m)
  {
  }

  lemma MissMeans(re: FullMatch, limit: nat, st: Store, sim: string, req: Request)
    requires Select(re, st, sim, req) == None
    ensures NotFound(Execute(re, limit, st, sim, req), limit, st, sim, req)
  {
    ExecuteOutcome(re, limit, st, sim, req);
    assert Transition(st, None) == Some(st) && IsNotFound(ReplyOf(None));
    var event := Event(sim, Upper(req.verb), req.url, false, None);
    assert EventFor(sim, req, None) == event;
    hide Execute, Select, Trim, Records, IsNotFound, Transition, ReplyOf, Upper;
    AppendRecords(st, Execute(re, limit, st, sim, req).value.0, limit, sim, event);
  }

  ghost predicate AnswersWith(result: Option<(Store, Response)>, limit: nat, st: Store, sim: string, req: Request,
                              m: RuntimeMapping) {
    if m.newState.Some? && m.scenarioName.Some? && m.scenarioName.value !in st.states then result == None
    else
      && result.Some? && RepliesAs(result.value.1, m.response)
      && MovesTo(st, result.value.0, m) && result.value.0.mappings == st.mappings
      && Records(st, result.value.0, limit, sim, Event(sim, Upper(req.verb), req.url, true, Some(m.name)))
  }

  ghost predicate NotFound(result: Option<(Store, Response)>, limit: nat, st: Store, sim: string, req: Request) {
    && result.Some? && IsNotFound(result.value.1)
    && result.value.0.states == st.states && result.value.0.mappings == st.mappings
    && Records(st, result.value.0, limit, sim, Event(sim, Upper(req.verb), req.url, false, None))
  }

  /** A request to any mappings: the foremost mapping that suits answers as it is defined,
      moves its scenario and is recorded as a match, or the request fails because the
      scenario to move is not deployed; with none it is 404, nothing moves, and the record
      is a miss. */
  lemma ExecuteMeans(re: FullMatch, limit: nat, st: Store, sim: string, req: Request)
    ensures var ms, result := MappingsOf(st, sim), Execute(re, limit, st, sim, req);
      if NoneSuits(re, st.states, ms, req) then NotFound(result, limit, st, sim, req)
      else exists i: nat :: Foremost(re, st.states, ms, req, i) && AnswersWith(result, limit, st, sim, req, ms[i])
  {
    var ms := MappingsOf(st, sim);
    hide Execute, Select, Suits, AnswersWith, NotFound, MappingsOf;
    SelectedIsForemost(re, st, sim, req);
    match Select(re, st, sim, req)
    case None => MissMeans(re, limit, st, sim, req);
    case Some(m) => HitMeans(re, limit, st, sim, req, m);
  }
}
