/** What the embedded runtime does to a store: which mapping answers a request, how
    the scenario states move, and what deployment and resets change. */
module RuntimeSemantics {
  import opened Wrappers
  import opened Json
  import opened Text
  import opened RuntimeModel
  import opened RuntimeStore

  /** `re.fullmatch(pattern, path) is not None`, left to the regular-expression engine. */
  type FullMatch = (string, string) -> bool

  const STARTED := "Started"

  // ------------------------------------------------------------------- matching

  /** Matchers by lower-cased header name; of several spellings the last one counts. */
  function HeaderMatchers(headers: seq<(string, ValueMatcher)>): map<string, ValueMatcher> {
    if headers == [] then map[] else
      HeaderMatchers(headers[..|headers| - 1])[Lower(headers[|headers| - 1].0) := headers[|headers| - 1].1]
  }

  function HeaderValues(headers: seq<(string, string)>): map<string, string> {
    if headers == [] then map[] else
      HeaderValues(headers[..|headers| - 1])[Lower(headers[|headers| - 1].0) := headers[|headers| - 1].1]
  }

  function Lookup(values: map<string, string>, name: string): Option<string> {
    if name in values then Some(values[name]) else None
  }

  predicate ValuesMatch(expected: map<string, ValueMatcher>, actual: map<string, string>) {
    forall name | name in expected ::
      if expected[name].absent then name !in actual
      else Lookup(actual, name) == expected[name].equalTo
  }

  /** The state a mapping is compared with: unknown and empty states count as Started. */
  function CurrentState(states: map<string, Ownership>, name: string): string {
    if name in states && states[name].state != "" then states[name].state else STARTED
  }

  predicate RequestMatches(re: FullMatch, wanted: RequestMatcher, req: Request) {
    && wanted.verb == Upper(req.verb)
    && (wanted.path.Some? ==> wanted.path.value == req.url.path)
    && (wanted.pathPattern.Some? ==> re(wanted.pathPattern.value, req.url.path))
    && ValuesMatch(wanted.query, req.url.query)
    && ValuesMatch(HeaderMatchers(wanted.headers), HeaderValues(req.headers))
    && (wanted.matchBody ==> wanted.jsonBody == req.body)
  }

  predicate StateMatches(states: map<string, Ownership>, mapping: RuntimeMapping) {
    mapping.scenarioName.Some? && mapping.requiredState.Some? ==>
      CurrentState(states, mapping.scenarioName.value) == mapping.requiredState.value
  }

  predicate Matches(re: FullMatch, states: map<string, Ownership>, mapping: RuntimeMapping, req: Request) {
    RequestMatches(re, mapping.request, req) && StateMatches(states, mapping)
  }

  // ------------------------------------------------------------------ selection

  function Insert(m: RuntimeMapping, sorted: seq<RuntimeMapping>): seq<RuntimeMapping> {
    if sorted == [] || sorted[|sorted| - 1].priority <= m.priority then sorted + [m]
    else Insert(m, sorted[..|sorted| - 1]) + [sorted[|sorted| - 1]]
  }

  /** `sorted(mappings, key=priority)`: stable. */
  function SortByPriority(mappings: seq<RuntimeMapping>): seq<RuntimeMapping> {
    if mappings == [] then [] else
      Insert(mappings[|mappings| - 1], SortByPriority(mappings[..|mappings| - 1]))
  }

  function FirstMatch(re: FullMatch, states: map<string, Ownership>, mappings: seq<RuntimeMapping>, req: Request)
    : Option<RuntimeMapping>
  {
    if mappings == [] then None
    else if Matches(re, states, mappings[0], req) then Some(mappings[0])
    else FirstMatch(re, states, mappings[1..], req)
  }

  /** The position of the matching mapping with the least (priority, position). */
  function Best(re: FullMatch, states: map<string, Ownership>, mappings: seq<RuntimeMapping>, req: Request)
    : (best: Option<nat>)
    ensures best.Some? ==> best.value < |mappings|
  {
    if mappings == [] then None else
      var front, last := mappings[..|mappings| - 1], mappings[|mappings| - 1];
      var b := Best(re, states, front, req);
      if Matches(re, states, last, req) && (b == None || last.priority < front[b.value].priority)
      then Some(|mappings| - 1) else b
  }

  /** Best is what its name says: it matches, and no match precedes it. */
  lemma {:induction false} BestIsLeast(re: FullMatch, states: map<string, Ownership>, mappings: seq<RuntimeMapping>,
                                       req: Request)
    ensures match Best(re, states, mappings, req)
      case None => forall i | 0 <= i < |mappings| :: !Matches(re, states, mappings[i], req)
      case Some(b) =>
        && Matches(re, states, mappings[b], req)
        && (forall i | 0 <= i < |mappings| && Matches(re, states, mappings[i], req) ::
              mappings[b].priority < mappings[i].priority || (mappings[b].priority == mappings[i].priority && b <= i))
    decreases |mappings|
  {
    hide Matches;
    if mappings != [] {
      BestIsLeast(re, states, mappings[..|mappings| - 1], req);
    }
  }

  ghost predicate Ascends(mappings: seq<RuntimeMapping>) {
    forall i, j | 0 <= i < j < |mappings| :: mappings[i].priority <= mappings[j].priority
  }

  lemma {:induction false} InsertAscends(m: RuntimeMapping, sorted: seq<RuntimeMapping>)
    requires Ascends(sorted)
    ensures Ascends(Insert(m, sorted))
    ensures forall x | x in Insert(m, sorted) :: x == m || x in sorted
    decreases |sorted|
  {
    if sorted != [] && sorted[|sorted| - 1].priority > m.priority {
      var front := sorted[..|sorted| - 1];
      InsertAscends(m, front);
      assert forall x | x in front :: x.priority <= sorted[|sorted| - 1].priority;
    }
  }

  lemma {:induction false} SortAscends(mappings: seq<RuntimeMapping>)
    ensures Ascends(SortByPriority(mappings))
    decreases |mappings|
  {
    if mappings != [] {
      SortAscends(mappings[..|mappings| - 1]);
      InsertAscends(mappings[|mappings| - 1], SortByPriority(mappings[..|mappings| - 1]));
    }
  }

  lemma {:induction false} FirstMatchAppend(re: FullMatch, states: map<string, Ownership>,
                                            a: seq<RuntimeMapping>, b: seq<RuntimeMapping>, req: Request)
    ensures FirstMatch(re, states, a + b, req) ==
      if FirstMatch(re, states, a, req).Some? then FirstMatch(re, states, a, req) else FirstMatch(re, states, b, req)
    decreases |a|
  {
    hide Matches;
    if a == [] {
      assert a + b == b;
    } else {
      assert (a + b)[1..] == a[1..] + b;
      FirstMatchAppend(re, states, a[1..], b, req);
    }
  }

  lemma {:induction false} FirstMatchIsMember(re: FullMatch, states: map<string, Ownership>,
                                              mappings: seq<RuntimeMapping>, req: Request)
    ensures FirstMatch(re, states, mappings, req).Some? ==> FirstMatch(re, states, mappings, req).value in mappings
    decreases |mappings|
  {
    hide Matches;
    if mappings != [] {
      FirstMatchIsMember(re, states, mappings[1..], req);
    }
  }

  /** Where inserting one mapping into a sorted list changes the first match. */
  lemma {:induction false} FirstMatchInsert(re: FullMatch, states: map<string, Ownership>,
                                            m: RuntimeMapping, sorted: seq<RuntimeMapping>, req: Request)
    requires Ascends(sorted)
    ensures var f := FirstMatch(re, states, sorted, req);
      FirstMatch(re, states, Insert(m, sorted), req) ==
        if Matches(re, states, m, req) && (f == None || m.priority < f.value.priority) then Some(m) else f
    decreases |sorted|
  {
    hide Matches;
    FirstMatchIsMember(re, states, sorted, req);
    if sorted == [] || sorted[|sorted| - 1].priority <= m.priority {
      FirstMatchAppend(re, states, sorted, [m], req);
    } else {
      var front, last := sorted[..|sorted| - 1], sorted[|sorted| - 1];
      FirstMatchInsert(re, states, m, front, req);
      FirstMatchAppend(re, states, front, [last], req);
      FirstMatchAppend(re, states, Insert(m, front), [last], req);
      assert front + [last] == sorted;
    }
  }

  /** The first match of the sorted list is the least (priority, position) match. */
  lemma {:induction false} FirstOfSortedIsBest(re: FullMatch, states: map<string, Ownership>,
                                               mappings: seq<RuntimeMapping>, req: Request)
    ensures FirstMatch(re, states, SortByPriority(mappings), req) == BestMapping(re, states, mappings, req)
    decreases |mappings|
  {
    hide Matches, Insert;
    if mappings != [] {
      var front := mappings[..|mappings| - 1];
      FirstOfSortedIsBest(re, states, front, req);
      SortAscends(front);
      FirstMatchInsert(re, states, mappings[|mappings| - 1], SortByPriority(front), req);
    }
  }

  // -------------------------------------------------- the operations on a store

  const JSON_HEADERS := map["content-type" := "application/json"]

  const NO_MATCH := Response(
    404,
    Object(map["code" := Json.Text("NO_MATCH"), "synthetic" := Bool(true)]),
    JSON_HEADERS)

  function Reply(r: ResponseDefinition): Response {
    if r.fault.Some? && r.fault.value != "" then
      Response(
        503,
        Object(map["code" := Json.Text("INJECTED_FAULT"), "fault" := Json.Text(r.fault.value),
          "synthetic" := Bool(true)]),
        r.headers["x-simuloom-fault" := r.fault.value])
    else Response(r.status, r.jsonBody, r.headers)
  }

  function BestMapping(re: FullMatch, states: map<string, Ownership>, mappings: seq<RuntimeMapping>, req: Request)
    : Option<RuntimeMapping>
  {
    match Best(re, states, mappings, req)
    case None => None
    case Some(b) => Some(mappings[b])
  }

  lemma BestMappingSnoc(re: FullMatch, states: map<string, Ownership>, mappings: seq<RuntimeMapping>,
                        m: RuntimeMapping, req: Request)
    ensures var b := BestMapping(re, states, mappings, req);
      BestMapping(re, states, mappings + [m], req) ==
        if Matches(re, states, m, req) && (b == None || m.priority < b.value.priority) then Some(m) else b
    ensures BestMapping(re, states, mappings, req).Some? ==> BestMapping(re, states, mappings, req).value in mappings
  {
    hide Matches;
    assert (mappings + [m])[..|mappings|] == mappings;
  }

  lemma BestSnoc(re: FullMatch, states: map<string, Ownership>, mappings: seq<RuntimeMapping>, m: RuntimeMapping,
                 req: Request)
    ensures var b := Best(re, states, mappings, req);
      Best(re, states, mappings + [m], req) ==
        if Matches(re, states, m, req) && (b == None || m.priority < mappings[b.value].priority) then Some(|mappings|)
        else b
  {
    hide Matches;
    assert (mappings + [m])[..|mappings|] == mappings;
  }

  function Select(re: FullMatch, st: Store, sim: string, req: Request): Option<RuntimeMapping> {
    BestMapping(re, st.states, MappingsOf(st, sim), req)
  }

  function EventFor(sim: string, req: Request, selected: Option<RuntimeMapping>): Event {
    Event(sim, Upper(req.verb), req.url, selected.Some?, if selected.Some? then Some(selected.value.name) else None)
  }

  /** The scenario states after the selected mapping answered; None when it moves a
      scenario that is not deployed. */
  function Transition(st: Store, selected: Option<RuntimeMapping>): Option<Store> {
    if selected.Some? && selected.value.newState.Some? && selected.value.scenarioName.Some?
    then SetState(st, selected.value.scenarioName.value, selected.value.newState.value)
    else Some(st)
  }

  function ReplyOf(selected: Option<RuntimeMapping>): Response {
    if selected.Some? then Reply(selected.value.response) else NO_MATCH
  }

  /** The store and the response after a request; None is the "not deployed" error. */
  function Execute(re: FullMatch, limit: nat, st: Store, sim: string, req: Request): Option<(Store, Response)> {
    var selected := Select(re, st, sim, req);
    var moved :- Transition(st, selected);
    Some((AppendEvent(moved, limit, sim, EventFor(sim, req, selected)), ReplyOf(selected)))
  }

  /** A request changes the scenario states only by the selected mapping's transition,
      the mappings not at all, and files one event under its simulation, whose journal
      keeps its last entries. */
  lemma ExecuteOutcome(re: FullMatch, limit: nat, st: Store, sim: string, req: Request)
    ensures var moved := Transition(st, Select(re, st, sim, req));
      var result := Execute(re, limit, st, sim, req);
      && (result.Some? <==> moved.Some?)
      && (result.Some? ==>
            && result.value.0.states == moved.value.states
            && result.value.0.mappings == st.mappings
            && result.value.0.events
              == Trim(st.events + [EventFor(sim, req, Select(re, st, sim, req))], Owned(sim), limit)
            && result.value.1 == ReplyOf(Select(re, st, sim, req)))
  {
    hide Select, ReplyOf, EventFor, Trim;
  }

  function EnsureAll(st: Store, sim: string, mappings: seq<RuntimeMapping>): Store {
    if mappings == [] then st else
      var before := EnsureAll(st, sim, mappings[..|mappings| - 1]);
      var last := mappings[|mappings| - 1];
      if last.scenarioName.Some? then EnsureState(before, sim, last.scenarioName.value, STARTED) else before
  }

  function Deploy(st: Store, sim: string, mappings: seq<RuntimeMapping>, resetExisting: bool): Store {
    EnsureAll(ReplaceMappings(if resetExisting then EmptyStore else st, sim, mappings), sim, mappings)
  }

  function InScenario(name: string): RuntimeMapping -> bool {
    (m: RuntimeMapping) => m.scenarioName == Some(name)
  }

  function PutState(st: Store, sim: string, name: string, state: string): Store {
    SetState(EnsureState(st, sim, name, state), name, state).GetOr(st)
  }

  function DeployScenario(st: Store, sim: string, mappings: seq<RuntimeMapping>, name: string, initial: string): Store {
    PutState(ReplaceMappings(st, sim, Drop(MappingsOf(st, sim), InScenario(name)) + mappings), sim, name, initial)
  }

  /** The named scenarios back at Started, every other state unchanged. */
  function Restarted(st: Store, names: set<string>): Store {
    st.(states := map name | name in st.states ::
      if name in names then Ownership(st.states[name].simulation, STARTED) else st.states[name])
  }

  function ResetRuntime(st: Store, sim: Option<string>): Store {
    ClearEvents(Restarted(st, ScenarioNames(st, sim)), sim)
  }
}
