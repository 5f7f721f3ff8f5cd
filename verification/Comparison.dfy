/** The semantic difference between two revisions of a scenario. */
module Comparison {
  import opened Wrappers
  import opened Json
  import opened Scenario
  import opened Sorting

  datatype ChangePath =
    | Field(name: string)
    | StatePath(state: string)
    | HandlerPath(state: string, handler: string)
    | HandlerField(state: string, handler: string, name: string)

  /** Request payloads are equal whatever the order of their headers; the split form of
      the path goes along with its text. */
  datatype Payload =
    | TextPayload(text: string)
    | TargetPayload(target: Option<string>)
    | RequestPayload(verb: string, path: string, url: (string, map<string, string>), query: map<string, string>,
                     headers: set<(string, string)>, body: Json)
    | ResponsePayload(response: HandlerResponse)
    | HandlerPayload(handler: Handler)
    | StatePayload(state: State)

  datatype Kind = Added | Removed | Modified

  datatype Change = Change(
    path: ChangePath, kind: Kind, breaking: bool, before: Option<Payload>, after: Option<Payload>)

  datatype Report = Report(changeCount: nat, breakingChangeCount: nat, changes: seq<Change>)

  // ------------------------------------------------------------------ specification

  function HeaderSet(headers: seq<(string, string)>): set<(string, string)> {
    set i | 0 <= i < |headers| :: headers[i]
  }

  function Asked(h: Handler): Payload {
    var r := h.request;
    RequestPayload(r.verb, r.path, (r.url.path, r.url.query), r.queryParameters, HeaderSet(r.headers), r.jsonBody)
  }

  function HandlerNames(handlers: seq<Handler>): set<string> {
    set i | 0 <= i < |handlers| :: handlers[i].name
  }

  /** The handler a dictionary keyed by name keeps: the last one of that name. */
  function HandlerNamed(handlers: seq<Handler>, name: string): Option<Handler> {
    if handlers == [] then None
    else if handlers[|handlers| - 1].name == name then Some(handlers[|handlers| - 1])
    else HandlerNamed(handlers[..|handlers| - 1], name)
  }

  function StateNamed(d: Definition, name: string): Option<State> {
    match StateIndex(d.states, name)
    case None => None
    case Some(i) => Some(d.states[i])
  }

  function ValueChanges(path: ChangePath, before: Payload, after: Payload, breaking: bool): seq<Change> {
    if before == after then [] else [Change(path, Modified, breaking, Some(before), Some(after))]
  }

  function FieldChanges(state: string, before: Handler, after: Handler): seq<Change> {
    var name := before.name;
    ValueChanges(HandlerField(state, name, "name"), TextPayload(before.name), TextPayload(after.name), false)
    + ValueChanges(HandlerField(state, name, "new_state"), TargetPayload(before.newState),
      TargetPayload(after.newState), true)
    + ValueChanges(HandlerField(state, name, "request"), Asked(before), Asked(after), true)
    + ValueChanges(HandlerField(state, name, "response"), ResponsePayload(before.response),
      ResponsePayload(after.response), false)
  }

  function HandlerChanges(state: string, name: string, before: Option<Handler>, after: Option<Handler>): seq<Change> {
    match (before, after)
    case (None, None) => []
    case (None, Some(g)) => [Change(HandlerPath(state, name), Added, false, None, Some(HandlerPayload(g)))]
    case (Some(h), None) => [Change(HandlerPath(state, name), Removed, true, Some(HandlerPayload(h)), None)]
    case (Some(h), Some(g)) => FieldChanges(state, h, g)
  }

  function AllHandlerChanges(state: string, before: seq<Handler>, after: seq<Handler>,
                             names: seq<string>): seq<Change> {
    if names == [] then [] else
      var name := names[|names| - 1];
      AllHandlerChanges(state, before, after, names[..|names| - 1])
      + HandlerChanges(state, name, HandlerNamed(before, name), HandlerNamed(after, name))
  }

  function StateChanges(name: string, before: Option<State>, after: Option<State>): seq<Change> {
    match (before, after)
    case (None, None) => []
    case (None, Some(t)) => [Change(StatePath(name), Added, false, None, Some(StatePayload(t)))]
    case (Some(s), None) => [Change(StatePath(name), Removed, true, Some(StatePayload(s)), None)]
    case (Some(s), Some(t)) =>
      AllHandlerChanges(name, s.handlers, t.handlers, SortedTexts(HandlerNames(s.handlers) + HandlerNames(t.handlers)))
  }

  function AllStateChanges(before: Definition, after: Definition, names: seq<string>): seq<Change> {
    if names == [] then [] else
      var name := names[|names| - 1];
      AllStateChanges(before, after, names[..|names| - 1]) + StateChanges(name, StateNamed(before, name),
        StateNamed(after, name))
  }

  function TopChanges(before: Definition, after: Definition): seq<Change> {
    ValueChanges(Field("name"), TextPayload(before.name), TextPayload(after.name), false)
    + ValueChanges(Field("description"), TextPayload(before.description), TextPayload(after.description), false)
    + ValueChanges(Field("initial_state"), TextPayload(before.initialState), TextPayload(after.initialState), true)
    + ValueChanges(Field("reset_state"), TextPayload(ResetState(before)), TextPayload(ResetState(after)), false)
  }

  function Changes(before: Definition, after: Definition): seq<Change> {
    TopChanges(before, after) + AllStateChanges(before, after, SortedTexts(StateNames(before) + StateNames(after)))
  }

  function BreakingCount(changes: seq<Change>): nat {
    if changes == [] then 0 else
      BreakingCount(changes[..|changes| - 1]) + if changes[|changes| - 1].breaking then 1 else 0
  }

  // ------------------------------------------------------------------- the comparison

  method CompareValue(changes: seq<Change>, path: ChangePath, before: Payload, after: Payload, breaking: bool)
    returns (more: seq<Change>)
    ensures more == changes + ValueChanges(path, before, after, breaking)
  {
    more := changes;
    if before != after {
      more := more + [Change(path, Modified, breaking, Some(before), Some(after))];
    }
  }

  method CompareFields(changes: seq<Change>, state: string, before: Handler, after: Handler) returns (more: seq<Change>)
    ensures more == changes + FieldChanges(state, before, after)
  {
    hide ValueChanges, Asked;
    var name := before.name;
    more := CompareValue(changes, HandlerField(state, name, "name"), TextPayload(before.name),
      TextPayload(after.name), false);
    more := CompareValue(more, HandlerField(state, name, "new_state"), TargetPayload(before.newState),
      TargetPayload(after.newState), true);
    more := CompareValue(more, HandlerField(state, name, "request"), Asked(before), Asked(after), true);
    more := CompareValue(
      more, HandlerField(state, name, "response"), ResponsePayload(before.response), ResponsePayload(after.response),
        false);
  }

  method CompareHandler(changes: seq<Change>, state: string, name: string, before: Option<Handler>,
                        after: Option<Handler>)
    returns (more: seq<Change>)
    ensures more == changes + HandlerChanges(state, name, before, after)
  {
    hide FieldChanges;
    more := changes;
    if before == None {
      if after != None {
        more := more + [Change(HandlerPath(state, name), Added, false, None, Some(HandlerPayload(after.value)))];
      }
    } else if after == None {
      more := more + [Change(HandlerPath(state, name), Removed, true, Some(HandlerPayload(before.value)), None)];
    } else {
      more := CompareFields(more, state, before.value, after.value);
    }
  }

  method CompareHandlers(changes: seq<Change>, state: string, before: seq<Handler>, after: seq<Handler>)
    returns (more: seq<Change>)
    ensures more == changes
      + AllHandlerChanges(state, before, after, SortedTexts(HandlerNames(before) + HandlerNames(after)))
  {
    hide HandlerChanges, SortedTexts, HandlerNames, HandlerNamed;
    more := changes;
    var names := SortedTexts(HandlerNames(before) + HandlerNames(after));
    for i := 0 to |names|
      invariant more == changes + AllHandlerChanges(state, before, after, names[..i])
    {
      assert names[..i + 1][..i] == names[..i];
      more := CompareHandler(more, state, names[i], HandlerNamed(before, names[i]), HandlerNamed(after, names[i]));
    }
    assert names[..|names|] == names;
  }

  method CompareState(changes: seq<Change>, name: string, before: Option<State>, after: Option<State>)
    returns (more: seq<Change>)
    ensures more == changes + StateChanges(name, before, after)
  {
    hide AllHandlerChanges, SortedTexts, HandlerNames;
    more := changes;
    if before == None {
      if after != None {
        more := more + [Change(StatePath(name), Added, false, None, Some(StatePayload(after.value)))];
      }
    } else if after == None {
      more := more + [Change(StatePath(name), Removed, true, Some(StatePayload(before.value)), None)];
    } else {
      more := CompareHandlers(more, name, before.value.handlers, after.value.handlers);
    }
  }

  method CompareStates(changes: seq<Change>, before: Definition, after: Definition) returns (more: seq<Change>)
    ensures more == changes + AllStateChanges(before, after, SortedTexts(StateNames(before) + StateNames(after)))
  {
    hide SortedTexts, StateNames, StateNamed, StateChanges;
    more := changes;
    var names := SortedTexts(StateNames(before) + StateNames(after));
    for i := 0 to |names|
      invariant more == changes + AllStateChanges(before, after, names[..i])
    {
      assert names[..i + 1][..i] == names[..i];
      more := CompareState(more, names[i], StateNamed(before, names[i]), StateNamed(after, names[i]));
    }
    assert names[..|names|] == names;
  }

  method CompareScenarioRevisions(before: Definition, after: Definition) returns (report: Report)
    ensures report == Report(|Changes(before, after)|, BreakingCount(Changes(before, after)), Changes(before, after))
  {
    hide ValueChanges, AllStateChanges;
    var changes := [];
    changes := CompareValue(changes, Field("name"), TextPayload(before.name), TextPayload(after.name), false);
    changes := CompareValue(changes, Field("description"), TextPayload(before.description),
      TextPayload(after.description), false);
    changes := CompareValue(changes, Field("initial_state"), TextPayload(before.initialState),
      TextPayload(after.initialState), true);
    changes := CompareValue(changes, Field("reset_state"), TextPayload(ResetState(before)),
      TextPayload(ResetState(after)), false);
    assert changes == TopChanges(before, after);
    changes := CompareStates(changes, before, after);
    var breaking := 0;
    for i := 0 to |changes|
      invariant breaking == BreakingCount(changes[..i])
    {
      assert changes[..i + 1][..i] == changes[..i];
      if changes[i].breaking {
        breaking := breaking + 1;
      }
    }
    assert changes[..|changes|] == changes;
    report := Report(|changes|, breaking, changes);
  }

  // ------------------------------------------------- what zero breaking changes mean

  /** The same name, request and target; the response is free. */
  predicate Keeps(h: Handler, g: Handler) {
    g.name == h.name && Asked(g) == Asked(h) && g.newState == h.newState
  }

  ghost predicate HandlersKept(before: seq<Handler>, after: seq<Handler>) {
    forall h | h in before :: exists g | g in after :: Keeps(h, g)
  }

  /** Nothing of the old definition's graph is lost or altered. */
  ghost predicate Extends(before: Definition, after: Definition) {
    && after.initialState == before.initialState
    && StateNames(before) <= StateNames(after)
    && forall s | s in StateNames(before) :: HandlersKept(HandlersOf(before, s), HandlersOf(after, s))
  }

  predicate DistinctNames(handlers: seq<Handler>) {
    forall i, j | 0 <= i < j < |handlers| :: handlers[i].name != handlers[j].name
  }

  lemma {:induction false} BreakingSum(a: seq<Change>, b: seq<Change>)
    ensures BreakingCount(a + b) == BreakingCount(a) + BreakingCount(b)
    decreases |b|
  {
    if b == [] {
      assert a + b == a;
    } else {
      assert (a + b)[..|a + b| - 1] == a + b[..|b| - 1];
      BreakingSum(a, b[..|b| - 1]);
    }
  }

  lemma {:induction false} HandlerNamedIs(handlers: seq<Handler>, name: string)
    ensures match HandlerNamed(handlers, name)
      case None => name !in HandlerNames(handlers)
      case Some(h) => h in handlers && h.name == name
    decreases |handlers|
  {
    if handlers != [] {
      var front := handlers[..|handlers| - 1];
      HandlerNamedIs(front, name);
      assert HandlerNames(handlers) == HandlerNames(front) + {handlers[|handlers| - 1].name};
    }
  }

  lemma {:induction false} HandlerNamedOnly(handlers: seq<Handler>, h: Handler)
    requires DistinctNames(handlers) && h in handlers
    ensures HandlerNamed(handlers, h.name) == Some(h)
    decreases |handlers|
  {
    var last := handlers[|handlers| - 1];
    if h != last {
      var i :| 0 <= i < |handlers| && handlers[i] == h;
      HandlerNamedOnly(handlers[..|handlers| - 1], h);
    }
  }

  lemma FieldsBreakingIff(state: string, h: Handler, g: Handler)
    requires g.name == h.name
    ensures BreakingCount(FieldChanges(state, h, g)) == 0 <==> Keeps(h, g)
  {
    hide Asked;
    var name := h.name;
    var a := ValueChanges(HandlerField(state, name, "name"), TextPayload(h.name), TextPayload(g.name), false);
    var b := ValueChanges(HandlerField(state, name, "new_state"), TargetPayload(h.newState),
      TargetPayload(g.newState), true);
    var c := ValueChanges(HandlerField(state, name, "request"), Asked(h), Asked(g), true);
    var e := ValueChanges(HandlerField(state, name, "response"), ResponsePayload(h.response),
      ResponsePayload(g.response), false);
    BreakingSum(a + b + c, e);
    BreakingSum(a + b, c);
    BreakingSum(a, b);
  }

  /** The handler of that name survives, if there was one. */
  ghost predicate Survives(before: seq<Handler>, after: seq<Handler>, name: string) {
    match HandlerNamed(before, name)
    case None => true
    case Some(h) =>
      match HandlerNamed(after, name)
      case None => false
      case Some(g) => Keeps(h, g)
  }

  lemma HandlerBreakingIff(state: string, before: seq<Handler>, after: seq<Handler>, name: string)
    ensures BreakingCount(HandlerChanges(state, name, HandlerNamed(before, name), HandlerNamed(after, name))) == 0
      <==> Survives(before, after, name)
  {
    hide FieldChanges, Keeps;
    HandlerNamedIs(before, name);
    HandlerNamedIs(after, name);
    match (HandlerNamed(before, name), HandlerNamed(after, name))
    case (Some(h), Some(g)) => FieldsBreakingIff(state, h, g);
    case _ =>
  }

  lemma {:induction false} HandlersBreakingIff(state: string, before: seq<Handler>, after: seq<Handler>,
                                               names: seq<string>)
    ensures BreakingCount(AllHandlerChanges(state, before, after, names)) == 0
      <==> forall i | 0 <= i < |names| :: Survives(before, after, names[i])
    decreases |names|
  {
    hide HandlerChanges, Survives;
    if names != [] {
      var front, name := names[..|names| - 1], names[|names| - 1];
      HandlersBreakingIff(state, before, after, front);
      HandlerBreakingIff(state, before, after, name);
      BreakingSum(AllHandlerChanges(state, before, after, front),
                  HandlerChanges(state, name, HandlerNamed(before, name), HandlerNamed(after, name)));
      assert forall i | 0 <= i < |front| :: front[i] == names[i];
    }
  }

  lemma KeptIffSurvive(before: seq<Handler>, after: seq<Handler>)
    requires DistinctNames(before) && DistinctNames(after)
    ensures HandlersKept(before, after)
      <==> forall name | name in HandlerNames(before) + HandlerNames(after) :: Survives(before, after, name)
  {
    hide HandlerNamed, Asked, DistinctNames;
    if HandlersKept(before, after) {
      forall name | name in HandlerNames(before) + HandlerNames(after) ensures Survives(before, after, name) {
        HandlerNamedIs(before, name);
        if HandlerNamed(before, name) != None {
          var h := HandlerNamed(before, name).value;
          var g :| g in after && Keeps(h, g);
          HandlerNamedOnly(after, g);
        }
      }
    }
    if forall name | name in HandlerNames(before) + HandlerNames(after) :: Survives(before, after, name) {
      forall h | h in before ensures exists g | g in after :: Keeps(h, g) {
        HandlerNamedOnly(before, h);
        HandlerNamedIs(after, h.name);
        assert h.name in HandlerNames(before);
        assert Survives(before, after, h.name);
      }
    }
  }

  /** The state survives with its handlers, if there was one. */
  ghost predicate StateSurvives(before: Definition, after: Definition, name: string) {
    match StateNamed(before, name)
    case None => true
    case Some(s) =>
      match StateNamed(after, name)
      case None => false
      case Some(t) => HandlersKept(s.handlers, t.handlers)
  }

  ghost predicate StatesDistinct(d: Definition) {
    forall i | 0 <= i < |d.states| :: DistinctNames(d.states[i].handlers)
  }

  lemma WellFormedDistinct(d: Definition)
    requires WellFormed(d)
    ensures StatesDistinct(d)
  {
    forall i | 0 <= i < |d.states| ensures DistinctNames(d.states[i].handlers) {
      assert StateWellFormed(d.states[i], StateNames(d));
    }
  }

  lemma StateBreakingIff(before: Definition, after: Definition, name: string)
    requires StatesDistinct(before) && StatesDistinct(after)
    ensures BreakingCount(StateChanges(name, StateNamed(before, name), StateNamed(after, name))) == 0
      <==> StateSurvives(before, after, name)
  {
    hide AllHandlerChanges, SortedTexts, HandlerNames, HandlersKept, DistinctNames, Survives;
    match (StateNamed(before, name), StateNamed(after, name))
    case (Some(s), Some(t)) =>
      var all := HandlerNames(s.handlers) + HandlerNames(t.handlers);
      SortedTextsMembers(all);
      HandlersBreakingIff(name, s.handlers, t.handlers, SortedTexts(all));
      KeptIffSurvive(s.handlers, t.handlers);
    case _ =>
  }

  lemma {:induction false} StatesBreakingIff(before: Definition, after: Definition, names: seq<string>)
    requires StatesDistinct(before) && StatesDistinct(after)
    ensures BreakingCount(AllStateChanges(before, after, names)) == 0
      <==> forall i | 0 <= i < |names| :: StateSurvives(before, after, names[i])
    decreases |names|
  {
    hide StateChanges, StateSurvives, StateNamed, StatesDistinct;
    if names != [] {
      var front, name := names[..|names| - 1], names[|names| - 1];
      StatesBreakingIff(before, after, front);
      StateBreakingIff(before, after, name);
      BreakingSum(AllStateChanges(before, after, front),
        StateChanges(name, StateNamed(before, name), StateNamed(after, name)));
      assert forall i | 0 <= i < |front| :: front[i] == names[i];
    }
  }

  lemma TopBreakingIff(before: Definition, after: Definition)
    ensures BreakingCount(TopChanges(before, after)) == 0 <==> after.initialState == before.initialState
  {
    var a := ValueChanges(Field("name"), TextPayload(before.name), TextPayload(after.name), false);
    var b := ValueChanges(Field("description"), TextPayload(before.description), TextPayload(after.description), false);
    var c := ValueChanges(Field("initial_state"), TextPayload(before.initialState), TextPayload(after.initialState),
      true);
    var e := ValueChanges(Field("reset_state"), TextPayload(ResetState(before)), TextPayload(ResetState(after)), false);
    BreakingSum(a + b + c, e);
    BreakingSum(a + b, c);
    BreakingSum(a, b);
  }

  lemma StateSurvivesIff(before: Definition, after: Definition, name: string)
    ensures StateSurvives(before, after, name)
      <==> (name in StateNames(before) ==>
              name in StateNames(after) && HandlersKept(HandlersOf(before, name), HandlersOf(after, name)))
  {
    hide HandlersKept;
  }

  lemma AllSurviveIff(before: Definition, after: Definition, names: seq<string>)
    requires forall s :: s in names <==> s in StateNames(before) + StateNames(after)
    ensures (forall i | 0 <= i < |names| :: StateSurvives(before, after, names[i]))
      <==> StateNames(before) <= StateNames(after)
           && forall s | s in StateNames(before) :: HandlersKept(HandlersOf(before, s), HandlersOf(after, s))
  {
    hide StateSurvives, HandlersKept, HandlersOf, StateNames;
    forall name ensures StateSurvives(before, after, name)
      <==> (name in StateNames(before) ==>
              name in StateNames(after) && HandlersKept(HandlersOf(before, name), HandlersOf(after, name)))
    {
      StateSurvivesIff(before, after, name);
    }
    assert (forall i | 0 <= i < |names| :: StateSurvives(before, after, names[i]))
      <==> forall name | name in names :: StateSurvives(before, after, name);
  }

  /** No breaking change is reported exactly when the old graph is part of the new. */
  lemma NonBreakingIff(before: Definition, after: Definition)
    requires WellFormed(before) && WellFormed(after)
    ensures BreakingCount(Changes(before, after)) == 0 <==> Extends(before, after)
  {
    hide WellFormed, TopChanges, AllStateChanges, SortedTexts, StatesDistinct, HandlersKept, StateSurvives,
      HandlersOf, StateNames, BreakingCount;
    WellFormedDistinct(before);
    WellFormedDistinct(after);
    var names := SortedTexts(StateNames(before) + StateNames(after));
    SortedTextsMembers(StateNames(before) + StateNames(after));
    TopBreakingIff(before, after);
    StatesBreakingIff(before, after, names);
    BreakingSum(TopChanges(before, after), AllStateChanges(before, after, names));
    AllSurviveIff(before, after, names);
  }
}
