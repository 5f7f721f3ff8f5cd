/** What a comparison reports: for every item that differs one change, at its path, with its
    kind, its flag and both sides, and nothing else. */
module ChangeReport {
  import opened Wrappers
  import opened Json
  import opened Text
  import opened Scenario
  import opened Sorting
  import opened Comparison

  // ---------------------------------------------------------------- what is reported

  function Target(d: Definition): string { if d.reset.Some? then d.reset.value else d.initialState }

  ghost predicate TopChange(c: Change, before: Definition, after: Definition) {
    || (before.name != after.name
        && c == Change(Field("name"), Modified, false, Some(TextPayload(before.name)), Some(TextPayload(after.name))))
    || (before.description != after.description
        && c == Change(Field("description"), Modified, false, Some(TextPayload(before.description)),
          Some(TextPayload(after.description))))
    || (before.initialState != after.initialState
        && c == Change(Field("initial_state"), Modified, true, Some(TextPayload(before.initialState)),
          Some(TextPayload(after.initialState))))
    || (Target(before) != Target(after)
        && c == Change(Field("reset_state"), Modified, false, Some(TextPayload(Target(before))),
          Some(TextPayload(Target(after)))))
  }

  ghost predicate HasState(d: Definition, name: string) { exists s | s in d.states :: s.name == name }

  ghost predicate HasHandler(s: State, name: string) { exists h | h in s.handlers :: h.name == name }

  ghost predicate StateLost(c: Change, s: State, after: Definition) {
    !HasState(after, s.name) && c == Change(StatePath(s.name), Removed, true, Some(StatePayload(s)), None)
  }

  ghost predicate StateGained(c: Change, t: State, before: Definition) {
    !HasState(before, t.name) && c == Change(StatePath(t.name), Added, false, None, Some(StatePayload(t)))
  }

  /** A state of one definition only. */
  ghost predicate StateChange(c: Change, before: Definition, after: Definition) {
    || (exists s | s in before.states :: StateLost(c, s, after))
    || (exists t | t in after.states :: StateGained(c, t, before))
  }

  ghost predicate HandlerLost(c: Change, state: string, h: Handler, t: State) {
    !HasHandler(t, h.name) && c == Change(HandlerPath(state, h.name), Removed, true, Some(HandlerPayload(h)), None)
  }

  ghost predicate HandlerGained(c: Change, state: string, g: Handler, s: State) {
    !HasHandler(s, g.name) && c == Change(HandlerPath(state, g.name), Added, false, None, Some(HandlerPayload(g)))
  }

  /** A handler of one side only, or a field of a handler of both, in a state of both. */
  ghost predicate HandlerChange(c: Change, s: State, t: State) {
    || (exists h | h in s.handlers :: HandlerLost(c, s.name, h, t))
    || (exists g | g in t.handlers :: HandlerGained(c, s.name, g, s))
    || (exists h, g | h in s.handlers && g in t.handlers :: h.name == g.name && FieldChange(c, s.name, h, g))
  }

  /** The same request, but for the order of its headers. */
  ghost predicate SameRequest(h: HandlerRequest, g: HandlerRequest) {
    && h.verb == g.verb && h.path == g.path && h.url == g.url && h.queryParameters == g.queryParameters
    && (forall header :: header in h.headers <==> header in g.headers) && h.jsonBody == g.jsonBody
  }

  ghost predicate ShowsRequest(payload: Payload, r: HandlerRequest) {
    && payload.RequestPayload?
    && payload.verb == r.verb && payload.path == r.path && payload.url == (r.url.path, r.url.query)
    && payload.query == r.queryParameters && payload.body == r.jsonBody
    && forall header :: header in payload.headers <==> header in r.headers
  }

  /** A field of two handlers of one name. */
  ghost predicate FieldChange(c: Change, state: string, h: Handler, g: Handler) {
    && c.kind == Modified && c.before.Some? && c.after.Some?
    && ((h.newState != g.newState && c.path == HandlerField(state, h.name, "new_state") && c.breaking
         && c.before.value == TargetPayload(h.newState) && c.after.value == TargetPayload(g.newState))
        || (!SameRequest(h.request, g.request) && c.path == HandlerField(state, h.name, "request") && c.breaking
            && ShowsRequest(c.before.value, h.request) && ShowsRequest(c.after.value, g.request))
        || (h.response != g.response && c.path == HandlerField(state, h.name, "response") && !c.breaking
            && c.before.value == ResponsePayload(h.response) && c.after.value == ResponsePayload(g.response)))
  }

  ghost predicate Reported(c: Change, before: Definition, after: Definition) {
    || TopChange(c, before, after)
    || StateChange(c, before, after)
    || exists s, t | s in before.states && t in after.states :: s.name == t.name && HandlerChange(c, s, t)
  }

  // ------------------------------------------------------------------------- fields

  lemma AskedShows(h: Handler)
    ensures ShowsRequest(Asked(h), h.request)
  {
  }

  lemma ShownIsAsked(payload: Payload, h: Handler)
    requires ShowsRequest(payload, h.request)
    ensures payload == Asked(h)
  {
    assert payload.headers == HeaderSet(h.request.headers);
  }

  lemma AskedSame(h: Handler, g: Handler)
    ensures Asked(h) == Asked(g) <==> SameRequest(h.request, g.request)
  {
    assert forall header :: header in HeaderSet(h.request.headers) <==> header in h.request.headers;
    assert forall header :: header in HeaderSet(g.request.headers) <==> header in g.request.headers;
    if SameRequest(h.request, g.request) {
      assert HeaderSet(h.request.headers) == HeaderSet(g.request.headers);
    }
  }

  lemma FieldsReported(c: Change, state: string, h: Handler, g: Handler)
    requires h.name == g.name
    ensures c in FieldChanges(state, h, g) <==> FieldChange(c, state, h, g)
  {
    AskedShows(h);
    AskedShows(g);
    AskedSame(h, g);
    hide Asked, SameRequest, ShowsRequest;
    if FieldChange(c, state, h, g) && c.path == HandlerField(state, h.name, "request") {
      FieldNamesDiffer();
      ShownIsAsked(c.before.value, h);
      ShownIsAsked(c.after.value, g);
    }
  }

  lemma FieldNamesDiffer()
    ensures "request" != "response" && "request" != "new_state" && "response" != "new_state"
  {
    assert "request"[2] != "response"[2] && "request"[0] != "new_state"[0] && "response"[0] != "new_state"[0];
  }

  // ----------------------------------------------------------------------- handlers

  lemma HandlerReported(c: Change, s: State, t: State, name: string)
    requires DistinctNames(s.handlers) && DistinctNames(t.handlers)
    ensures c in HandlerChanges(s.name, name, HandlerNamed(s.handlers, name), HandlerNamed(t.handlers, name))
      <==>
        || (exists h | h in s.handlers :: h.name == name && HandlerLost(c, s.name, h, t))
        || (exists g | g in t.handlers :: g.name == name && HandlerGained(c, s.name, g, s))
        || (exists h, g | h in s.handlers && g in t.handlers ::
              h.name == name == g.name && FieldChange(c, s.name, h, g))
  {
    hide FieldChanges, FieldChange, HandlerNames;
    NamedHandler(s, name);
    NamedHandler(t, name);
    hide HandlerNamed, DistinctNames;
    match (HandlerNamed(s.handlers, name), HandlerNamed(t.handlers, name))
    case (Some(h), Some(g)) => FieldsReported(c, s.name, h, g);
    case _ =>
  }

  /** The handler of a name is the one, if there is one. */
  lemma NamedHandler(s: State, name: string)
    requires DistinctNames(s.handlers)
    ensures match HandlerNamed(s.handlers, name)
      case None => !HasHandler(s, name)
      case Some(h) => HasHandler(s, name) && forall g :: g in s.handlers && g.name == name <==> g == h
  {
    HandlerNamedIs(s.handlers, name);
    hide DistinctNames, HandlerNamed;
    forall g | g in s.handlers && g.name == name ensures HandlerNamed(s.handlers, name) == Some(g) {
      HandlerNamedOnly(s.handlers, g);
    }
    HandlerNamesAre(s, name);
  }

  lemma {:induction false} AllHandlersMember(c: Change, state: string, before: seq<Handler>, after: seq<Handler>,
                                             names: seq<string>)
    ensures c in AllHandlerChanges(state, before, after, names)
      <==> exists name | name in names :: OfHandler(c, state, before, after, name)
    decreases |names|
  {
    hide HandlerChanges, HandlerNamed;
    if names != [] {
      var front, last := names[..|names| - 1], names[|names| - 1];
      AllHandlersMember(c, state, before, after, front);
      assert front + [last] == names;
      assert c in AllHandlerChanges(state, before, after, names)
        <==> c in AllHandlerChanges(state, before, after, front) || OfHandler(c, state, before, after, last);
    }
  }

  predicate OfHandler(c: Change, state: string, before: seq<Handler>, after: seq<Handler>, name: string) {
    c in HandlerChanges(state, name, HandlerNamed(before, name), HandlerNamed(after, name))
  }

  lemma HandlerNamesAre(s: State, name: string)
    ensures name in HandlerNames(s.handlers) <==> HasHandler(s, name)
  {
    if HasHandler(s, name) {
      var h :| h in s.handlers && h.name == name;
      var i :| 0 <= i < |s.handlers| && s.handlers[i] == h;
    }
  }

  /** All changes inside one state of both. */
  lemma HandlersReported(c: Change, s: State, t: State)
    requires DistinctNames(s.handlers) && DistinctNames(t.handlers)
    ensures c in AllHandlerChanges(s.name, s.handlers, t.handlers,
        SortedTexts(HandlerNames(s.handlers) + HandlerNames(t.handlers)))
      <==> HandlerChange(c, s, t)
  {
    var all := HandlerNames(s.handlers) + HandlerNames(t.handlers);
    SortedTextsMembers(all);
    var names := SortedTexts(all);
    hide SortedTexts, HandlerNames, HandlerChanges, HandlerLost, HandlerGained, FieldChange, HandlerNamed,
      DistinctNames, AllHandlerChanges, HasHandler;
    AllHandlersMember(c, s.name, s.handlers, t.handlers, names);
    forall name ensures name in names <==> HasHandler(s, name) || HasHandler(t, name) {
      HandlerNamesAre(s, name);
      HandlerNamesAre(t, name);
    }
    if c in AllHandlerChanges(s.name, s.handlers, t.handlers, names) {
      var name :| name in names && OfHandler(c, s.name, s.handlers, t.handlers, name);
      HandlerReported(c, s, t, name);
    }
    if HandlerChange(c, s, t) {
      var name := ChangedHandler(c, s, t);
      HandlerReported(c, s, t, name);
      assert OfHandler(c, s.name, s.handlers, t.handlers, name);
    }
  }

  lemma ChangedHandler(c: Change, s: State, t: State) returns (name: string)
    requires HandlerChange(c, s, t)
    ensures HasHandler(s, name) || HasHandler(t, name)
    ensures
      || (exists h | h in s.handlers :: h.name == name && HandlerLost(c, s.name, h, t))
      || (exists g | g in t.handlers :: g.name == name && HandlerGained(c, s.name, g, s))
      || (exists h, g | h in s.handlers && g in t.handlers ::
            h.name == name == g.name && FieldChange(c, s.name, h, g))
  {
    hide HandlerLost, HandlerGained, FieldChange;
    if h :| h in s.handlers && HandlerLost(c, s.name, h, t) {
      name := h.name;
    } else if g :| g in t.handlers && HandlerGained(c, s.name, g, s) {
      name := g.name;
    } else {
      var h, g :| h in s.handlers && g in t.handlers && h.name == g.name && FieldChange(c, s.name, h, g);
      name := h.name;
    }
  }

  // ------------------------------------------------------------------------- states

  lemma NamedState(d: Definition, name: string)
    requires WellFormed(d)
    ensures match StateNamed(d, name)
      case None => !HasState(d, name)
      case Some(s) => HasState(d, name) && forall t :: t in d.states && t.name == name <==> t == s
  {
    hide StateWellFormed;
    var i := StateIndex(d.states, name);
    if i.Some? {
      forall t | t in d.states && t.name == name ensures t == d.states[i.value] {
        var k :| 0 <= k < |d.states| && d.states[k] == t;
      }
    }
  }

  lemma StateNamesAre(d: Definition, name: string)
    ensures name in StateNames(d) <==> HasState(d, name)
  {
    if HasState(d, name) {
      var s :| s in d.states && s.name == name;
      var i :| 0 <= i < |d.states| && d.states[i] == s;
    }
  }

  lemma StateDistinct(d: Definition, s: State)
    requires WellFormed(d) && s in d.states
    ensures DistinctNames(s.handlers)
  {
    var i :| 0 <= i < |d.states| && d.states[i] == s;
    assert StateWellFormed(d.states[i], StateNames(d));
  }

  ghost predicate BothStates(c: Change, before: Definition, after: Definition, name: string) {
    exists s, t | s in before.states && t in after.states :: s.name == name == t.name && HandlerChange(c, s, t)
  }

  lemma StateReported(c: Change, before: Definition, after: Definition, name: string)
    requires WellFormed(before) && WellFormed(after)
    ensures c in StateChanges(name, StateNamed(before, name), StateNamed(after, name))
      <==>
        || (exists s | s in before.states :: s.name == name && StateLost(c, s, after))
        || (exists t | t in after.states :: t.name == name && StateGained(c, t, before))
        || BothStates(c, before, after, name)
  {
    hide AllHandlerChanges, HandlerChange, SortedTexts, HandlerNames, WellFormed;
    NamedState(before, name);
    NamedState(after, name);
    hide StateNamed;
    match (StateNamed(before, name), StateNamed(after, name))
    case (Some(s), Some(t)) =>
      StateDistinct(before, s);
      StateDistinct(after, t);
      HandlersReported(c, s, t);
    case _ =>
  }

  lemma {:induction false} AllStatesMember(c: Change, before: Definition, after: Definition, names: seq<string>)
    ensures c in AllStateChanges(before, after, names)
      <==> exists name | name in names :: c in StateChanges(name, StateNamed(before, name), StateNamed(after, name))
    decreases |names|
  {
    hide StateChanges, StateNamed;
    if names != [] {
      AllStatesMember(c, before, after, names[..|names| - 1]);
    }
  }

  lemma ChangedState(c: Change, before: Definition, after: Definition) returns (name: string)
    requires StateChange(c, before, after)
      || exists s, t | s in before.states && t in after.states :: s.name == t.name && HandlerChange(c, s, t)
    ensures HasState(before, name) || HasState(after, name)
    ensures
      || (exists s | s in before.states :: s.name == name && StateLost(c, s, after))
      || (exists t | t in after.states :: t.name == name && StateGained(c, t, before))
      || BothStates(c, before, after, name)
  {
    hide StateLost, StateGained, HandlerChange;
    if s :| s in before.states && StateLost(c, s, after) {
      name := s.name;
    } else if t :| t in after.states && StateGained(c, t, before) {
      name := t.name;
    } else {
      var s, t :| s in before.states && t in after.states && s.name == t.name && HandlerChange(c, s, t);
      name := s.name;
    }
  }

  lemma StatesReported(c: Change, before: Definition, after: Definition)
    requires WellFormed(before) && WellFormed(after)
    ensures c in AllStateChanges(before, after, SortedTexts(StateNames(before) + StateNames(after)))
      <==>
        || StateChange(c, before, after)
        || exists s, t | s in before.states && t in after.states :: s.name == t.name && HandlerChange(c, s, t)
  {
    var all := StateNames(before) + StateNames(after);
    SortedTextsMembers(all);
    var names := SortedTexts(all);
    hide SortedTexts, StateNames, StateChanges, StateLost, StateGained, HandlerChange, StateNamed, WellFormed,
      AllStateChanges, HasState;
    AllStatesMember(c, before, after, names);
    forall name ensures name in names <==> HasState(before, name) || HasState(after, name) {
      StateNamesAre(before, name);
      StateNamesAre(after, name);
    }
    if c in AllStateChanges(before, after, names) {
      var name :| name in names && c in StateChanges(name, StateNamed(before, name), StateNamed(after, name));
      StateReported(c, before, after, name);
    }
    if StateChange(c, before, after)
      || exists s, t | s in before.states && t in after.states :: s.name == t.name && HandlerChange(c, s, t)
    {
      var name := ChangedState(c, before, after);
      StateReported(c, before, after, name);
    }
  }

  lemma TopReported(c: Change, before: Definition, after: Definition)
    ensures c in TopChanges(before, after) <==> TopChange(c, before, after)
  {
  }

  /** A change is listed exactly when it is one of those. */
  lemma ReportedIff(c: Change, before: Definition, after: Definition)
    requires WellFormed(before) && WellFormed(after)
    ensures c in Changes(before, after) <==> Reported(c, before, after)
  {
    hide TopChanges, TopChange, AllStateChanges, StateChange, HandlerChange, SortedTexts, StateNames, WellFormed;
    TopReported(c, before, after);
    StatesReported(c, before, after);
  }

  // ---------------------------------------------------------------- each one once

  function FieldRank(name: string): nat {
    if name == "name" then 0 else if name == "description" then 1 else if name == "initial_state" then 2 else 3
  }

  /** The fields of the scenario first, then state by state in the order of their names, in
      each handler by handler, in each field by field. */
  ghost predicate PathBefore(a: ChangePath, b: ChangePath) {
    if a.Field? then b.Field? ==> FieldRank(a.name) < FieldRank(b.name)
    else if b.Field? then false
    else if a.state != b.state then TextBefore(a.state, b.state)
    else if a.StatePath? || b.StatePath? then false
    else if a.handler != b.handler then TextBefore(a.handler, b.handler)
    else a.HandlerField? && b.HandlerField? && TextBefore(a.name, b.name)
  }

  ghost predicate InOrder(changes: seq<Change>) {
    forall i, j | 0 <= i < j < |changes| :: PathBefore(changes[i].path, changes[j].path)
  }

  lemma OrderAppend(a: seq<Change>, b: seq<Change>)
    requires InOrder(a) && InOrder(b) && forall x, y | x in a && y in b :: PathBefore(x.path, y.path)
    ensures InOrder(a + b)
  {
    hide PathBefore;
    forall i, j | 0 <= i < j < |a + b| ensures PathBefore((a + b)[i].path, (a + b)[j].path) {
      if i < |a| && j >= |a| {
        assert a[i] in a && b[j - |a|] in b;
      }
    }
  }

  lemma FieldOrder()
    ensures TextBefore("new_state", "request") && TextBefore("request", "response")
    ensures TextBefore("new_state", "response")
  {
    var n, q, p := "new_state", "request", "response";
    assert n[..0] == q[..0] == p[..0] && n[0] < q[0] && n[0] < p[0];
    assert q[..2] == p[..2] && q[2] < p[2];
    assert DiffersAt(n, q, 0) && DiffersAt(n, p, 0) && DiffersAt(q, p, 2);
  }

  /** The changes of one handler. */
  ghost predicate AtHandler(path: ChangePath, state: string, name: string) {
    (path.HandlerPath? || path.HandlerField?) && path.state == state && path.handler == name
  }

  lemma FieldsInOrder(state: string, h: Handler, g: Handler)
    requires h.name == g.name
    ensures InOrder(FieldChanges(state, h, g))
    ensures forall c | c in FieldChanges(state, h, g) :: AtHandler(c.path, state, h.name)
  {
    FieldOrder();
    hide Asked, TextBefore;
  }

  lemma HandlerInOrder(state: string, before: seq<Handler>, after: seq<Handler>, name: string)
    ensures var changes := HandlerChanges(state, name, HandlerNamed(before, name), HandlerNamed(after, name));
      InOrder(changes) && forall c | c in changes :: AtHandler(c.path, state, name)
  {
    hide FieldChanges, HandlerNames;
    HandlerNamedIs(before, name);
    HandlerNamedIs(after, name);
    match (HandlerNamed(before, name), HandlerNamed(after, name))
    case (Some(h), Some(g)) => FieldsInOrder(state, h, g);
    case _ =>
  }

  ghost predicate Ascending(names: seq<string>) { forall i, j | 0 <= i < j < |names| :: TextBefore(names[i], names[j]) }

  ghost predicate AtHandlers(changes: seq<Change>, state: string, names: seq<string>) {
    forall c | c in changes :: exists name | name in names :: AtHandler(c.path, state, name)
  }

  lemma {:induction false} HandlersInOrder(state: string, before: seq<Handler>, after: seq<Handler>, names: seq<string>)
    requires Ascending(names)
    ensures var changes := AllHandlerChanges(state, before, after, names);
      InOrder(changes) && AtHandlers(changes, state, names)
    decreases |names|
  {
    hide HandlerChanges, HandlerNamed, TextBefore, InOrder;
    if names == [] {
      NothingInOrder();
    } else {
      var front, last := names[..|names| - 1], names[|names| - 1];
      HandlersInOrder(state, before, after, front);
      HandlerInOrder(state, before, after, last);
      var changes := HandlerChanges(state, last, HandlerNamed(before, last), HandlerNamed(after, last));
      assert front + [last] == names;
      forall x, y | x in AllHandlerChanges(state, before, after, front) && y in changes
        ensures PathBefore(x.path, y.path)
      {
        var name :| name in front && AtHandler(x.path, state, name);
        var i :| 0 <= i < |front| && front[i] == name;
        assert TextBefore(names[i], names[|front|]);
        HandlerBefore(x.path, y.path, state, name, last);
      }
      OrderAppend(AllHandlerChanges(state, before, after, front), changes);
    }
  }

  lemma HandlerBefore(a: ChangePath, b: ChangePath, state: string, name: string, other: string)
    requires AtHandler(a, state, name) && AtHandler(b, state, other) && TextBefore(name, other)
    ensures PathBefore(a, b)
  {
    hide Lexicographic;
  }

  lemma NothingInOrder()
    ensures InOrder([])
  {
  }

  /** The changes of one state. */
  ghost predicate AtState(path: ChangePath, state: string) { !path.Field? && path.state == state }

  lemma StateInOrder(before: Definition, after: Definition, name: string)
    ensures var changes := StateChanges(name, StateNamed(before, name), StateNamed(after, name));
      InOrder(changes) && forall c | c in changes :: AtState(c.path, name)
  {
    hide AllHandlerChanges, HandlerNames, SortedTexts, TextBefore, StateNamed;
    match (StateNamed(before, name), StateNamed(after, name))
    case (Some(s), Some(t)) =>
      var all := HandlerNames(s.handlers) + HandlerNames(t.handlers);
      SortedTextsAscend(all);
      HandlersInOrder(name, s.handlers, t.handlers, SortedTexts(all));
    case _ =>
  }

  lemma {:induction false} StatesInOrder(before: Definition, after: Definition, names: seq<string>)
    requires Ascending(names)
    ensures var changes := AllStateChanges(before, after, names);
      InOrder(changes) && forall c | c in changes :: exists name | name in names :: AtState(c.path, name)
    decreases |names|
  {
    hide StateChanges, StateNamed, TextBefore, InOrder;
    if names == [] {
      NothingInOrder();
    } else {
      var front, last := names[..|names| - 1], names[|names| - 1];
      StatesInOrder(before, after, front);
      StateInOrder(before, after, last);
      var changes := StateChanges(last, StateNamed(before, last), StateNamed(after, last));
      assert front + [last] == names;
      forall x, y | x in AllStateChanges(before, after, front) && y in changes ensures PathBefore(x.path, y.path) {
        var name :| name in front && AtState(x.path, name);
        var i :| 0 <= i < |front| && front[i] == name;
        assert TextBefore(names[i], names[|front|]);
        StateBefore(x.path, y.path, name, last);
      }
      OrderAppend(AllStateChanges(before, after, front), changes);
    }
  }

  lemma StateBefore(a: ChangePath, b: ChangePath, name: string, other: string)
    requires AtState(a, name) && AtState(b, other) && TextBefore(name, other)
    ensures PathBefore(a, b)
  {
    hide Lexicographic;
  }

  lemma TopInOrder(before: Definition, after: Definition)
    ensures InOrder(TopChanges(before, after)) && forall c | c in TopChanges(before, after) :: c.path.Field?
  {
    hide ResetState;
    var n, d, i, r := "name", "description", "initial_state", "reset_state";
    assert n[0] != d[0] && n[0] != i[0] && n[0] != r[0] && d[0] != i[0] && d[0] != r[0] && i[0] != r[0];
  }

  /** The changes come in the order of their paths, so no path is reported twice. */
  lemma ChangesInOrder(before: Definition, after: Definition)
    ensures InOrder(Changes(before, after))
    ensures forall i, j | 0 <= i < j < |Changes(before, after)| ::
      Changes(before, after)[i].path != Changes(before, after)[j].path
  {
    hide TopChanges, AllStateChanges, StateNames, SortedTexts;
    var names := SortedTexts(StateNames(before) + StateNames(after));
    SortedTextsAscend(StateNames(before) + StateNames(after));
    TopInOrder(before, after);
    StatesInOrder(before, after, names);
    OrderAppend(TopChanges(before, after), AllStateChanges(before, after, names));
  }

  // ------------------------------------------------------------- when nothing is

  ghost predicate HandlersAgree(h: Handler, g: Handler) {
    h.name == g.name && SameRequest(h.request, g.request) && h.newState == g.newState && h.response == g.response
  }

  ghost predicate StatesAgree(s: State, t: State) {
    && s.name == t.name
    && (forall h | h in s.handlers :: exists g | g in t.handlers :: HandlersAgree(h, g))
    && (forall g | g in t.handlers :: HasHandler(s, g.name))
  }

  /** Everything agrees but timeouts, events and the order of things. */
  ghost predicate Agree(before: Definition, after: Definition) {
    && before.name == after.name && before.description == after.description
    && before.initialState == after.initialState && Target(before) == Target(after)
    && (forall s | s in before.states :: exists t | t in after.states :: StatesAgree(s, t))
    && (forall t | t in after.states :: HasState(before, t.name))
  }

  lemma NamesTellStates(d: Definition, s: State, t: State)
    requires WellFormed(d) && s in d.states && t in d.states && s.name == t.name
    ensures s == t
  {
    hide StateWellFormed;
    var i :| 0 <= i < |d.states| && d.states[i] == s;
    var j :| 0 <= j < |d.states| && d.states[j] == t;
  }

  lemma NamesTellHandlers(s: State, h: Handler, g: Handler)
    requires DistinctNames(s.handlers) && h in s.handlers && g in s.handlers && h.name == g.name
    ensures h == g
  {
    var i :| 0 <= i < |s.handlers| && s.handlers[i] == h;
    var j :| 0 <= j < |s.handlers| && s.handlers[j] == g;
  }

  lemma AgreeingStatesSilent(c: Change, s: State, t: State)
    requires StatesAgree(s, t) && DistinctNames(t.handlers)
    ensures !HandlerChange(c, s, t)
  {
    hide FieldChange, SameRequest, DistinctNames;
    forall h | h in s.handlers ensures !HandlerLost(c, s.name, h, t) {
      var g :| g in t.handlers && HandlersAgree(h, g);
      assert HasHandler(t, h.name);
    }
    forall h, g | h in s.handlers && g in t.handlers && h.name == g.name ensures !FieldChange(c, s.name, h, g) {
      var other :| other in t.handlers && HandlersAgree(h, other);
      NamesTellHandlers(t, g, other);
      AgreeingHandlersSilent(c, s.name, h, g);
    }
  }

  lemma AgreeingHandlersSilent(c: Change, state: string, h: Handler, g: Handler)
    requires HandlersAgree(h, g)
    ensures !FieldChange(c, state, h, g)
  {
    hide SameRequest, ShowsRequest;
  }

  lemma AgreeSilent(c: Change, before: Definition, after: Definition)
    requires WellFormed(before) && WellFormed(after) && Agree(before, after)
    ensures !Reported(c, before, after)
  {
    hide StatesAgree, HandlerChange, WellFormed;
    forall s | s in before.states ensures !StateLost(c, s, after) {
      var t :| t in after.states && StatesAgree(s, t);
      AgreeingNames(s, t);
    }
    forall s, t | s in before.states && t in after.states && s.name == t.name ensures !HandlerChange(c, s, t) {
      var other :| other in after.states && StatesAgree(s, other);
      AgreeingNames(s, other);
      NamesTellStates(after, t, other);
      StateDistinct(after, t);
      AgreeingStatesSilent(c, s, t);
    }
  }

  lemma AgreeingNames(s: State, t: State)
    requires StatesAgree(s, t)
    ensures s.name == t.name
  {
  }

  ghost predicate Silent(before: Definition, after: Definition) { forall c :: !Reported(c, before, after) }

  lemma SilentHandlers(before: Definition, after: Definition, s: State, t: State)
    requires Silent(before, after) && s in before.states && t in after.states && s.name == t.name
    ensures StatesAgree(s, t)
  {
    hide TopChange, StateChange, SameRequest;
    forall c ensures !HandlerChange(c, s, t) {
      assert !Reported(c, before, after);
    }
    hide Silent, Reported;
    forall h | h in s.handlers ensures exists g | g in t.handlers :: HandlersAgree(h, g) {
      var c := Change(HandlerPath(s.name, h.name), Removed, true, Some(HandlerPayload(h)), None);
      assert HandlerLost(c, s.name, h, t) <==> !HasHandler(t, h.name);
      assert !HandlerChange(c, s, t);
      var g :| g in t.handlers && g.name == h.name;
      SilentFields(s, t, h, g);
    }
    forall g | g in t.handlers ensures HasHandler(s, g.name) {
      var c := Change(HandlerPath(s.name, g.name), Added, false, None, Some(HandlerPayload(g)));
      assert HandlerGained(c, s.name, g, s) <==> !HasHandler(s, g.name);
      assert !HandlerChange(c, s, t);
    }
  }

  lemma SilentFields(s: State, t: State, h: Handler, g: Handler)
    requires (forall c :: !HandlerChange(c, s, t)) && h in s.handlers && g in t.handlers && h.name == g.name
    ensures HandlersAgree(h, g)
  {
    AskedShows(h);
    AskedShows(g);
    var name := h.name;
    var a := Change(HandlerField(s.name, name, "new_state"), Modified, true, Some(TargetPayload(h.newState)),
      Some(TargetPayload(g.newState)));
    var b := Change(HandlerField(s.name, name, "request"), Modified, true, Some(Asked(h)), Some(Asked(g)));
    var e := Change(HandlerField(s.name, name, "response"), Modified, false, Some(ResponsePayload(h.response)),
      Some(ResponsePayload(g.response)));
    hide SameRequest, ShowsRequest, Asked, HandlerLost, HandlerGained;
    assert h.newState != g.newState ==> FieldChange(a, s.name, h, g);
    assert !SameRequest(h.request, g.request) ==> FieldChange(b, s.name, h, g);
    assert h.response != g.response ==> FieldChange(e, s.name, h, g);
    hide FieldChange;
    assert !HandlerChange(a, s, t) && !HandlerChange(b, s, t) && !HandlerChange(e, s, t);
  }

  lemma SilentTop(before: Definition, after: Definition)
    requires Silent(before, after)
    ensures before.name == after.name && before.description == after.description
    ensures before.initialState == after.initialState && Target(before) == Target(after)
  {
    hide StateChange, HandlerChange, Target;
    var a := Change(Field("name"), Modified, false, Some(TextPayload(before.name)), Some(TextPayload(after.name)));
    var b := Change(Field("description"), Modified, false, Some(TextPayload(before.description)),
      Some(TextPayload(after.description)));
    var e := Change(Field("initial_state"), Modified, true, Some(TextPayload(before.initialState)),
      Some(TextPayload(after.initialState)));
    var r := Change(Field("reset_state"), Modified, false, Some(TextPayload(Target(before))),
      Some(TextPayload(Target(after))));
    assert !Reported(a, before, after) && !Reported(b, before, after);
    assert !Reported(e, before, after) && !Reported(r, before, after);
  }

  lemma SilentStates(before: Definition, after: Definition)
    requires Silent(before, after)
    ensures forall s | s in before.states :: HasState(after, s.name)
    ensures forall t | t in after.states :: HasState(before, t.name)
  {
    hide TopChange, HandlerChange, HasState;
    forall s | s in before.states ensures HasState(after, s.name) {
      var c := Change(StatePath(s.name), Removed, true, Some(StatePayload(s)), None);
      assert !Reported(c, before, after);
      assert StateLost(c, s, after) <==> !HasState(after, s.name);
    }
    forall t | t in after.states ensures HasState(before, t.name) {
      var c := Change(StatePath(t.name), Added, false, None, Some(StatePayload(t)));
      assert !Reported(c, before, after);
      assert StateGained(c, t, before) <==> !HasState(before, t.name);
    }
  }

  lemma SilentAgrees(before: Definition, after: Definition)
    requires Silent(before, after)
    ensures Agree(before, after)
  {
    SilentTop(before, after);
    SilentStates(before, after);
    hide Silent, StatesAgree, Target;
    forall s | s in before.states ensures exists t | t in after.states :: StatesAgree(s, t) {
      assert HasState(after, s.name);
      var t :| t in after.states && t.name == s.name;
      SilentHandlers(before, after, s, t);
    }
  }

  /** Nothing is reported exactly when everything agrees. */
  lemma NothingReportedIff(before: Definition, after: Definition)
    requires WellFormed(before) && WellFormed(after)
    ensures Changes(before, after) == [] <==> Agree(before, after)
  {
    hide Changes, Agree, Reported, WellFormed;
    forall c ensures c in Changes(before, after) <==> Reported(c, before, after) {
      ReportedIff(c, before, after);
    }
    if Changes(before, after) == [] {
      SilentAgrees(before, after);
    }
    if Agree(before, after) && Changes(before, after) != [] {
      var c := Changes(before, after)[0];
      assert c in Changes(before, after);
      AgreeSilent(c, before, after);
    }
  }

  /** The report counts its breaking changes. */
  lemma {:induction false} BreakingAreCounted(changes: seq<Change>)
    ensures BreakingCount(changes) == |set i | 0 <= i < |changes| && changes[i].breaking|
    decreases |changes|
  {
    var here := set i | 0 <= i < |changes| && changes[i].breaking;
    if changes != [] {
      var front := changes[..|changes| - 1];
      BreakingAreCounted(front);
      var before := set i | 0 <= i < |front| && front[i].breaking;
      assert here == before + if changes[|front|].breaking then {|front|} else {};
    }
  }
}
