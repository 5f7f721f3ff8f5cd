/** When a handler can answer at all, and when the planner's own request reaches it. */
module Shadowing {
  import opened Wrappers
  import opened Json
  import opened Text
  import opened RuntimeModel
  import opened RuntimeSemantics
  import opened Scenario
  import opened Compiler
  import opened CompilerCorrectness
  import opened Planner
  import opened ValidationPlan

  predicate HeadersCover(g: seq<(string, string)>, h: seq<(string, string)>) {
    forall a | a in g :: exists b | b in h :: Lower(a.0) == Lower(b.0) && a.1 == b.1
  }

  /** Everything g asks of a request, h asks too. */
  predicate Covers(g: Handler, h: Handler) {
    && g.request.verb == h.request.verb
    && g.request.url.path == h.request.url.path
    && (forall name | name in HandlerQuery(g) :: Lookup(HandlerQuery(h), name) == Some(HandlerQuery(g)[name]))
    && HeadersCover(g.request.headers, h.request.headers)
    && (g.request.jsonBody != Null ==> g.request.jsonBody == h.request.jsonBody)
  }

  /** The header table of a request: an entry per spelling, the value of one of its headers. */
  lemma {:induction false} ValuesTable(headers: seq<(string, string)>)
    ensures (forall h | h in headers :: Lower(h.0) in HeaderValues(headers))
    ensures forall name | name in HeaderValues(headers) ::
      exists h | h in headers :: Lower(h.0) == name && h.1 == HeaderValues(headers)[name]
    decreases |headers|
  {
    if headers != [] {
      var front, last := headers[..|headers| - 1], headers[|headers| - 1];
      ValuesTable(front);
      forall name | name in HeaderValues(headers)
        ensures exists h | h in headers :: Lower(h.0) == name && h.1 == HeaderValues(headers)[name]
      {
        if name == Lower(last.0) {
          assert last in headers;
        } else {
          assert name in HeaderValues(front);
          var h :| h in front && Lower(h.0) == name && h.1 == HeaderValues(front)[name];
          assert h in headers;
        }
      }
    }
  }

  lemma OwnHeadersAccept(g: seq<(string, string)>, h: seq<(string, string)>)
    requires !HeadersClash(h)
    ensures HeadersAccept(g, HeaderValues(h)) <==> HeadersCover(g, h)
  {
    ValuesTable(h);
    ClashMembers(h);
    var table := HeaderValues(h);
    if HeadersAccept(g, table) {
      forall a | a in g ensures exists b | b in h :: Lower(a.0) == Lower(b.0) && a.1 == b.1 {
        assert Lookup(table, Lower(a.0)) == Some(a.1);
        var b :| b in h && Lower(b.0) == Lower(a.0) && b.1 == table[Lower(a.0)];
      }
    }
    if HeadersCover(g, h) {
      forall a | a in g ensures Lookup(table, Lower(a.0)) == Some(a.1) {
        var b :| b in h && Lower(a.0) == Lower(b.0) && a.1 == b.1;
        var other :| other in h && Lower(other.0) == Lower(b.0) && other.1 == table[Lower(b.0)];
        assert !Conflict(b, other);
      }
    }
  }

  /** The request planned for h is accepted by exactly the handlers that cover h. */
  lemma PlannedAcceptedIff(g: Handler, h: Handler)
    requires h.request.verb in VERBS && !HeadersClash(h.request.headers)
    ensures Accepts(g, PlannedRequest(h)) <==> Covers(g, h)
  {
    VerbsAreUpper(h.request.verb);
    AcceptsHeaders(g, PlannedRequest(h));
    hide HeadersAccept, HeadersCover, HeadersClash, HeaderValues, Upper;
    OwnHeadersAccept(g.request.headers, h.request.headers);
  }

  lemma CoversAccepts(g: Handler, h: Handler, req: Request)
    requires Covers(g, h) && Accepts(h, req)
    ensures Accepts(g, req)
  {
    AcceptsHeaders(g, req);
    AcceptsHeaders(h, req);
    forall a | a in g.request.headers ensures Lookup(HeaderValues(req.headers), Lower(a.0)) == Some(a.1) {
      var b :| b in h.request.headers && Lower(a.0) == Lower(b.0) && a.1 == b.1;
    }
  }

  lemma CoversItself(h: Handler)
    ensures Covers(h, h)
  {
  }

  /** One handler takes all of another's requests exactly when it covers it. */
  lemma CoversIff(g: Handler, h: Handler)
    requires h.request.verb in VERBS && !HeadersClash(h.request.headers)
    ensures (forall req | Accepts(h, req) :: Accepts(g, req)) <==> Covers(g, h)
  {
    hide Accepts, Covers, PlannedRequest;
    CoversItself(h);
    PlannedAcceptedIff(h, h);
    PlannedAcceptedIff(g, h);
    if Covers(g, h) {
      forall req | Accepts(h, req) ensures Accepts(g, req) {
        CoversAccepts(g, h, req);
      }
    }
  }

  /** The i-th handler is the one that answers. */
  ghost predicate AnswersAt(handlers: seq<Handler>, i: nat, req: Request)
    requires i < |handlers|
  {
    Accepts(handlers[i], req) && forall j | 0 <= j < i :: !Accepts(handlers[j], req)
  }

  /** A handler can ever answer exactly when no earlier handler of its state covers it. */
  lemma CanAnswerIff(handlers: seq<Handler>, i: nat)
    requires i < |handlers| && handlers[i].request.verb in VERBS && !HeadersClash(handlers[i].request.headers)
    ensures (exists req :: AnswersAt(handlers, i, req)) <==> forall j | 0 <= j < i :: !Covers(handlers[j], handlers[i])
  {
    hide Accepts, Covers, HeadersClash, PlannedRequest;
    if req :| AnswersAt(handlers, i, req) {
      forall j | 0 <= j < i ensures !Covers(handlers[j], handlers[i]) {
        if Covers(handlers[j], handlers[i]) { CoversAccepts(handlers[j], handlers[i], req); }
      }
    }
    if forall j | 0 <= j < i :: !Covers(handlers[j], handlers[i]) {
      CoversItself(handlers[i]);
      PlannedAcceptedIff(handlers[i], handlers[i]);
      forall j | 0 <= j < i ensures !Accepts(handlers[j], PlannedRequest(handlers[i])) {
        PlannedAcceptedIff(handlers[j], handlers[i]);
      }
      assert AnswersAt(handlers, i, PlannedRequest(handlers[i]));
    }
  }

  /** The first handler that covers h; h itself is one. */
  function FirstCovering(handlers: seq<Handler>, h: Handler): Handler
    requires h in handlers
  {
    if Covers(handlers[0], h) then handlers[0] else (CoversItself(h); FirstCovering(handlers[1..], h))
  }

  lemma {:induction false} FirstCoveringAnswers(handlers: seq<Handler>, h: Handler)
    requires h in handlers && h.request.verb in VERBS && !HeadersClash(h.request.headers)
    ensures FirstAccepting(handlers, PlannedRequest(h)) == Some(FirstCovering(handlers, h))
    decreases |handlers|
  {
    hide Accepts, Covers, HeadersClash, PlannedRequest;
    PlannedAcceptedIff(handlers[0], h);
    if !Covers(handlers[0], h) {
      CoversItself(h);
      FirstCoveringAnswers(handlers[1..], h);
    }
  }

  /** The first handler covering h gives the status of h and goes where h goes. */
  predicate Served(schema: Schema, d: Definition, state: string, h: Handler)
    requires h in HandlersOf(d, state)
  {
    var first := FirstCovering(HandlersOf(d, state), h);
    && HandlerReply(first).status == h.response.status && schema(h, HandlerReply(first).body)
    && first.newState.GetOr(state) == h.newState.GetOr(state)
  }

  /** A handler passes its own planned case exactly when the first handler of its state
      that covers it gives its status and goes where it goes. */
  lemma ObeysIff(schema: Schema, d: Definition, state: string, h: Handler)
    requires h in HandlersOf(d, state) && h.request.verb in VERBS && !HeadersClash(h.request.headers)
    ensures Obeys(schema, d, state, h) <==> Served(schema, d, state, h)
  {
    hide FirstAccepting, FirstCovering, PlannedRequest, HandlerReply;
    FirstCoveringAnswers(HandlersOf(d, state), h);
  }

  /** A handler that is not shadowed, and injects no fault, passes its case. */
  lemma UnshadowedObeys(schema: Schema, d: Definition, state: string, i: nat)
    requires i < |HandlersOf(d, state)|
    requires var h := HandlersOf(d, state)[i];
      && h.request.verb in VERBS && !HeadersClash(h.request.headers) && h.response.fault == None
      && schema(h, h.response.jsonBody)
    requires forall j | 0 <= j < i :: !Covers(HandlersOf(d, state)[j], HandlersOf(d, state)[i])
    ensures Obeys(schema, d, state, HandlersOf(d, state)[i])
  {
    hide Covers, HeadersClash, Obeys;
    var handlers := HandlersOf(d, state);
    CoversItself(handlers[i]);
    FirstCoveringIs(handlers, i);
    ObeysIff(schema, d, state, handlers[i]);
  }

  lemma {:induction false} FirstCoveringIs(handlers: seq<Handler>, i: nat)
    requires i < |handlers| && forall j | 0 <= j < i :: !Covers(handlers[j], handlers[i])
    ensures FirstCovering(handlers, handlers[i]) == handlers[i]
    decreases i
  {
    hide Covers;
    CoversItself(handlers[i]);
    if i > 0 {
      assert !Covers(handlers[0], handlers[i]);
      assert forall j | 0 <= j < i - 1 :: handlers[1..][j] == handlers[j + 1];
      FirstCoveringIs(handlers[1..], i - 1);
    }
  }

  ghost predicate AllServed(schema: Schema, d: Definition) {
    forall state, h | state in StateNames(d) && h in HandlersOf(d, state) :: Served(schema, d, state, h)
  }

  lemma AllServedIff(schema: Schema, d: Definition)
    requires WellFormed(d) && NoClashes(d.states)
    requires forall s | s in StateNames(d) :: Reachable(d, s)
    ensures ReachableObey(schema, d) <==> AllServed(schema, d)
  {
    hide Obeys, HeadersClash, Reachable, StateNames, HandlersOf, FirstCovering, WellFormed, NoClashes;
    forall state, h | state in StateNames(d) && h in HandlersOf(d, state)
      ensures Obeys(schema, d, state, h) <==> Served(schema, d, state, h)
    {
      HandlerTyped(d, state, h);
      ObeysIff(schema, d, state, h);
    }
    if ReachableObey(schema, d) {
      forall state, h | state in StateNames(d) && h in HandlersOf(d, state) ensures Served(schema, d, state, h) {
        assert AllObey(schema, d, state, HandlersOf(d, state));
      }
    }
    if AllServed(schema, d) {
      forall state | Reachable(d, state) ensures AllObey(schema, d, state, HandlersOf(d, state)) {
        ReachableDeclared(d, state);
      }
    }
  }
}
