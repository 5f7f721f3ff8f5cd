/** When a new revision answers as the old one did. Finitely many requests decide it: for
    each old handler its own request, and for each old and new handler that some request
    could reach alike, one request that asks no more than both. */
module Answers {
  import opened Wrappers
  import opened Json
  import opened Text
  import opened RuntimeModel
  import opened RuntimeSemantics
  import opened Scenario
  import opened Compiler
  import opened ValidationPlan
  import opened Shadowing
  import opened Comparison
  import opened Evolution

  // ------------------------------------------------------------ requests to two handlers

  /** Some request is accepted by both. */
  ghost predicate Compatible(g: Handler, h: Handler) {
    && g.request.verb == h.request.verb
    && g.request.url.path == h.request.url.path
    && (forall name | name in HandlerQuery(g) && name in HandlerQuery(h) ::
      HandlerQuery(g)[name] == HandlerQuery(h)[name])
    && !HeadersClash(g.request.headers + h.request.headers)
    && (g.request.jsonBody == Null || h.request.jsonBody == Null || g.request.jsonBody == h.request.jsonBody)
  }

  /** A handler that asks what both ask. */
  function Both(g: Handler, h: Handler): Handler {
    var url := Url(g.request.url.path, HandlerQuery(g) + HandlerQuery(h));
    var body := if g.request.jsonBody != Null then g.request.jsonBody else h.request.jsonBody;
    g.(request := HandlerRequest(g.request.verb, g.request.path, url, map[], g.request.headers + h.request.headers,
      body))
  }

  /** The least request both accept. */
  function Joint(g: Handler, h: Handler): Request { PlannedRequest(Both(g, h)) }

  lemma BothQuery(g: Handler, h: Handler)
    ensures HandlerQuery(Both(g, h)) == HandlerQuery(g) + HandlerQuery(h)
  {
  }

  lemma BothCovered(g: Handler, h: Handler)
    requires Compatible(g, h)
    ensures Covers(g, Both(g, h)) && Covers(h, Both(g, h))
  {
    BothQuery(g, h);
    hide HandlerQuery, HeadersClash;
    var all := g.request.headers + h.request.headers;
    assert forall a :: a in g.request.headers || a in h.request.headers ==> a in all && Lower(a.0) == Lower(a.0);
  }

  /** A request to both is compatible with both asking, and asks what both ask. */
  lemma AcceptedByBoth(g: Handler, h: Handler, req: Request)
    requires Accepts(g, req) && Accepts(h, req)
    ensures Compatible(g, h) && Accepts(Both(g, h), req)
  {
    AcceptsHeaders(g, req);
    AcceptsHeaders(h, req);
    AcceptsHeaders(Both(g, h), req);
    BothQuery(g, h);
    hide HandlerQuery;
    var table, all := HeaderValues(req.headers), g.request.headers + h.request.headers;
    assert HeadersAccept(all, table);
    ClashMembers(all);
    forall a, b | a in all && b in all ensures !Conflict(a, b) {
      assert Lookup(table, Lower(a.0)) == Some(a.1) && Lookup(table, Lower(b.0)) == Some(b.1);
    }
  }

  /** Whatever accepts the joint request accepts every request to both. */
  lemma JointLeast(g: Handler, h: Handler, x: Handler, req: Request)
    requires g.request.verb in VERBS && Accepts(g, req) && Accepts(h, req) && Accepts(x, Joint(g, h))
    ensures Accepts(x, req)
  {
    hide Accepts, Covers, PlannedRequest, HandlerQuery, HeadersClash;
    AcceptedByBoth(g, h, req);
    PlannedAcceptedIff(x, Both(g, h));
    CoversAccepts(x, Both(g, h), req);
  }

  lemma JointAccepted(g: Handler, h: Handler)
    requires g.request.verb in VERBS && Compatible(g, h)
    ensures Accepts(g, Joint(g, h)) && Accepts(h, Joint(g, h))
  {
    BothCovered(g, h);
    hide Accepts, Covers, PlannedRequest, HandlerQuery, HeadersClash;
    PlannedAcceptedIff(g, Both(g, h));
    PlannedAcceptedIff(h, Both(g, h));
  }

  /** The first to accept a request is the first to accept any request that asks no more
      and that it accepts. */
  lemma {:induction false} FirstStays(handlers: seq<Handler>, h: Handler, req: Request, less: Request)
    requires FirstAccepting(handlers, req) == Some(h) && Accepts(h, less)
    requires forall x | x in handlers && Accepts(x, less) :: Accepts(x, req)
    ensures FirstAccepting(handlers, less) == Some(h)
    decreases |handlers|
  {
    hide Accepts;
    if !Accepts(handlers[0], req) {
      FirstStays(handlers[1..], h, req, less);
    }
  }

  lemma FirstIs(handlers: seq<Handler>, req: Request)
    ensures FirstAccepting(handlers, req).Some? ==>
      FirstAccepting(handlers, req).value in handlers && Accepts(FirstAccepting(handlers, req).value, req)
    ensures FirstAccepting(handlers, req) == None ==> forall x | x in handlers :: !Accepts(x, req)
  {
    hide Accepts;
    FirstAcceptingIsHandler(handlers, req);
  }

  // ------------------------------------------------------------- one state's handlers

  /** What counts as the same answer of an old and a new handler. */
  type Sameness = (Handler, Handler) -> bool

  /** If both sets answer the request, they answer alike. */
  predicate AgreeAt(before: seq<Handler>, after: seq<Handler>, same: Sameness, req: Request) {
    var h, g := FirstAccepting(before, req), FirstAccepting(after, req);
    h.Some? && g.Some? ==> same(h.value, g.value)
  }

  ghost predicate JointsAgree(before: seq<Handler>, after: seq<Handler>, same: Sameness) {
    forall g, h | g in after && h in before && Compatible(g, h) :: AgreeAt(before, after, same, Joint(g, h))
  }

  ghost predicate Typed(handlers: seq<Handler>) { forall h | h in handlers :: h.request.verb in VERBS }

  /** Two sets of handlers answer all requests both answer alike exactly when they do so
      for one request per compatible pair. */
  lemma AnswersAgreeIff(before: seq<Handler>, after: seq<Handler>, same: Sameness)
    requires Typed(before) && Typed(after)
    ensures (forall req :: AgreeAt(before, after, same, req)) <==> JointsAgree(before, after, same)
  {
    hide Compatible, Joint, Accepts, FirstAccepting;
    if JointsAgree(before, after, same) {
      forall req ensures AgreeAt(before, after, same, req) {
        JointDecides(before, after, same, req);
      }
    }
  }

  lemma JointDecides(before: seq<Handler>, after: seq<Handler>, same: Sameness, req: Request)
    requires Typed(before) && Typed(after) && JointsAgree(before, after, same)
    ensures AgreeAt(before, after, same, req)
  {
    hide Compatible, Joint, Accepts, FirstAccepting, Both;
    FirstIs(before, req);
    FirstIs(after, req);
    if FirstAccepting(before, req).Some? && FirstAccepting(after, req).Some? {
      var h, g := FirstAccepting(before, req).value, FirstAccepting(after, req).value;
      AcceptedByBoth(g, h, req);
      JointAccepted(g, h);
      forall x | Accepts(x, Joint(g, h)) ensures Accepts(x, req) {
        JointLeast(g, h, x, req);
      }
      FirstStays(before, h, req, Joint(g, h));
      FirstStays(after, g, req, Joint(g, h));
      assert AgreeAt(before, after, same, Joint(g, h));
    }
  }

  /** Every request some old handler could answer finds an answer. */
  ghost predicate OwnAnswered(before: seq<Handler>, after: seq<Handler>) {
    forall h | h in before && !HeadersClash(h.request.headers) :: FirstAccepting(after, PlannedRequest(h)).Some?
  }

  /** If the old set answers, so does the new one, alike. */
  predicate KeptAt(before: seq<Handler>, after: seq<Handler>, same: Sameness, req: Request) {
    FirstAccepting(before, req).Some? ==>
      FirstAccepting(after, req).Some? && same(FirstAccepting(before, req).value, FirstAccepting(after, req).value)
  }

  lemma AcceptedWithoutClash(h: Handler, req: Request)
    requires Accepts(h, req)
    ensures !HeadersClash(h.request.headers)
  {
    AcceptsHeaders(h, req);
    ClashMembers(h.request.headers);
    var table := HeaderValues(req.headers);
    forall a, b | a in h.request.headers && b in h.request.headers ensures !Conflict(a, b) {
      assert Lookup(table, Lower(a.0)) == Some(a.1) && Lookup(table, Lower(b.0)) == Some(b.1);
    }
  }

  lemma OwnRequestAnswered(handlers: seq<Handler>, h: Handler)
    requires h in handlers && h.request.verb in VERBS && !HeadersClash(h.request.headers)
    ensures FirstAccepting(handlers, PlannedRequest(h)).Some?
  {
    hide Accepts, FirstAccepting, PlannedRequest, HeadersClash, Covers;
    FirstIs(handlers, PlannedRequest(h));
    CoversItself(h);
    PlannedAcceptedIff(h, h);
  }

  lemma OwnAnsweredDecides(before: seq<Handler>, after: seq<Handler>, req: Request)
    requires Typed(before) && OwnAnswered(before, after) && FirstAccepting(before, req).Some?
    ensures FirstAccepting(after, req).Some?
  {
    hide Accepts, FirstAccepting, PlannedRequest, HeadersClash, Covers;
    FirstIs(before, req);
    var h := FirstAccepting(before, req).value;
    AcceptedWithoutClash(h, req);
    FirstIs(after, PlannedRequest(h));
    var x := FirstAccepting(after, PlannedRequest(h)).value;
    PlannedAcceptedIff(x, h);
    CoversAccepts(x, h, req);
    FirstIs(after, req);
  }

  predicate Responds(handlers: seq<Handler>, req: Request) { FirstAccepting(handlers, req).Some? }

  /** Whatever is answered before is answered after, exactly when each old handler's own
      request is. */
  lemma AnsweredIff(before: seq<Handler>, after: seq<Handler>)
    requires Typed(before)
    ensures (forall req | Responds(before, req) :: Responds(after, req)) <==> OwnAnswered(before, after)
  {
    hide FirstAccepting, PlannedRequest, HeadersClash;
    if forall req | Responds(before, req) :: Responds(after, req) {
      forall h | h in before && !HeadersClash(h.request.headers)
        ensures FirstAccepting(after, PlannedRequest(h)).Some?
      {
        OwnRequestAnswered(before, h);
        assert Responds(before, PlannedRequest(h));
      }
    }
    if OwnAnswered(before, after) {
      forall req | Responds(before, req) ensures Responds(after, req) {
        OwnAnsweredDecides(before, after, req);
      }
    }
  }

  /** The finite check: every old handler's own request is answered, and one request per
      compatible pair is answered alike. */
  ghost predicate Kept(before: seq<Handler>, after: seq<Handler>, same: Sameness) {
    OwnAnswered(before, after) && JointsAgree(before, after, same)
  }

  lemma KeptIff(before: seq<Handler>, after: seq<Handler>, same: Sameness)
    requires Typed(before) && Typed(after)
    ensures (forall req :: KeptAt(before, after, same, req)) <==> Kept(before, after, same)
  {
    hide FirstAccepting, OwnAnswered, JointsAgree;
    AnsweredIff(before, after);
    AnswersAgreeIff(before, after, same);
    if forall req :: KeptAt(before, after, same, req) {
      forall req ensures AgreeAt(before, after, same, req) {
        assert KeptAt(before, after, same, req);
      }
      forall req | Responds(before, req) ensures Responds(after, req) {
        assert KeptAt(before, after, same, req);
      }
    }
    if Kept(before, after, same) {
      forall req ensures KeptAt(before, after, same, req) {
        assert AgreeAt(before, after, same, req);
        assert Responds(before, req) ==> Responds(after, req);
      }
    }
  }

  // -------------------------------------------------------------------- whole runs

  /** The same next state and, if `replies`, the same response. */
  function Alike(state: string, replies: bool): Sameness {
    (h: Handler, g: Handler) =>
      h.newState.GetOr(state) == g.newState.GetOr(state) && (replies ==> HandlerReply(h) == HandlerReply(g))
  }

  predicate AllAnswered(answers: seq<Option<Response>>) { forall i | 0 <= i < |answers| :: answers[i].Some? }

  /** A run the old definition answers throughout takes the new one to the same state,
      answering throughout, with the same responses if `replies`. */
  ghost predicate RunKept(before: Definition, after: Definition, replies: bool, state: string, reqs: seq<Request>) {
    var (end, answers) := RunMachine(before, state, reqs);
    AllAnswered(answers) ==>
      var (other, found) := RunMachine(after, state, reqs);
      other == end && AllAnswered(found) && (replies ==> found == answers)
  }

  ghost predicate RunsKept(before: Definition, after: Definition, replies: bool) {
    forall state, reqs | state in StateNames(before) :: RunKept(before, after, replies, state, reqs)
  }

  ghost predicate StatesKept(before: Definition, after: Definition, replies: bool) {
    forall state | state in StateNames(before) ::
      Kept(HandlersOf(before, state), HandlersOf(after, state), Alike(state, replies))
  }

  lemma HandlersTyped(d: Definition, state: string)
    requires WellFormed(d)
    ensures Typed(HandlersOf(d, state))
  {
    if StateIndex(d.states, state).Some? {
      assert StateWellFormed(d.states[StateIndex(d.states, state).value], StateNames(d));
    }
  }

  /** One step, in terms of the handlers of the state. */
  predicate StepKept(before: Definition, after: Definition, replies: bool, state: string, req: Request) {
    var (next, answer) := Step(before, state, req);
    answer.Some? ==>
      var (other, found) := Step(after, state, req);
      found.Some? && other == next && (replies ==> found == answer)
  }

  lemma StepKeptIff(before: Definition, after: Definition, replies: bool, state: string, req: Request)
    ensures StepKept(before, after, replies, state, req)
      <==> KeptAt(HandlersOf(before, state), HandlersOf(after, state), Alike(state, replies), req)
  {
    hide FirstAccepting, HandlersOf, HandlerReply;
  }

  lemma {:induction false} StepsMakeRuns(before: Definition, after: Definition, replies: bool, state: string,
                                         reqs: seq<Request>)
    requires WellFormed(before) && state in StateNames(before)
    requires forall s, req | s in StateNames(before) :: StepKept(before, after, replies, s, req)
    ensures RunKept(before, after, replies, state, reqs) && RunMachine(before, state, reqs).0 in StateNames(before)
    decreases |reqs|
  {
    hide Step, WellFormed, StateNames, StepKept;
    if reqs != [] {
      var front, last := reqs[..|reqs| - 1], reqs[|reqs| - 1];
      StepsMakeRuns(before, after, replies, state, front);
      var now := RunMachine(before, state, front).0;
      StepStaysDeclared(before, now, last);
      assert StepKept(before, after, replies, now, last);
      LastStepKept(before, after, replies, state, reqs);
    }
  }

  lemma LastStepKept(before: Definition, after: Definition, replies: bool, state: string, reqs: seq<Request>)
    requires reqs != []
    requires var front := reqs[..|reqs| - 1];
      && RunKept(before, after, replies, state, front)
      && StepKept(before, after, replies, RunMachine(before, state, front).0, reqs[|reqs| - 1])
    ensures RunKept(before, after, replies, state, reqs)
  {
    hide Step;
    var front := reqs[..|reqs| - 1];
    var answers := RunMachine(before, state, reqs).1;
    if AllAnswered(answers) {
      assert answers[..|answers| - 1] == RunMachine(before, state, front).1;
      assert answers[|answers| - 1].Some?;
    }
  }

  lemma OneRequestRun(d: Definition, state: string, req: Request)
    ensures RunMachine(d, state, [req]) == (Step(d, state, req).0, [Step(d, state, req).1])
  {
    hide Step;
    var one := [req];
    assert one[..|one| - 1] == [] && one[|one| - 1] == req;
    assert RunMachine(d, state, one[..|one| - 1]) == (state, []);
    assert [] + [Step(d, state, req).1] == [Step(d, state, req).1];
  }

  /** Every run that the old definition answers throughout, from any of its states, goes
      the same way in the new one, exactly when the finite check holds in every state. */
  lemma RunsKeptIff(before: Definition, after: Definition, replies: bool)
    requires WellFormed(before) && WellFormed(after)
    ensures RunsKept(before, after, replies) <==> StatesKept(before, after, replies)
  {
    hide WellFormed, StateNames, RunKept, HandlersOf, Kept, KeptAt, StepKept, Typed, Alike;
    forall state | state in StateNames(before)
      ensures Kept(HandlersOf(before, state), HandlersOf(after, state), Alike(state, replies))
        <==> forall req :: StepKept(before, after, replies, state, req)
    {
      HandlersTyped(before, state);
      HandlersTyped(after, state);
      KeptIff(HandlersOf(before, state), HandlersOf(after, state), Alike(state, replies));
      forall req ensures StepKept(before, after, replies, state, req)
        <==> KeptAt(HandlersOf(before, state), HandlersOf(after, state), Alike(state, replies), req)
      {
        StepKeptIff(before, after, replies, state, req);
      }
    }
    if RunsKept(before, after, replies) {
      forall state, req | state in StateNames(before) ensures StepKept(before, after, replies, state, req) {
        OneRunOneStep(before, after, replies, state, req);
      }
    }
    if StatesKept(before, after, replies) {
      forall state, reqs | state in StateNames(before) ensures RunKept(before, after, replies, state, reqs) {
        StepsMakeRuns(before, after, replies, state, reqs);
      }
    }
  }

  lemma OneRunOneStep(before: Definition, after: Definition, replies: bool, state: string, req: Request)
    requires RunsKept(before, after, replies) && state in StateNames(before)
    ensures StepKept(before, after, replies, state, req)
  {
    hide Step, StateNames;
    assert RunKept(before, after, replies, state, [req]);
    OneRequestRun(before, state, req);
    OneRequestRun(after, state, req);
    if Step(before, state, req).1.Some? {
      assert RunMachine(after, state, [req]).1[0].Some?;
    }
  }

  // ------------------------------------------------------- after a clean comparison

  ghost predicate JointsAgreeEverywhere(before: Definition, after: Definition, replies: bool) {
    forall state | state in StateNames(before) ::
      JointsAgree(HandlersOf(before, state), HandlersOf(after, state), Alike(state, replies))
  }

  lemma KeepsAccepts(h: Handler, g: Handler, req: Request)
    requires Keeps(h, g)
    ensures Accepts(h, req) ==> Accepts(g, req)
  {
    if Accepts(h, req) {
      assert HandlerQuery(g) == HandlerQuery(h);
      forall i | 0 <= i < |g.request.headers|
        ensures Lookup(HeaderValues(req.headers), Lower(g.request.headers[i].0)) == Some(g.request.headers[i].1)
      {
        assert g.request.headers[i] in HeaderSet(g.request.headers);
        assert g.request.headers[i] in HeaderSet(h.request.headers);
        var j :| 0 <= j < |h.request.headers| && h.request.headers[j] == g.request.headers[i];
      }
    }
  }

  lemma KeptHandlersAnswer(before: seq<Handler>, after: seq<Handler>)
    requires Typed(before) && HandlersKept(before, after)
    ensures OwnAnswered(before, after)
  {
    hide Accepts, FirstAccepting, PlannedRequest, HeadersClash, Covers, Keeps;
    forall h | h in before && !HeadersClash(h.request.headers) ensures FirstAccepting(after, PlannedRequest(h)).Some? {
      var g :| g in after && Keeps(h, g);
      CoversItself(h);
      PlannedAcceptedIff(h, h);
      KeepsAccepts(h, g, PlannedRequest(h));
      FirstIs(after, PlannedRequest(h));
    }
  }

  /** After a comparison without breaking changes, runs go the same way exactly when one
      request per compatible pair of an old and a new handler is answered alike. */
  lemma NonBreakingRunsKeptIff(before: Definition, after: Definition, replies: bool)
    requires WellFormed(before) && WellFormed(after) && BreakingCount(Changes(before, after)) == 0
    ensures RunsKept(before, after, replies) <==> JointsAgreeEverywhere(before, after, replies)
  {
    hide WellFormed, StateNames, RunsKept, HandlersOf, OwnAnswered, JointsAgree, Typed, Alike, Changes,
      BreakingCount, HandlersKept;
    NonBreakingIff(before, after);
    RunsKeptIff(before, after, replies);
    forall state | state in StateNames(before)
      ensures OwnAnswered(HandlersOf(before, state), HandlersOf(after, state))
    {
      HandlersTyped(before, state);
      KeptHandlersAnswer(HandlersOf(before, state), HandlersOf(after, state));
    }
  }

  lemma ShadowedJoint()
    ensures var before, after := Shadowed(false).states[0].handlers, Shadowed(true).states[0].handlers;
      !JointsAgree(before, after, Alike("start", false))
  {
    var before, after := Shadowed(false).states[0].handlers, Shadowed(true).states[0].handlers;
    var g, h := after[0], before[0];
    assert Compatible(g, h);
    JointAccepted(g, h);
    assert FirstAccepting(before, Joint(g, h)) == Some(h) && FirstAccepting(after, Joint(g, h)) == Some(g);
    assert h.newState.GetOr("start") == "done" && g.newState.GetOr("start") == "start" && "done"[0] != "start"[0];
    assert !Alike("start", false)(h, g);
    assert !AgreeAt(before, after, Alike("start", false), Joint(g, h));
  }

  lemma ShadowedStart(first: bool)
    ensures HandlersOf(Shadowed(first), "start") == Shadowed(first).states[0].handlers
    ensures "start" in StateNames(Shadowed(first))
  {
    assert Shadowed(first).states[..1] == [Shadowed(first).states[0]];
    assert Shadowed(first).states[0].name == "start";
  }

  /** The check can fail: an added handler is not breaking, and takes requests from an old
      one to another state. */
  lemma NonBreakingCanDiverge()
    ensures var before, after := Shadowed(false), Shadowed(true);
      && WellFormed(before) && WellFormed(after)
      && BreakingCount(Changes(before, after)) == 0
      && !RunsKept(before, after, false)
  {
    ShadowedWellFormed(false);
    ShadowedWellFormed(true);
    ShadowedExtends();
    ShadowedStart(false);
    ShadowedStart(true);
    ShadowedJoint();
    hide Shadowed, WellFormed, Changes, BreakingCount, RunsKept, JointsAgree, HandlersOf, StateNames, Extends;
    NonBreakingIff(Shadowed(false), Shadowed(true));
    NonBreakingRunsKeptIff(Shadowed(false), Shadowed(true), false);
  }

  /** Old handlers keep their place and new ones come after them. */
  ghost predicate Appends(before: seq<Handler>, after: seq<Handler>) {
    |before| <= |after| && forall i | 0 <= i < |before| :: Keeps(before[i], after[i])
  }

  lemma KeepsSymmetric(h: Handler, g: Handler)
    requires Keeps(h, g)
    ensures Keeps(g, h)
  {
  }

  lemma {:induction false} AppendsAccepting(before: seq<Handler>, after: seq<Handler>, req: Request)
    requires Appends(before, after) && FirstAccepting(before, req).Some?
    ensures FirstAccepting(after, req).Some?
      && Keeps(FirstAccepting(before, req).value, FirstAccepting(after, req).value)
    decreases |before|
  {
    hide Accepts, Keeps;
    KeepsAccepts(before[0], after[0], req);
    KeepsSymmetric(before[0], after[0]);
    KeepsAccepts(after[0], before[0], req);
    if !Accepts(before[0], req) {
      AppendsAccepting(before[1..], after[1..], req);
    }
  }

  ghost predicate AppendsEverywhere(before: Definition, after: Definition) {
    forall s | s in StateNames(before) :: Appends(HandlersOf(before, s), HandlersOf(after, s))
  }

  lemma AppendedKept(before: seq<Handler>, after: seq<Handler>, state: string)
    requires Typed(before) && Typed(after) && Appends(before, after)
    ensures Kept(before, after, Alike(state, false))
  {
    hide FirstAccepting, Appends, Asked, Kept, HandlerReply;
    forall req ensures KeptAt(before, after, Alike(state, false), req) {
      if FirstAccepting(before, req).Some? {
        AppendsAccepting(before, after, req);
      }
    }
    KeptIff(before, after, Alike(state, false));
  }

  /** With handlers only appended the check holds, so every run goes the same way. */
  lemma AppendedRunsAgree(before: Definition, after: Definition)
    requires WellFormed(before) && WellFormed(after) && AppendsEverywhere(before, after)
    ensures RunsKept(before, after, false)
  {
    hide WellFormed, StateNames, RunsKept, HandlersOf, Kept, Typed, Appends, Alike;
    forall state | state in StateNames(before)
      ensures Kept(HandlersOf(before, state), HandlersOf(after, state), Alike(state, false))
    {
      HandlersTyped(before, state);
      HandlersTyped(after, state);
      AppendedKept(HandlersOf(before, state), HandlersOf(after, state), state);
    }
    RunsKeptIff(before, after, false);
  }
}
