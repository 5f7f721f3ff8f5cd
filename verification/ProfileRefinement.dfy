/** What each profile preserves and changes, over every request trace. */
module ProfileRefinement {
  import opened Wrappers
  import opened RuntimeModel
  import opened RuntimeStore
  import opened RuntimeSemantics
  import opened Translation
  import opened CompilerCorrectness
  import opened Profiles

  // ------------------------------------- rewrites that leave the routing alone

  /** Same priority, request and scenario transition: only the response may differ. */
  ghost predicate SameRoute(a: RuntimeMapping, b: RuntimeMapping) {
    && a.priority == b.priority && a.request == b.request
    && a.scenarioName == b.scenarioName && a.requiredState == b.requiredState && a.newState == b.newState
  }

  ghost predicate SameRoutes(xs: seq<RuntimeMapping>, ys: seq<RuntimeMapping>) {
    |xs| == |ys| && forall i | 0 <= i < |xs| :: SameRoute(xs[i], ys[i])
  }

  lemma {:induction false} SameRoutesSameBest(re: FullMatch, states: map<string, Ownership>,
                                              xs: seq<RuntimeMapping>, ys: seq<RuntimeMapping>, req: Request)
    requires SameRoutes(xs, ys)
    ensures Best(re, states, xs, req) == Best(re, states, ys, req)
    decreases |xs|
  {
    hide RequestMatches;
    if xs != [] {
      SameRoutesSameBest(re, states, xs[..|xs| - 1], ys[..|ys| - 1], req);
      assert SameRoute(xs[|xs| - 1], ys[|ys| - 1]);
    }
  }

  lemma SlowKeepsRoutes(ws: seq<WireMapping>, delay: int)
    ensures SameRoutes(FromWires(ws), FromWires(SlowBundle(ws, delay)))
    ensures forall i | 0 <= i < |ws| ::
      var before, after := FromWires(ws)[i].response, FromWires(SlowBundle(ws, delay))[i].response;
      Reply(after) == Reply(before) && after.delayMs == delay
  {
  }

  lemma UnavailableKeepsRoutes(ws: seq<WireMapping>, status: int)
    ensures SameRoutes(FromWires(ws), FromWires(UnavailableBundle(ws, status)))
    ensures forall i | 0 <= i < |ws| ::
      Reply(FromWires(UnavailableBundle(ws, status))[i].response) == FailureReply(UnavailableResponse(status))
  {
  }

  /** The reply of a failure response: its status, headers and body as written. */
  function FailureReply(w: WireResponse): Response
    requires w.status.Some? && w.body.Some?
  {
    Response(w.status.value, JsonValue(w.body.value), w.headers)
  }

  /** Stores that differ in one simulation's mappings only by their responses. */
  ghost predicate SameRouting(a: Store, b: Store, sim: string) {
    a.states == b.states && SameRoutes(MappingsOf(a, sim), MappingsOf(b, sim))
  }

  /** One request on two stores with the same routing: the same position answers, the
      scenarios move alike. */
  lemma SameRoutingStep(re: FullMatch, limit: nat, a: Store, b: Store, sim: string, req: Request)
    requires SameRouting(a, b, sim)
    ensures var x, y := Execute(re, limit, a, sim, req), Execute(re, limit, b, sim, req);
      && (x.Some? <==> y.Some?)
      && (x.Some? ==>
            && SameRouting(x.value.0, y.value.0, sim)
            && MappingsOf(x.value.0, sim) == MappingsOf(a, sim) && MappingsOf(y.value.0, sim) == MappingsOf(b, sim)
            && (Select(re, a, sim, req).Some? <==> Select(re, b, sim, req).Some?)
            && (Select(re, a, sim, req).Some? <==> Best(re, a.states, MappingsOf(a, sim), req).Some?)
            && match Best(re, a.states, MappingsOf(a, sim), req)
               case None => x.value.1 == NO_MATCH && y.value.1 == NO_MATCH
               case Some(i) =>
                 && i < |MappingsOf(a, sim)| == |MappingsOf(b, sim)|
                 && x.value.1 == Reply(MappingsOf(a, sim)[i].response)
                 && y.value.1 == Reply(MappingsOf(b, sim)[i].response))
  {
    SameRoutesSameBest(re, a.states, MappingsOf(a, sim), MappingsOf(b, sim), req);
    ExecuteOutcome(re, limit, a, sim, req);
    ExecuteOutcome(re, limit, b, sim, req);
    hide Execute, Best, Reply;
    var best := Best(re, a.states, MappingsOf(a, sim), req);
    assert best.Some? ==> SameRoute(MappingsOf(a, sim)[best.value], MappingsOf(b, sim)[best.value]);
  }

  ghost predicate Bundle(st: Store, sim: string, ws: seq<WireMapping>) { MappingsOf(st, sim) == FromWires(ws) }

  /** Slow: every trace gets the same responses and the same scenario states. */
  lemma {:induction false} SlowRefines(re: FullMatch, limit: nat, base: Store, slow: Store, sim: string,
                                       ws: seq<WireMapping>, delay: int, reqs: seq<Request>)
    requires Bundle(base, sim, ws) && Bundle(slow, sim, SlowBundle(ws, delay)) && base.states == slow.states
    ensures var x, y := RunRuntime(re, limit, base, sim, reqs), RunRuntime(re, limit, slow, sim, reqs);
      && (x.Some? <==> y.Some?)
      && (x.Some? ==>
            && Bundle(x.value.0, sim, ws) && Bundle(y.value.0, sim, SlowBundle(ws, delay))
            && x.value.0.states == y.value.0.states
            && x.value.1 == y.value.1)
    decreases |reqs|
  {
    hide Execute, Best, Reply, FromWires, SlowBundle, SameRoutes;
    if reqs != [] {
      var front, last := reqs[..|reqs| - 1], reqs[|reqs| - 1];
      SlowRefines(re, limit, base, slow, sim, ws, delay, front);
      SlowKeepsRoutes(ws, delay);
      var x, y := RunRuntime(re, limit, base, sim, front), RunRuntime(re, limit, slow, sim, front);
      if x.Some? {
        SameRoutingStep(re, limit, x.value.0, y.value.0, sim, last);
      }
    }
  }

  /** Which requests of a trace match a mapping. */
  ghost function Matched(re: FullMatch, limit: nat, st: Store, sim: string, reqs: seq<Request>): (matched: seq<bool>)
    requires RunRuntime(re, limit, st, sim, reqs).Some?
    ensures |matched| == |reqs|
  {
    if reqs == [] then [] else
      var before := RunRuntime(re, limit, st, sim, reqs[..|reqs| - 1]).value.0;
      Matched(re, limit, st, sim, reqs[..|reqs| - 1]) + [Select(re, before, sim, reqs[|reqs| - 1]).Some?]
  }

  /** Unavailable: the same requests match and the scenarios move alike, but every
      match, and nothing else, is answered with the failure. */
  lemma {:induction false} UnavailableRefines(re: FullMatch, limit: nat, base: Store, down: Store, sim: string,
                                              ws: seq<WireMapping>, status: int, reqs: seq<Request>)
    requires Bundle(base, sim, ws) && Bundle(down, sim, UnavailableBundle(ws, status)) && base.states == down.states
    ensures var x, y := RunRuntime(re, limit, base, sim, reqs), RunRuntime(re, limit, down, sim, reqs);
      && (x.Some? <==> y.Some?)
      && (x.Some? ==>
            && Bundle(x.value.0, sim, ws) && Bundle(y.value.0, sim, UnavailableBundle(ws, status))
            && x.value.0.states == y.value.0.states
            && |x.value.1| == |y.value.1| == |reqs|
            && var matched := Matched(re, limit, base, sim, reqs);
               && matched == Matched(re, limit, down, sim, reqs)
               && (forall i | 0 <= i < |reqs| && matched[i] ::
                 y.value.1[i] == FailureReply(UnavailableResponse(status)))
               && forall i | 0 <= i < |reqs| && !matched[i] :: y.value.1[i] == NO_MATCH && x.value.1[i] == NO_MATCH)
    decreases |reqs|
  {
    hide Execute, Best, Reply, FromWires, UnavailableBundle, SameRoutes, UnavailableResponse;
    if reqs != [] {
      var front, last := reqs[..|reqs| - 1], reqs[|reqs| - 1];
      UnavailableRefines(re, limit, base, down, sim, ws, status, front);
      UnavailableKeepsRoutes(ws, status);
      var x, y := RunRuntime(re, limit, base, sim, front), RunRuntime(re, limit, down, sim, front);
      if x.Some? {
        SameRoutingStep(re, limit, x.value.0, y.value.0, sim, last);
      }
    }
  }

  // ----------------------------------------------------------------- intermittent

  /** The copy of a mapping that answers in the given phase. */
  function CopyFor(w: WireMapping, sim: string, status: int, degraded: bool): WireMapping {
    if w.scenarioName.Some? then w else if degraded then FailureCopy(w, sim, status) else SuccessCopy(w, sim)
  }

  ghost predicate OwnsNothing(ws: seq<WireMapping>, name: string) {
    forall i | 0 <= i < |ws| :: ws[i].scenarioName != Some(name)
  }

  /** The base run and the intermittent run know the same scenario states, except that
      the intermittent one also has the phase; as long as it has none, it is Started. */
  ghost predicate SameScenarios(base: map<string, Ownership>, phased: map<string, Ownership>, sim: string,
                                degraded: bool) {
    && (IntermittentName(sim) in phased ==>
          phased[IntermittentName(sim)].state == if degraded then DEGRADED else STARTED_STATE)
    && (IntermittentName(sim) !in phased ==> !degraded)
    && forall name | name != IntermittentName(sim) :: Alike(base, phased, name)
  }

  ghost predicate Alike(base: map<string, Ownership>, phased: map<string, Ownership>, name: string) {
    (name in base <==> name in phased) && (name in base ==> base[name] == phased[name])
  }

  /** A bundle with mappings that have no scenario of their own needs the phase. */
  ghost predicate HasPhase(phased: map<string, Ownership>, sim: string, ws: seq<WireMapping>) {
    (exists i | 0 <= i < |ws| :: ws[i].scenarioName == None) ==> IntermittentName(sim) in phased
  }

  lemma PhaseState(base: map<string, Ownership>, phased: map<string, Ownership>, sim: string, degraded: bool)
    requires SameScenarios(base, phased, sim, degraded)
    ensures CurrentState(phased, IntermittentName(sim)) == if degraded then DEGRADED else STARTED_STATE
  {
  }

  lemma OwnedMatch(re: FullMatch, base: map<string, Ownership>, phased: map<string, Ownership>, sim: string,
                   degraded: bool, w: WireMapping, req: Request)
    requires SameScenarios(base, phased, sim, degraded)
    requires w.scenarioName.Some? && w.scenarioName != Some(IntermittentName(sim))
    ensures Matches(re, phased, FromWire(w), req) <==> Matches(re, base, FromWire(w), req)
  {
    hide RequestMatches;
    assert Alike(base, phased, w.scenarioName.value);
  }

  lemma CopiesMatch(re: FullMatch, base: map<string, Ownership>, phased: map<string, Ownership>, sim: string,
                    status: int, degraded: bool, w: WireMapping, req: Request)
    requires SameScenarios(base, phased, sim, degraded) && w.scenarioName == None
    ensures Matches(re, phased, FromWire(SuccessCopy(w, sim)), req)
      <==> Matches(re, base, FromWire(w), req) && !degraded
    ensures Matches(re, phased, FromWire(FailureCopy(w, sim, status)), req)
      <==> Matches(re, base, FromWire(w), req) && degraded
  {
    hide RequestMatches, SameScenarios, CurrentState;
    PhaseState(base, phased, sim, degraded);
    CopyMatches(re, phased, w, SuccessCopy(w, sim), IntermittentName(sim), STARTED_STATE, req);
    CopyMatches(re, phased, w, FailureCopy(w, sim, status), IntermittentName(sim), DEGRADED, req);
    UnboundMatches(re, base, w, req);
    assert STARTED_STATE != DEGRADED;
    hide Matches, FromWire;
  }

  /** A copy matches where its phase is current. */
  lemma CopyMatches(re: FullMatch, states: map<string, Ownership>, w: WireMapping, copy: WireMapping, name: string,
                    phase: string, req: Request)
    requires copy.request == w.request && copy.scenarioName == Some(name) && copy.requiredScenarioState == Some(phase)
    ensures Matches(re, states, FromWire(copy), req)
      <==> CurrentState(states, name) == phase && RequestMatches(re, FromWire(w).request, req)
  {
    hide RequestMatches, CurrentState;
  }

  lemma UnboundMatches(re: FullMatch, states: map<string, Ownership>, w: WireMapping, req: Request)
    requires w.scenarioName == None
    ensures Matches(re, states, FromWire(w), req) <==> RequestMatches(re, FromWire(w).request, req)
  {
    hide RequestMatches;
  }

  /** The intermittent bundle selects the current phase's copy of the very mapping the
      base bundle selects. */
  lemma {:induction false} IntermittentSelects(re: FullMatch, base: map<string, Ownership>, phased: map<string,
                                               Ownership>,
                                               sim: string, status: int, degraded: bool, ws: seq<WireMapping>,
                                               req: Request)
    requires SameScenarios(base, phased, sim, degraded) && OwnsNothing(ws, IntermittentName(sim))
    ensures BestMapping(re, phased, FromWires(IntermittentBundle(ws, sim, status)), req) ==
      match Best(re, base, FromWires(ws), req)
      case None => None
      case Some(b) => Some(FromWire(CopyFor(ws[b], sim, status, degraded)))
    decreases |ws|
  {
    hide Matches, SameScenarios, BestMapping, Best, FromWire, FromWires, CopyFor, Copies;
    if ws == [] {
      NothingSelects(re, base, phased, sim, status, req);
    } else {
      var front, last := ws[..|ws| - 1], ws[|ws| - 1];
      IntermittentSelects(re, base, phased, sim, status, degraded, front, req);
      SnocWires(front, last);
      assert front + [last] == ws;
      BestSnoc(re, base, FromWires(front), FromWire(last), req);
      CopiesWin(re, base, phased, sim, status, degraded, IntermittentBundle(front, sim, status), last, req);
      var b := Best(re, base, FromWires(front), req);
      if b.Some? {
        CopyPriority(front[b.value], sim, status, degraded);
        WireAt(front, b.value);
      }
    }
  }

  lemma NothingSelects(re: FullMatch, base: map<string, Ownership>, phased: map<string, Ownership>, sim: string,
                       status: int, req: Request)
    ensures BestMapping(re, phased, FromWires(IntermittentBundle([], sim, status)), req) == None
    ensures Best(re, base, FromWires([]), req) == None
  {
    assert IntermittentBundle([], sim, status) == [];
  }

  lemma WireAt(ws: seq<WireMapping>, i: nat)
    requires i < |ws|
    ensures FromWires(ws)[i] == FromWire(ws[i])
  {
  }

  /** Appending a mapping's copies: the current phase's copy wins when the mapping
      matches and is more urgent than the best so far. */
  lemma CopiesWin(re: FullMatch, base: map<string, Ownership>, phased: map<string, Ownership>, sim: string, status: int,
                  degraded: bool, so: seq<WireMapping>, w: WireMapping, req: Request)
    requires SameScenarios(base, phased, sim, degraded) && w.scenarioName != Some(IntermittentName(sim))
    ensures var b := BestMapping(re, phased, FromWires(so), req);
      BestMapping(re, phased, FromWires(so + Copies(w, sim, status)), req) ==
        if Matches(re, base, FromWire(w), req) && (b == None || FromWire(w).priority < b.value.priority)
        then Some(FromWire(CopyFor(w, sim, status, degraded))) else b
  {
    hide Matches, SameScenarios, BestMapping;
    if w.scenarioName.Some? {
      OwnedMatch(re, base, phased, sim, degraded, w, req);
    } else {
      CopiesMatch(re, base, phased, sim, status, degraded, w, req);
    }
    CopyPriority(w, sim, status, degraded);
    CopyPriority(w, sim, status, !degraded);
    hide FromWire, FromWires, SuccessCopy, FailureCopy;
    if w.scenarioName.Some? {
      SnocWires(so, w);
      BestMappingSnoc(re, phased, FromWires(so), FromWire(w), req);
    } else {
      var s, f := SuccessCopy(w, sim), FailureCopy(w, sim, status);
      assert so + Copies(w, sim, status) == so + [s] + [f];
      SnocWires(so, s);
      SnocWires(so + [s], f);
      BestMappingSnoc(re, phased, FromWires(so), FromWire(s), req);
      BestMappingSnoc(re, phased, FromWires(so + [s]), FromWire(f), req);
    }
  }

  lemma SnocWires(ws: seq<WireMapping>, w: WireMapping)
    ensures FromWires(ws + [w]) == FromWires(ws) + [FromWire(w)]
  {
  }

  lemma CopyPriority(w: WireMapping, sim: string, status: int, degraded: bool)
    ensures FromWire(CopyFor(w, sim, status, degraded)).priority == FromWire(w).priority
  {
  }

  /** Whether a selection is a hit on a mapping without a scenario of its own. */
  predicate StatelessHit(selected: Option<RuntimeMapping>) {
    selected.Some? && selected.value.scenarioName == None
  }

  /** One request: the phase flips at a stateless hit and nowhere else; a hit in the
      degraded phase gets the failure, everything else the base response. */
  lemma IntermittentStep(re: FullMatch, limit: nat, base: Store, phased: Store, sim: string, status: int,
                         degraded: bool, ws: seq<WireMapping>, req: Request)
    requires Bundle(base, sim, ws) && Bundle(phased, sim, IntermittentBundle(ws, sim, status))
    requires OwnsNothing(ws, IntermittentName(sim)) && SameScenarios(base.states, phased.states, sim, degraded)
    requires HasPhase(phased.states, sim, ws)
    ensures var x, y := Execute(re, limit, base, sim, req), Execute(re, limit, phased, sim, req);
      var hit := StatelessHit(Select(re, base, sim, req));
      && (x.Some? <==> y.Some?)
      && (x.Some? ==>
            && Bundle(x.value.0, sim, ws) && Bundle(y.value.0, sim, IntermittentBundle(ws, sim, status))
            && SameScenarios(x.value.0.states, y.value.0.states, sim, if hit then !degraded else degraded)
            && HasPhase(y.value.0.states, sim, ws)
            && y.value.1 == if hit && degraded then FailureReply(IntermittentResponse(status)) else x.value.1)
  {
    IntermittentSelects(re, base.states, phased.states, sim, status, degraded, ws, req);
    ExecuteOutcome(re, limit, base, sim, req);
    ExecuteOutcome(re, limit, phased, sim, req);
    TransitionKeepsNames(phased, Select(re, phased, sim, req));
    hide Execute, Best, IntermittentBundle, SameScenarios;
    match Best(re, base.states, FromWires(ws), req)
    case None =>
    case Some(b) =>
      assert ws[b].scenarioName != Some(IntermittentName(sim));
      CopyMoves(base, phased, sim, status, degraded, ws[b]);
  }

  lemma TransitionKeepsNames(st: Store, selected: Option<RuntimeMapping>)
    ensures Transition(st, selected).Some? ==> Transition(st, selected).value.states.Keys == st.states.Keys
  {
  }

  lemma MoveBoth(base: map<string, Ownership>, phased: map<string, Ownership>, sim: string, degraded: bool,
                 name: string, to: string)
    requires SameScenarios(base, phased, sim, degraded) && name != IntermittentName(sim)
    ensures name in base <==> name in phased
    ensures name in base ==>
      SameScenarios(base[name := Ownership(base[name].simulation, to)],
                    phased[name := Ownership(phased[name].simulation, to)], sim, degraded)
  {
    assert Alike(base, phased, name);
    if name in base {
      var x := base[name := Ownership(base[name].simulation, to)];
      var y := phased[name := Ownership(phased[name].simulation, to)];
      forall other | other != IntermittentName(sim) ensures Alike(x, y, other) {
        assert Alike(base, phased, other);
      }
    }
  }

  lemma MovePhase(base: map<string, Ownership>, phased: map<string, Ownership>, sim: string, degraded: bool)
    requires SameScenarios(base, phased, sim, degraded) && IntermittentName(sim) in phased
    ensures var name := IntermittentName(sim);
      SameScenarios(base, phased[name := Ownership(phased[name].simulation,
        if degraded then STARTED_STATE else DEGRADED)],
                    sim, !degraded)
  {
    var name := IntermittentName(sim);
    var y := phased[name := Ownership(phased[name].simulation, if degraded then STARTED_STATE else DEGRADED)];
    forall other | other != name ensures Alike(base, y, other) {
      assert Alike(base, phased, other);
    }
  }

  lemma CopyMoves(base: Store, phased: Store, sim: string, status: int, degraded: bool, w: WireMapping)
    requires SameScenarios(base.states, phased.states, sim, degraded) && w.scenarioName != Some(IntermittentName(sim))
    requires w.scenarioName == None ==> IntermittentName(sim) in phased.states
    ensures var a, b := FromWire(w), FromWire(CopyFor(w, sim, status, degraded));
      var x, y := Transition(base, Some(a)), Transition(phased, Some(b));
      && (x.Some? <==> y.Some?)
      && (x.Some? ==> SameScenarios(x.value.states, y.value.states, sim,
        if w.scenarioName == None then !degraded else degraded))
      && Reply(b.response) ==
           if w.scenarioName == None && degraded then FailureReply(IntermittentResponse(status)) else Reply(a.response)
  {
    if w.scenarioName == None {
      MovePhase(base.states, phased.states, sim, degraded);
    }
    if w.scenarioName.Some? && w.newScenarioState.Some? {
      MoveBoth(base.states, phased.states, sim, degraded, w.scenarioName.value, w.newScenarioState.value);
    }
    hide SameScenarios;
  }

  /** Which requests of a trace are stateless hits in the base run. */
  ghost function Hits(re: FullMatch, limit: nat, st: Store, sim: string, reqs: seq<Request>): (hits: seq<bool>)
    requires RunRuntime(re, limit, st, sim, reqs).Some?
    ensures |hits| == |reqs|
  {
    if reqs == [] then [] else
      var before := RunRuntime(re, limit, st, sim, reqs[..|reqs| - 1]).value.0;
      Hits(re, limit, st, sim, reqs[..|reqs| - 1]) + [StatelessHit(Select(re, before, sim, reqs[|reqs| - 1]))]
  }

  function Trues(bits: seq<bool>): nat {
    if bits == [] then 0 else Trues(bits[..|bits| - 1]) + if bits[|bits| - 1] then 1 else 0
  }

  /** Degraded before request i: the stateless hits before it flipped the phase an odd
      number of times from Started, or an even number from degraded. */
  predicate DegradedAt(degraded: bool, hits: seq<bool>, i: nat)
    requires i <= |hits|
  {
    if Trues(hits[..i]) % 2 == 1 then !degraded else degraded
  }

  lemma PhaseAtStart(degraded: bool)
    ensures DegradedAt(degraded, [], 0) == degraded
  {
  }

  /** One more request flips the phase if it hits, and changes nothing before it. */
  lemma PhaseSnoc(degraded: bool, hits: seq<bool>, hit: bool)
    ensures forall i | 0 <= i <= |hits| :: DegradedAt(degraded, hits + [hit], i) == DegradedAt(degraded, hits, i)
    ensures DegradedAt(degraded, hits + [hit], |hits| + 1)
      == if hit then !DegradedAt(degraded, hits, |hits|) else DegradedAt(degraded, hits, |hits|)
  {
    var more := hits + [hit];
    assert forall i | 0 <= i <= |hits| :: more[..i] == hits[..i];
    assert more[..|hits| + 1] == more && hits[..|hits|] == hits == more[..|hits|];
  }

  /** Every trace from either phase: the scenarios the bundle already had move exactly as
      in the base run, and the stateless hits, across all mappings, are answered
      alternately by the base response and the failure. */
  lemma {:induction false} IntermittentRefines(re: FullMatch, limit: nat, base: Store, phased: Store, sim: string,
                                               ws: seq<WireMapping>, status: int, degraded: bool, reqs: seq<Request>)
    requires Bundle(base, sim, ws) && Bundle(phased, sim, IntermittentBundle(ws, sim, status))
    requires OwnsNothing(ws, IntermittentName(sim)) && SameScenarios(base.states, phased.states, sim, degraded)
    requires HasPhase(phased.states, sim, ws)
    ensures var x, y := RunRuntime(re, limit, base, sim, reqs), RunRuntime(re, limit, phased, sim, reqs);
      && (x.Some? <==> y.Some?)
      && (x.Some? ==>
            var hits := Hits(re, limit, base, sim, reqs);
            && Bundle(x.value.0, sim, ws) && Bundle(y.value.0, sim, IntermittentBundle(ws, sim, status))
            && SameScenarios(x.value.0.states, y.value.0.states, sim, DegradedAt(degraded, hits, |reqs|))
            && HasPhase(y.value.0.states, sim, ws)
            && |x.value.1| == |y.value.1| == |reqs|
            && forall i | 0 <= i < |reqs| ::
                 y.value.1[i] == if hits[i] && DegradedAt(degraded, hits, i)
                                 then FailureReply(IntermittentResponse(status)) else x.value.1[i])
    decreases |reqs|
  {
    hide Execute, Select, Bundle, SameScenarios, HasPhase, IntermittentBundle, IntermittentResponse, OwnsNothing,
      DegradedAt, StatelessHit, FailureReply;
    if reqs == [] {
      PhaseAtStart(degraded);
    } else {
      var front, last := reqs[..|reqs| - 1], reqs[|reqs| - 1];
      IntermittentRefines(re, limit, base, phased, sim, ws, status, degraded, front);
      var x, y := RunRuntime(re, limit, base, sim, front), RunRuntime(re, limit, phased, sim, front);
      if x.Some? {
        var hits := Hits(re, limit, base, sim, front);
        IntermittentStep(re, limit, x.value.0, y.value.0, sim, status, DegradedAt(degraded, hits, |front|), ws, last);
        if RunRuntime(re, limit, base, sim, reqs).Some? {
          PhaseSnoc(degraded, hits, StatelessHit(Select(re, x.value.0, sim, last)));
        }
      }
    }
  }

  // -------------------------------------------------------------------- deployment

  ghost predicate Mentions(ws: seq<WireMapping>,
                           name: string) { exists i | 0 <= i < |ws| :: ws[i].scenarioName == Some(name) }

  ghost predicate Stateless(ws: seq<WireMapping>) { exists i | 0 <= i < |ws| :: ws[i].scenarioName == None }

  lemma MentionsSnoc(ws: seq<WireMapping>, w: WireMapping, name: string)
    ensures Mentions(ws + [w], name) <==> Mentions(ws, name) || w.scenarioName == Some(name)
    ensures Stateless(ws + [w]) <==> Stateless(ws) || w.scenarioName == None
  {
    var more := ws + [w];
    assert more[|ws|] == w && forall i | 0 <= i < |ws| :: more[i] == ws[i];
  }

  lemma CopiesMention(so: seq<WireMapping>, w: WireMapping, sim: string, status: int, name: string)
    ensures Mentions(so + Copies(w, sim, status), name)
      <==>
        || Mentions(so, name) || w.scenarioName == Some(name)
        || (name == IntermittentName(sim) && w.scenarioName == None)
  {
    hide Mentions, IntermittentName;
    if w.scenarioName.Some? {
      MentionsSnoc(so, w, name);
    } else {
      var s, f := SuccessCopy(w, sim), FailureCopy(w, sim, status);
      assert so + [s, f] == so + [s] + [f];
      MentionsSnoc(so, s, name);
      MentionsSnoc(so + [s], f, name);
    }
  }

  /** The intermittent bundle names what the base bundle names and, if it has mappings
      without a scenario, the phase. */
  lemma {:induction false} IntermittentMentions(ws: seq<WireMapping>, sim: string, status: int, name: string)
    ensures Mentions(IntermittentBundle(ws, sim, status), name)
      <==> Mentions(ws, name) || (name == IntermittentName(sim) && Stateless(ws))
    decreases |ws|
  {
    hide Mentions, Stateless, Copies, IntermittentName;
    if ws == [] {
      NothingMentioned(name);
    } else {
      var front, last := ws[..|ws| - 1], ws[|ws| - 1];
      IntermittentMentions(front, sim, status, name);
      CopiesMention(IntermittentBundle(front, sim, status), last, sim, status, name);
      assert front + [last] == ws;
      MentionsSnoc(front, last, name);
    }
  }

  lemma NothingMentioned(name: string)
    ensures !Mentions([], name) && !Stateless([])
  {
  }

  /** Registering a bundle: names it mentions that were unknown are Started, owned by the
      simulation; known ones keep state and owner. */
  lemma {:induction false} RegisteredStates(st: Store, sim: string, ws: seq<WireMapping>, name: string)
    ensures var after := EnsureAll(st, sim, FromWires(ws)).states;
      && (name in after <==> name in st.states || Mentions(ws, name))
      && (name in st.states ==> after[name] == st.states[name])
      && (name in after && name !in st.states ==> after[name] == Ownership(sim, STARTED_STATE))
    decreases |ws|
  {
    hide Mentions;
    if ws == [] {
      NothingMentioned(name);
    } else {
      var front, last := ws[..|ws| - 1], ws[|ws| - 1];
      RegisteredStates(st, sim, front, name);
      assert front + [last] == ws;
      MentionsSnoc(front, last, name);
      SnocWires(front, last);
      hide FromWires;
      assert (FromWires(front) + [FromWire(last)])[..|front|] == FromWires(front);
    }
  }

  lemma DeployedStates(st: Store, sim: string, ws: seq<WireMapping>, name: string)
    ensures var after := Deploy(st, sim, FromWires(ws), false);
      && Bundle(after, sim, ws)
      && (name in after.states <==> name in st.states || Mentions(ws, name))
      && (name in st.states ==> after.states[name] == st.states[name])
      && (name in after.states && name !in st.states ==> after.states[name] == Ownership(sim, STARTED_STATE))
  {
    hide Mentions;
    RegisteredStates(ReplaceMappings(st, sim, FromWires(ws)), sim, ws, name);
    EnsureAllKeepsMappings(ReplaceMappings(st, sim, FromWires(ws)), sim, FromWires(ws));
    hide FromWires;
  }

  lemma {:induction false} EnsureAllKeepsMappings(st: Store, sim: string, mappings: seq<RuntimeMapping>)
    ensures EnsureAll(st, sim, mappings).mappings == st.mappings
    decreases |mappings|
  {
    if mappings != [] {
      EnsureAllKeepsMappings(st, sim, mappings[..|mappings| - 1]);
    }
  }

  /** Deploying a bundle and its intermittent form to the same store, whatever was there,
      starts them alike: in the degraded phase exactly when an earlier one was left so. */
  lemma DeployStartsAlike(st: Store, sim: string, ws: seq<WireMapping>, status: int)
    requires OwnsNothing(ws, IntermittentName(sim))
    requires IntermittentName(sim) in st.states ==>
      st.states[IntermittentName(sim)].state == STARTED_STATE || st.states[IntermittentName(sim)].state == DEGRADED
    ensures var base := Deploy(st, sim, FromWires(ws), false);
      var phased := Deploy(st, sim, FromWires(IntermittentBundle(ws, sim, status)), false);
      && Bundle(base, sim, ws) && Bundle(phased, sim, IntermittentBundle(ws, sim, status))
      && SameScenarios(base.states, phased.states, sim, LeftDegraded(st, sim))
      && HasPhase(phased.states, sim, ws)
  {
    hide Deploy, Bundle, Mentions, OwnsNothing, IntermittentBundle;
    var copies := IntermittentBundle(ws, sim, status);
    var base, phased := Deploy(st, sim, FromWires(ws), false), Deploy(st, sim, FromWires(copies), false);
    var phase := IntermittentName(sim);
    DeployedStates(st, sim, copies, phase);
    DeployedStates(st, sim, ws, phase);
    IntermittentMentions(ws, sim, status, phase);
    forall name | name != phase ensures Alike(base.states, phased.states, name) {
      DeployedStates(st, sim, ws, name);
      DeployedStates(st, sim, copies, name);
      IntermittentMentions(ws, sim, status, name);
    }
  }

  predicate LeftDegraded(st: Store, sim: string) {
    IntermittentName(sim) in st.states && st.states[IntermittentName(sim)].state == DEGRADED
  }

  /** A reset of the simulation that owns the phase starts it again. */
  lemma ResetStartsPhase(base: Store, phased: Store, sim: string, degraded: bool)
    requires SameScenarios(base.states, phased.states, sim, degraded)
    requires IntermittentName(sim) in phased.states ==> phased.states[IntermittentName(sim)].simulation == sim
    ensures SameScenarios(ResetRuntime(base, Some(sim)).states, ResetRuntime(phased, Some(sim)).states, sim, false)
  {
    var a, b := ResetRuntime(base, Some(sim)).states, ResetRuntime(phased, Some(sim)).states;
    forall name | name != IntermittentName(sim) ensures Alike(a, b, name) {
      assert Alike(base.states, phased.states, name);
    }
  }
}
