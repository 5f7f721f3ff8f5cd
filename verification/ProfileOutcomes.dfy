/** What a caller who names a profile gets: the answers of every trace, with their status,
    body and headers, and the marks left on the mappings. */
module ProfileOutcomes {
  import opened Wrappers
  import opened Json
  import opened RuntimeModel
  import opened RuntimeStore
  import opened RuntimeSemantics
  import opened Translation
  import opened CompilerCorrectness
  import opened Profiles
  import opened ProfileRefinement

  /** The answer of a dependency made to fail on purpose. */
  ghost predicate FailsOnPurpose(response: Response, status: int, profile: string, retryAfter: string, code: string,
                                 message: string) {
    && response.status == status
    && response.headers
         == map["Content-Type" := "application/json", "Retry-After" := retryAfter, "X-SimuLoom-Profile" := profile]
    && response.body
         == Object(map["code" := Json.Text(code), "message" := Json.Text(message), "synthetic" := Bool(true)])
  }

  ghost predicate IsUnavailable(response: Response, status: int) {
    FailsOnPurpose(response, status, "unavailable", "5", "SIMULATED_DEPENDENCY_UNAVAILABLE",
      "SimuLoom intentionally made this dependency unavailable")
  }

  ghost predicate IsIntermittent(response: Response, status: int) {
    FailsOnPurpose(response, status, "intermittent", "1", "SIMULATED_INTERMITTENT_FAILURE",
      "This deterministic failure alternates with the normal response")
  }

  lemma FailureReplies(status: int)
    ensures IsUnavailable(FailureReply(UnavailableResponse(status)), status)
    ensures IsIntermittent(FailureReply(IntermittentResponse(status)), status)
  {
  }

  /** Exactly four profiles are supported. */
  lemma SupportedIff(ws: seq<WireMapping>, profile: string, sim: string, delay: int, status: int)
    ensures Applied(ws, profile, sim, delay, status).Some?
      <==> profile == "normal" || profile == "slow" || profile == "unavailable" || profile == "intermittent"
    ensures profile == "normal" ==> Applied(ws, profile, sim, delay, status) == Some(ws)
  {
  }

  /** A run of a bundle from a store, and one of the bundle a profile makes of it. */
  ghost predicate Profiled(base: Store, changed: Store, sim: string, ws: seq<WireMapping>, profile: string,
                           delay: int, status: int) {
    var applied := Applied(ws, profile, sim, delay, status);
    applied.Some? && Bundle(base, sim, ws) && Bundle(changed, sim, applied.value)
  }

  /** Under "slow" every trace gives the same answers and states; each mapping waits. */
  lemma SlowOutcome(re: FullMatch, limit: nat, base: Store, slow: Store, sim: string, ws: seq<WireMapping>, delay: int,
                    status: int, reqs: seq<Request>)
    requires Profiled(base, slow, sim, ws, "slow", delay, status) && base.states == slow.states
    ensures var x, y := RunRuntime(re, limit, base, sim, reqs), RunRuntime(re, limit, slow, sim, reqs);
      && (x.Some? <==> y.Some?)
      && (x.Some? ==> x.value.0.states == y.value.0.states && x.value.1 == y.value.1)
    ensures |MappingsOf(slow, sim)| == |ws|
    ensures forall m | m in MappingsOf(slow, sim) :: m.response.delayMs == delay
  {
    hide RunRuntime, FromWires;
    SlowRefines(re, limit, base, slow, sim, ws, delay, reqs);
    SlowKeepsRoutes(ws, delay);
    assert |FromWires(SlowBundle(ws, delay))| == |ws| by { FromWiresSize(SlowBundle(ws, delay)); }
  }

  lemma FromWiresSize(ws: seq<WireMapping>)
    ensures |FromWires(ws)| == |ws|
  {
  }

  /** Under "unavailable" the same requests match and the states move alike, every match
      is answered with the failure of the given status, and every other request with 404. */
  lemma UnavailableOutcome(re: FullMatch, limit: nat, base: Store, down: Store, sim: string, ws: seq<WireMapping>,
                           delay: int, status: int, reqs: seq<Request>)
    requires Profiled(base, down, sim, ws, "unavailable", delay, status) && base.states == down.states
    ensures var x, y := RunRuntime(re, limit, base, sim, reqs), RunRuntime(re, limit, down, sim, reqs);
      && (x.Some? <==> y.Some?)
      && (x.Some? ==>
            && x.value.0.states == y.value.0.states && |x.value.1| == |y.value.1| == |reqs|
            && var matched := Matched(re, limit, base, sim, reqs);
               forall i | 0 <= i < |reqs| ::
                 if matched[i] then IsUnavailable(y.value.1[i], status)
                 else y.value.1[i].status == 404 && x.value.1[i] == y.value.1[i])
  {
    hide RunRuntime, FromWires, IsUnavailable, UnavailableBundle, UnavailableResponse;
    FailureReplies(status);
    UnavailableRefines(re, limit, base, down, sim, ws, status, reqs);
  }

  /** Under "intermittent" the states move as in the base run, and the hits without a
      scenario alternate between the base answer and the failure of the given status. */
  lemma IntermittentOutcome(re: FullMatch, limit: nat, base: Store, phased: Store, sim: string, ws: seq<WireMapping>,
                            delay: int, status: int, degraded: bool, reqs: seq<Request>)
    requires Profiled(base, phased, sim, ws, "intermittent", delay, status)
    requires OwnsNothing(ws, IntermittentName(sim)) && SameScenarios(base.states, phased.states, sim, degraded)
    requires HasPhase(phased.states, sim, ws)
    ensures var x, y := RunRuntime(re, limit, base, sim, reqs), RunRuntime(re, limit, phased, sim, reqs);
      && (x.Some? <==> y.Some?)
      && (x.Some? ==>
            && |x.value.1| == |y.value.1| == |reqs|
            && var hits := Hits(re, limit, base, sim, reqs);
               && SameScenarios(x.value.0.states, y.value.0.states, sim, DegradedAt(degraded, hits, |reqs|))
               && forall i | 0 <= i < |reqs| ::
                    if hits[i] && DegradedAt(degraded, hits, i) then IsIntermittent(y.value.1[i], status)
                    else y.value.1[i] == x.value.1[i])
  {
    hide RunRuntime, FromWires, IsIntermittent, IntermittentBundle, IntermittentResponse, SameScenarios, HasPhase,
      OwnsNothing, DegradedAt;
    FailureReplies(status);
    IntermittentRefines(re, limit, base, phased, sim, ws, status, degraded, reqs);
  }

  /** The mark of the profile, beside the metadata that were there. */
  ghost predicate Marked(before: WireMapping, after: WireMapping, profile: string) {
    && "simuloomProfile" in after.metadata && after.metadata["simuloomProfile"] == Json.Text(profile)
    && forall k | k in before.metadata && k != "simuloomProfile" ::
         k in after.metadata && after.metadata[k] == before.metadata[k]
  }

  /** Every mapping a profile rewrites is marked, and keeps its priority and request. */
  lemma RewrittenAreMarked(ws: seq<WireMapping>, profile: string, sim: string, delay: int, status: int, w: WireMapping)
    requires profile == "slow" || profile == "unavailable"
    requires var applied := Applied(ws, profile, sim, delay, status); applied.Some? && w in applied.value
    ensures exists i :: 0 <= i < |ws| && Rewritten(ws[i], w, profile)
  {
    var i :| 0 <= i < |ws| && Applied(ws, profile, sim, delay, status).value[i] == w;
    assert Rewritten(ws[i], w, profile);
  }

  ghost predicate Rewritten(before: WireMapping, after: WireMapping, profile: string) {
    && Marked(before, after, profile) && after.name == before.name && after.priority == before.priority
    && after.request == before.request
  }

  /** The intermittent bundle: mappings with a scenario as they were, two marked copies of
      each of the others, one per phase. */
  lemma {:induction false} CopiesAreMarked(ws: seq<WireMapping>, sim: string, status: int, w: WireMapping)
    requires w in IntermittentBundle(ws, sim, status)
    ensures exists i :: 0 <= i < |ws| && IsCopy(ws[i], w, sim)
    decreases |ws|
  {
    hide IsCopy, Copies;
    var front, last := ws[..|ws| - 1], ws[|ws| - 1];
    if w in Copies(last, sim, status) {
      CopyIs(last, sim, status, w);
    } else {
      CopiesAreMarked(front, sim, status, w);
      var i :| 0 <= i < |front| && IsCopy(front[i], w, sim);
      assert IsCopy(ws[i], w, sim);
    }
  }

  lemma CopyIs(before: WireMapping, sim: string, status: int, w: WireMapping)
    requires w in Copies(before, sim, status)
    ensures IsCopy(before, w, sim)
  {
  }

  ghost predicate IsCopy(before: WireMapping, after: WireMapping, sim: string) {
    if before.scenarioName.Some? then after == before
    else
      && Marked(before, after, "intermittent") && after.priority == before.priority && after.request == before.request
      && after.scenarioName == Some("SimuLoom intermittent - " + sim)
      && ((after.requiredScenarioState == Some("Started") && after.newScenarioState == Some("DEGRADED")
           && after.name == before.name && after.response == before.response)
          || (after.requiredScenarioState == Some("DEGRADED") && after.newScenarioState == Some("Started")
              && after.name == Some(before.name.GetOr("SimuLoom mapping") + " - intermittent failure")))
  }
}
