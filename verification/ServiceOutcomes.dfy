/** What each operation of the service answers and records: who is refused and why, and
    every field of what is kept. */
module ServiceOutcomes {
  import opened Wrappers
  import opened RuntimeModel
  import opened Scenario
  import opened Clock
  import opened Revisions
  import opened RevisionRuns
  import opened RevisionNumbers
  import opened Governance
  import opened GovernanceInvariant
  import opened ReleasePolicy
  import Comparison

  // ------------------------------------------------------------------- configuration

  /** The ETag given, if any, is that of what is stored. */
  ghost predicate IfMatch(env: Env, w: World, id: string, expected: Option<string>) {
    expected.Some? ==> id in w.files.scenarios && env.etag(w.files.scenarios[id]) == expected.value
  }

  /** Adopting what is stored takes two writes, publishing takes three. */
  ghost function Needed(env: Env, w: World, id: string, d: Definition, expected: Option<string>): nat {
    var stored := id in w.files.scenarios;
    (if stored && !UpToDate(env.etag, w.files, id) then 2 else 0)
    + if IfMatch(env, w, id, expected) && !(stored && env.etag(w.files.scenarios[id]) == env.etag(d)) then 3 else 0
  }

  lemma SaveTakes(env: Env, w: World, id: string, d: Definition, actor: string, expected: Option<string>)
    requires Consistent(env.etag, w.files, true)
    ensures |SaveWrites(env.etag, w.files, id, d, actor, expected)| == Needed(env, w, id, d, expected)
  {
    hide Consistent;
    if id in w.files.scenarios {
      CurrentDone(env.etag, w.files, true, id);
    }
  }

  lemma SaveOutcomeIs(env: Env, w: World, id: string, d: Definition, actor: string, expected: Option<string>)
    requires Consistent(env.etag, w.files, true)
    ensures SaveOutcome(env.etag, w.files, id, d, actor, expected).Saved? <==> IfMatch(env, w, id, expected)
    ensures var after := ApplyAll(w.files, SaveWrites(env.etag, w.files, id, d, actor, expected));
      if IfMatch(env, w, id, expected) then Configures(env, w, id, d, actor, after)
      else after == Found(env.etag, w.files, id)
  {
    SaveAdds(env.etag, w.files, true, id, d, actor, expected);
    hide Consistent, Found, Adds, SaveWrites, SaveOutcome;
  }

  /** A definition is saved exactly when it is well formed, fits the contract and meets the
      expected ETag, by a process that survives the writes it needs. */
  lemma ConfigurationOutcome(env: Env, w: World, id: string, d: Definition, actor: string, expected: Option<string>,
                             budget: nat)
    requires Governed(env, w)
    ensures var (after, outcome) := Configured(env, w, id, d, actor, expected, budget);
      && outcome == (if !WellFormed(d) then Refused(InvalidDefinition)
                     else if !env.fits(d) then Refused(ContractMismatch)
                     else if budget < Needed(env, w, id, d, expected) then Refused(Interrupted)
                     else if !IfMatch(env, w, id, expected) then Refused(EditConflict)
                     else Completed)
      && after == w.(files := after.files)
      && (!WellFormed(d) || !env.fits(d) ==> after == w)
      && (outcome == Refused(EditConflict) ==> after.files == Found(env.etag, w.files, id))
      && (outcome == Completed ==> Configures(env, w, id, d, actor, after.files))
  {
    GovernedFiles(env, w);
    SaveOutcomeIs(env, w, id, d, actor, expected);
    SaveTakes(env, w, id, d, actor, expected);
    hide WellFormed, Governed, Found, Consistent, Validated, Configures, IfMatch, Needed,
      SaveWrites, SaveOutcome, ApplyAll;
  }

  /** The definition is stored, and if it was not already, as the next revision. */
  ghost predicate Configures(env: Env, w: World, id: string, d: Definition, actor: string,
                             after: Files<Definition>) {
    var found := Found(env.etag, w.files, id);
    if id in w.files.scenarios && env.etag(w.files.scenarios[id]) == env.etag(d) then after == found
    else
      && after.scenarios == w.files.scenarios[id := d]
      && Adds(found, after, id, Metadata(Head(found, id) + 1, env.etag(d), actor), d)
  }

  // ------------------------------------------------------------------------- reviews

  lemma ReviewRefusals(env: Env, w: World, id: string, revision: nat, actor: string)
    requires Governed(env, w)
    ensures var (after, outcome) := Requested(env, w, id, revision, actor);
      outcome == (if id !in w.files.scenarios then Refused(UnknownScenario)
                  else if (id, revision) !in after.files.history then Refused(UnknownRevision)
                  else if AwaitsDecision(ReviewsOf(w, id), revision) then Refused(PendingReview)
                  else Completed)
  {
    if id in w.files.scenarios {
      ReviewJoins(env, w, id, revision, actor);
      SeenSpares(env, w, id);
    }
    hide Governed, Perform;
  }

  /** A review can be decided once; the decision and who took it are all it changes. */
  lemma DecisionRecorded(env: Env, w: World, id: string, number: nat, approved: bool, actor: string)
    ensures var (after, outcome) := Decided(env, w, id, number, approved, actor);
      var reviews := ReviewsOf(w, id);
      && outcome == (if id !in w.files.scenarios then Refused(UnknownScenario)
                     else if !(1 <= number <= |reviews|) then Refused(UnknownReview)
                     else if reviews[number - 1].status != Pending then Refused(AlreadyDecided)
                     else Completed)
      && (outcome != Completed ==> after.reviews == w.reviews)
      && (outcome == Completed ==>
            var r := reviews[number - 1];
            after.reviews == w.reviews[id := reviews[number - 1 :=
              Review(r.number, r.revision, r.etag, if approved then Approved else Rejected, r.requestedBy,
                Some(actor))]])
  {
    hide Perform;
  }

  // ----------------------------------------------------------------------- releases

  /** Why a deployment is refused: the first of these that applies. */
  lemma DeploymentRefused(env: Env, w: World, id: string, actor: string, revision: nat)
    requires Governed(env, w)
    ensures var (after, outcome) := DeployedScenario(env, w, id, actor, revision, None);
      if id !in w.files.scenarios then outcome == Refused(UnknownScenario) && after == w
      else
        var seen := Seen(env, w, id);
        var n := if revision == 0 then Head(seen.files, id) else revision;
        if (id, n) !in seen.files.history then outcome == Refused(UnknownRevision) && after == seen
        else
          var d := seen.files.history[(id, n)].definition;
          if w.policy.blockBreakingChanges && n > 1
            && !((id, n - 1) in seen.files.history
                 && Comparison.Extends(seen.files.history[(id, n - 1)].definition, d))
          then outcome == Refused(BreakingChanges) && after == seen
          else if w.policy.requireApproval && !ApprovedFor(ReviewsOf(w, id), n, env.etag(d))
          then outcome == Refused(NotApproved) && after == seen
          else if !env.fits(d) then outcome == Refused(ContractMismatch) && after == seen
          else outcome.Deployed?
  {
    hide Governed, Keeps, Seen, Leftover, Consistent, Comparison.Extends, Comparison.Changes, WellFormed;
    var seen := Seen(env, w, id);
    var n := Chosen(seen, id, revision);
    SeenSpares(env, w, id);
    if id in w.files.scenarios {
      SeenStep(env, w, id);
      GovernedFiles(env, seen);
    }
    if id in w.files.scenarios && (id, n) in seen.files.history {
      StoredPinned(env, seen.files, id, n);
      StoredEtag(env, seen.files, id, n);
      ApprovedIff(ReviewsOf(w, id), n, env.etag(seen.files.history[(id, n)].definition));
      if n > 1 {
        PreviousStored(env, seen.files, id, n);
        Comparison.NonBreakingIff(seen.files.history[(id, n - 1)].definition, seen.files.history[(id, n)].definition);
      }
    }
    hide HasApproval, ApprovedFor;
  }

  lemma ApprovedIff(reviews: seq<Review>, revision: nat, etag: string)
    ensures HasApproval(reviews, revision, etag) <==> ApprovedFor(reviews, revision, etag)
  {
  }

  ghost predicate ApprovedFor(reviews: seq<Review>, revision: nat, etag: string) {
    exists i: nat | i < |reviews| ::
      reviews[i].revision == revision && reviews[i].etag == etag && reviews[i].status == Approved
  }

  /** What a successful deployment or rollback records. */
  lemma ReleaseRecorded(env: Env, w: World, id: string, actor: string, revision: nat, source: Option<nat>)
    requires Governed(env, w) && DeployedScenario(env, w, id, actor, revision, source).1.Deployed?
    ensures var (after, outcome) := DeployedScenario(env, w, id, actor, revision, source);
      var release := outcome.release;
      && (id, release.revision) in after.files.history
      && var d := after.files.history[(id, release.revision)].definition;
         && release == Release(|ReleasesOf(w, id)| + 1, release.revision, env.etag(d), env.fingerprint(id, d),
              HandlerTotal(d.states), actor, source)
         && after.reviews == w.reviews && after.clocks == w.clocks && after.policy == w.policy
  {
    hide Governed, Keeps, Seen, Leftover, Consistent, Validated, Blocked, HandlerTotal;
    var seen := Seen(env, w, id);
    SeenStep(env, w, id);
    SeenSpares(env, w, id);
    GovernedFiles(env, seen);
    StoredPinned(env, seen.files, id, Chosen(seen, id, revision));
    StoredEtag(env, seen.files, id, Chosen(seen, id, revision));
  }

  // ----------------------------------------------------------------- running scenarios

  /** Resets, the clock and rollbacks refuse what they do not know, and change nothing but
      what reading the scenario adopts. */
  lemma UnknownRefused(env: Env, w: World, id: string, number: nat, ms: nat, actor: string)
    ensures id !in w.files.scenarios ==>
      && ResetTo(env, w, id) == (w, Refused(UnknownScenario))
      && ClockAdvanced(env, w, id, ms) == (w, Refused(UnknownScenario))
      && RolledBack(env, w, id, number, actor) == (w, Refused(UnknownScenario))
    ensures id in w.files.scenarios && id !in w.running ==>
      && ResetTo(env, w, id) == (Seen(env, w, id), Refused(NotDeployed))
      && ClockAdvanced(env, w, id, ms) == (Seen(env, w, id), Refused(NotDeployed))
    ensures id in w.files.scenarios && !(1 <= number <= |ReleasesOf(w, id)|) ==>
      RolledBack(env, w, id, number, actor) == (Seen(env, w, id), Refused(UnknownRelease))
  {
    hide Perform;
  }

  /** An event passes over a scenario that is not stored or not deployed. */
  lemma EventPassesOver(env: Env, w: World, id: string, topic: string)
    requires id !in w.files.scenarios || id !in w.running
    ensures var (after, outcome) := EventSeen(env, w, id, topic);
      outcome == Completed && after.running == w.running && after.clocks == w.clocks
  {
    hide Perform;
  }

  /** A scenario that was deployed before any release was recorded is governed by what is
      stored: that is the definition resets and the clock look into. */
  lemma UnreleasedGoverned(env: Env, w: World, id: string, ms: nat)
    requires id in w.files.scenarios && id in w.running && ReleasesOf(w, id) == []
    ensures var (d, running) := (w.files.scenarios[id], w.running[id]);
      var (after, outcome) := ResetTo(env, w, id);
      && outcome == Completed
      && after.running == w.running[id :=
           Running(running.definition, if d.reset.Some? then d.reset.value else d.initialState)]
      && var counted := if id in w.clocks && w.clocks[id].state == running.state then w.clocks[id].elapsed else 0;
         ClockAdvanced(env, w, id, ms).1 == ClockMoved(Clock.Advanced(d, running.state, counted + ms))
  {
    hide Clock.Advanced;
    SeenSpares(env, w, id);
    LookSpares(env.etag, w.files, id);
    assert Seen(env, w, id).files.scenarios == w.files.scenarios;
    ResetTarget(w.files.scenarios[id]);
    hide Seen;
  }

  lemma LookSpares<D(!new)>(etag: D -> string, files: Files<D>, id: string)
    requires id in files.scenarios
    ensures Perform(etag, files, Look(id, 2)).scenarios == files.scenarios
  {
    LookAdopts(etag, files, id, 2);
  }
}
