/** What the release policy guarantees: approvals throughout a run, when a deployment or
    a rollback succeeds, and which walks a new release keeps. */
module ReleasePolicy {
  import opened Wrappers
  import opened RuntimeModel
  import opened Scenario
  import opened Clock
  import opened Revisions
  import opened RevisionRuns
  import opened Governance
  import opened GovernanceInvariant
  import opened GovernanceRuns
  import opened Sorting
  import Comparison
  import Planner
  import Evolution

  // ------------------------------------------------------------------------ approvals

  ghost predicate ReleasesApproved(w: World, id: string) {
    forall r | r in ReleasesOf(w, id) :: HasApproval(ReviewsOf(w, id), r.revision, r.etag)
  }

  lemma ApprovalLasts(before: seq<Review>, after: seq<Review>, revision: nat, etag: string)
    requires ReviewsFollow(before, after) && HasApproval(before, revision, etag)
    ensures HasApproval(after, revision, etag)
  {
    var i :| 0 <= i < |before| && before[i].revision == revision && before[i].etag == etag
      && before[i].status == Approved;
    assert ReviewFollows(before[i], after[i]);
    assert after[i] in after;
  }

  ghost predicate AwaitsDecision(reviews: seq<Review>, revision: nat) {
    exists i: nat | i < |reviews| :: reviews[i].revision == revision && reviews[i].status == Pending
  }

  /** A review can be asked for exactly when the revision is stored and no review of it is
      pending. It joins the list as the next pending one, pinned to what is stored under
      that revision, and approves nothing yet. */
  lemma ReviewJoins(env: Env, w: World, id: string, revision: nat, actor: string)
    requires Governed(env, w) && id in w.files.scenarios
    ensures var (after, outcome) := Requested(env, w, id, revision, actor);
      var reviews, key := ReviewsOf(w, id), (id, revision);
      && (outcome == Completed <==> key in after.files.history && !AwaitsDecision(reviews, revision))
      && (outcome != Completed ==> after.reviews == w.reviews)
      && (outcome == Completed ==>
            after.reviews == w.reviews[id := reviews + [Review(|reviews| + 1, revision,
              env.etag(after.files.history[key].definition), Pending, actor, None)]])
      && forall n, etag :: HasApproval(ReviewsOf(after, id), n, etag) <==> HasApproval(reviews, n, etag)
  {
    hide Governed, Keeps, Seen, Leftover, Consistent, Validated;
    var seen := Seen(env, w, id);
    SeenStep(env, w, id);
    SeenSpares(env, w, id);
    GovernedFiles(env, seen);
    if (id, revision) in seen.files.history {
      StoredPinned(env, seen.files, id, revision);
      StoredEtag(env, seen.files, id, revision);
    }
  }

  /** A decision counts exactly when the review is pending, and changes the approvals by
      exactly the approved content, or not at all. */
  lemma DecisionApproves(env: Env, w: World, id: string, number: nat, approved: bool, actor: string, revision: nat,
                         etag: string)
    requires id in w.files.scenarios
    ensures var (after, outcome) := Decided(env, w, id, number, approved, actor);
      var reviews := ReviewsOf(w, id);
      && (outcome == Completed <==> 1 <= number <= |reviews| && reviews[number - 1].status == Pending)
      && (HasApproval(ReviewsOf(after, id), revision, etag) <==>
            || HasApproval(reviews, revision, etag)
            || (outcome == Completed && approved
                && reviews[number - 1].revision == revision && reviews[number - 1].etag == etag))
  {
    hide Perform;
    var reviews := ReviewsOf(w, id);
    if 1 <= number <= |reviews| && reviews[number - 1].status == Pending {
      var decided := reviews[number - 1].(status := if approved then Approved else Rejected, decidedBy := Some(actor));
      ReplacedMembers(reviews, number - 1, decided);
    }
  }

  lemma ReplacedMembers(reviews: seq<Review>, k: nat, review: Review)
    requires k < |reviews|
    ensures forall r :: r in reviews[k := review] ==> r == review || r in reviews
    ensures review in reviews[k := review]
    ensures forall r :: r in reviews && r != reviews[k] ==> r in reviews[k := review]
  {
    var changed := reviews[k := review];
    assert changed[k] == review;
    forall r | r in reviews && r != reviews[k] ensures r in changed {
      var i :| 0 <= i < |reviews| && reviews[i] == r;
      assert changed[i] == r;
    }
  }

  /** A command appends at most one release: approved, or a rollback, when approval is
      required. */
  ghost predicate AtMostOne(before: World, after: World, id: string) {
    var releases := ReleasesOf(before, id);
    || ReleasesOf(after, id) == releases
    || (|ReleasesOf(after, id)| == |releases| + 1
        && releases <= ReleasesOf(after, id)
        && var r := ReleasesOf(after, id)[|releases|];
           r.source.Some? || (before.policy.requireApproval ==> HasApproval(ReviewsOf(before, id), r.revision, r.etag)))
  }

  lemma DeployAtMostOne(env: Env, w: World, id: string, actor: string, revision: nat, source: Option<nat>,
                        other: string)
    ensures AtMostOne(w, DeployedScenario(env, w, id, actor, revision, source).0, other)
  {
    hide Perform, HasApproval, Chosen;
    var seen := Seen(env, w, id);
    if id in w.files.scenarios && (id, Chosen(seen, id, revision)) in seen.files.history {
      NextReleaseFields(env, seen, id, seen.files.history[(id, Chosen(seen, id, revision))], actor, source);
    }
  }

  lemma {:induction false} PublishSpares(env: Env, w: World, ids: seq<string>, topic: string)
    ensures Published(env, w, ids, topic).0.releases == w.releases
    decreases |ids|
  {
    hide Perform, Governing, EventTarget;
    if ids != [] {
      PublishSpares(env, w, ids[..|ids| - 1], topic);
    }
  }

  lemma {:induction false} ResetEachSpares(env: Env, w: World, ids: seq<string>)
    ensures ResetEach(env, w, ids).releases == w.releases && ResetEach(env, w, ids).policy == w.policy
    decreases |ids|
  {
    hide Perform, Governing, ResetState;
    if ids != [] {
      ResetEachSpares(env, w, ids[..|ids| - 1]);
    }
  }

  lemma ExecuteAtMostOne(env: Env, w: World, c: Command, other: string)
    ensures AtMostOne(w, Execute(env, w, c), other)
  {
    hide AtMostOne, DeployedScenario, RolledBack, Published, ResetEach, SortedTexts, Configured, Requested, Decided,
      ResetTo, ClockAdvanced, Requesting, Perform;
    match c
    case DeployScenario(id, actor, revision) => DeployAtMostOne(env, w, id, actor, revision, None, other);
    case Rollback(id, number, actor) => RollbackAtMostOne(env, w, id, number, actor, other);
    case PublishEvent(ids, topic) =>
      PublishSpares(env, w, ids, topic);
      SameReleases(w, Execute(env, w, c), other);
    case ResetAllScenarios =>
      ResetEachSpares(env, Restarted(w), SortedTexts(w.files.scenarios.Keys));
      SameReleases(w, Execute(env, w, c), other);
    case _ =>
      OthersSpare(env, w, c);
      SameReleases(w, Execute(env, w, c), other);
  }

  lemma SameReleases(before: World, after: World, id: string)
    requires after.releases == before.releases
    ensures AtMostOne(before, after, id)
  {
  }

  lemma RollbackAtMostOne(env: Env, w: World, id: string, number: nat, actor: string, other: string)
    ensures AtMostOne(w, RolledBack(env, w, id, number, actor).0, other)
  {
    hide Perform, HasApproval, DeployedScenario;
    if id in w.files.scenarios && 1 <= number <= |ReleasesOf(w, id)| {
      DeployAtMostOne(env, Seen(env, w, id), id, actor, ReleasesOf(w, id)[number - 1].revision, Some(number), other);
    }
  }

  /** Only deployments and rollbacks write releases. */
  lemma OthersSpare(env: Env, w: World, c: Command)
    requires !c.DeployScenario? && !c.Rollback? && !c.PublishEvent? && !c.ResetAllScenarios?
    ensures Execute(env, w, c).releases == w.releases
  {
    hide Perform, Configured, Requested, Decided, ResetTo, ClockAdvanced, Requesting;
    match c
    case Configure(id, d, actor, expected, budget) => ConfiguringSpares(env, w, id, d, actor, expected, budget);
    case RequestReview(id, revision, actor) => RequestingSpares(env, w, id, revision, actor);
    case DecideReview(id, number, approved, actor) => DecidingSpares(env, w, id, number, approved, actor);
    case ResetScenario(id) => ResettingSpares(env, w, id);
    case AdvanceClock(id, ms) => AdvancingSpares(env, w, id, ms);
    case Call(id, request) => RequestSpares(w, id, request);
    case View(_, _) =>
    case UpdatePolicy(_) =>
  }

  lemma ConfiguringSpares(env: Env, w: World, id: string, d: Definition, actor: string, expected: Option<string>,
                          budget: nat)
    ensures Configured(env, w, id, d, actor, expected, budget).0.releases == w.releases
  {
    hide Perform, SaveWrites, SaveOutcome, WellFormed;
  }

  lemma RequestingSpares(env: Env, w: World, id: string, revision: nat, actor: string)
    ensures Requested(env, w, id, revision, actor).0.releases == w.releases
  {
    hide Perform;
  }

  lemma DecidingSpares(env: Env, w: World, id: string, number: nat, approved: bool, actor: string)
    ensures Decided(env, w, id, number, approved, actor).0.releases == w.releases
  {
    hide Perform;
  }

  lemma ResettingSpares(env: Env, w: World, id: string)
    ensures ResetTo(env, w, id).0.releases == w.releases
  {
    hide Perform, Governing, ResetState;
  }

  lemma AdvancingSpares(env: Env, w: World, id: string, ms: nat)
    ensures ClockAdvanced(env, w, id, ms).0.releases == w.releases
  {
    hide Perform, Governing, Clock.Advanced;
  }

  lemma RequestSpares(w: World, id: string, req: Request)
    ensures Requesting(w, id, req).releases == w.releases
  {
    hide Step;
  }

  lemma ExecuteApproved(env: Env, w: World, c: Command, id: string)
    requires Governed(env, w) && w.policy.requireApproval && ReleasesApproved(w, id)
    ensures ReleasesApproved(Execute(env, w, c), id)
  {
    hide Execute, Governed, Keeps, HasApproval, ReviewsFollow, Pinned;
    var after := Execute(env, w, c);
    ExecuteAtMostOne(env, w, c, id);
    ExecuteFollows(env, w, c);
    assert ScenarioFollows(w, after, id);
    ExecuteStep(env, w, c);
    ReviewsOfGoverned(env, after, id);
    var releases := ReleasesOf(w, id);
    forall r | r in ReleasesOf(after, id) ensures HasApproval(ReviewsOf(after, id), r.revision, r.etag) {
      var i: nat :| i < |ReleasesOf(after, id)| && ReleasesOf(after, id)[i] == r;
      if i < |releases| {
        assert releases[i] == r && r in releases;
        ApprovalLasts(ReviewsOf(w, id), ReviewsOf(after, id), r.revision, r.etag);
      } else if r.source.Some? {
        assert ReleaseSound(env, after.files, id, ReleasesOf(after, id), i);
        var origin := ReleasesOf(after, id)[r.source.value - 1];
        assert origin == releases[r.source.value - 1] && origin in releases;
        ApprovalLasts(ReviewsOf(w, id), ReviewsOf(after, id), r.revision, r.etag);
      } else {
        ApprovalLasts(ReviewsOf(w, id), ReviewsOf(after, id), r.revision, r.etag);
      }
    }
  }

  predicate StaysRequired(commands: seq<Command>) {
    forall i | 0 <= i < |commands| && commands[i].UpdatePolicy? :: commands[i].policy.requireApproval
  }

  lemma {:induction false} PublishSparesPolicy(env: Env, w: World, ids: seq<string>, topic: string)
    ensures Published(env, w, ids, topic).0.policy == w.policy
    decreases |ids|
  {
    hide Perform, Governing, EventTarget;
    if ids != [] {
      PublishSparesPolicy(env, w, ids[..|ids| - 1], topic);
    }
  }

  lemma PolicyKept(env: Env, w: World, c: Command)
    ensures Execute(env, w, c).policy == if c.UpdatePolicy? then c.policy else w.policy
  {
    hide Perform, HasApproval, Governing, Published, Step, SaveWrites, SaveOutcome, WellFormed, Clock.Advanced,
      NextRelease, Blocked, ResetEach, SortedTexts;
    if c.PublishEvent? {
      PublishSparesPolicy(env, w, c.ids, c.topic);
    }
    if c.ResetAllScenarios? {
      ResetEachSpares(env, Restarted(w), SortedTexts(w.files.scenarios.Keys));
    }
  }

  /** While approval is required, every release, rollbacks included, is of a revision
      with an approved review for exactly its ETag. */
  lemma {:induction false} RunApproved(env: Env, w: World, commands: seq<Command>)
    requires Governed(env, w) && w.policy.requireApproval && StaysRequired(commands)
    requires forall id :: ReleasesApproved(w, id)
    ensures ExecuteAll(env, w, commands).policy.requireApproval
    ensures forall id :: ReleasesApproved(ExecuteAll(env, w, commands), id)
    decreases |commands|
  {
    hide Governed, Execute, ReleasesApproved;
    if commands != [] {
      var front := commands[..|commands| - 1];
      var last := commands[|commands| - 1];
      RunApproved(env, w, front);
      RunStaysGoverned(env, w, front);
      var before := ExecuteAll(env, w, front);
      PolicyKept(env, before, last);
      forall id ensures ReleasesApproved(Execute(env, before, last), id) {
        ExecuteApproved(env, before, last, id);
      }
    }
  }

  // ------------------------------------------------------------------------ rollbacks

  ghost predicate AllRepeat(releases: seq<Release>) { forall i: nat | i < |releases| :: Repeats(releases, i) }

  /** Where the chain of rollbacks behind a release starts. */
  ghost function Origin(releases: seq<Release>, i: nat): nat
    requires i < |releases| && AllRepeat(releases)
  {
    assert Repeats(releases, i);
    if releases[i].source.Some? then Origin(releases, releases[i].source.value - 1) else i
  }

  /** Every release goes back to one that was no rollback, with the same revision, ETag
      and fingerprint. */
  lemma {:induction false} OriginRepeats(releases: seq<Release>, i: nat)
    requires i < |releases| && AllRepeat(releases)
    ensures var o := Origin(releases, i);
      o <= i && releases[o].source == None && SameContent(releases[o], releases[i])
    decreases i
  {
    assert Repeats(releases, i);
    if releases[i].source.Some? {
      OriginRepeats(releases, releases[i].source.value - 1);
    }
  }

  lemma GovernedRepeats(env: Env, w: World, id: string)
    requires Governed(env, w)
    ensures AllRepeat(ReleasesOf(w, id))
  {
    hide Repeats, Pinned;
    ReviewsOfGoverned(env, w, id);
    var releases := ReleasesOf(w, id);
    forall i: nat | i < |releases| ensures Repeats(releases, i) {
      assert ReleaseSound(env, w.files, id, releases, i);
    }
  }

  /** Over every run: behind each release stands one that was deployed, not rolled back
      to, no later, with the same revision, ETag and fingerprint. */
  lemma ReleaseOrigin(env: Env, w: World, id: string, i: nat)
    requires Governed(env, w) && i < |ReleasesOf(w, id)|
    ensures var releases := ReleasesOf(w, id);
      exists o: nat | o <= i :: releases[o].source == None && SameContent(releases[o], releases[i])
  {
    GovernedRepeats(env, w, id);
    OriginRepeats(ReleasesOf(w, id), i);
    assert SameContent(ReleasesOf(w, id)[Origin(ReleasesOf(w, id), i)], ReleasesOf(w, id)[i]);
  }

  ghost predicate SameContent(a: Release, b: Release) {
    a.revision == b.revision && a.etag == b.etag && a.fingerprint == b.fingerprint
  }

  /** Whatever the policy, rolling back to any past release succeeds, and runs the very
      definition that release named. */
  lemma RollbackSucceeds(env: Env, w: World, id: string, number: nat, actor: string)
    requires Governed(env, w) && id in w.files.scenarios && 1 <= number <= |ReleasesOf(w, id)|
    ensures var past := ReleasesOf(w, id)[number - 1];
      var (after, outcome) := RolledBack(env, w, id, number, actor);
      && outcome.Deployed? && outcome.release.revision == past.revision && outcome.release.etag == past.etag
      && outcome.release.fingerprint == past.fingerprint && outcome.release.source == Some(number)
      && (id, past.revision) in w.files.history && id in after.running
      && after.running[id].definition == w.files.history[(id, past.revision)].definition
      && after.running[id].state == after.running[id].definition.initialState
  {
    hide Governed, Keeps, Seen, Leftover, Repeats, Consistent, Validated;
    var past := ReleasesOf(w, id)[number - 1];
    var seen := Seen(env, w, id);
    var again := Seen(env, seen, id);
    SeenStep(env, w, id);
    SeenSpares(env, w, id);
    SeenStep(env, seen, id);
    SeenSpares(env, seen, id);
    ReviewsOfGoverned(env, w, id);
    assert ReleaseSound(env, w.files, id, ReleasesOf(w, id), number - 1);
    PinnedKept(w.files, seen.files, id, past.revision, past.etag);
    PinnedKept(seen.files, again.files, id, past.revision, past.etag);
    GovernedFiles(env, again);
    StoredPinned(env, again.files, id, past.revision);
  }

  // ---------------------------------------------------------------------- deployments

  lemma PreviousStored(env: Env, files: Files<Definition>, id: string, n: nat)
    requires Consistent(env.etag, files, true) && (id, n) in files.history && n > 1 && !Leftover(files, id)
    ensures (id, n - 1) in files.history
  {
    assert Sound(env.etag, files, true, id);
    assert Entry(env.etag, files, id, n - 1);
  }

  /** A deployment of the chosen revision succeeds exactly when it exists, fits the
      contract, extends its predecessor where breaking changes are blocked, and has an
      approved review for its content where approval is required. */
  lemma DeployIff(env: Env, w: World, id: string, actor: string, revision: nat)
    requires Governed(env, w) && id in w.files.scenarios
    ensures var seen := Seen(env, w, id);
      var n := Chosen(seen, id, revision);
      DeployedScenario(env, w, id, actor, revision, None).1.Deployed? <==>
        && (id, n) in seen.files.history
        && var d := seen.files.history[(id, n)].definition;
           && env.fits(d)
           && (w.policy.blockBreakingChanges && n > 1 ==>
                 (id, n - 1) in seen.files.history && Comparison.Extends(seen.files.history[(id, n - 1)].definition, d))
           && (w.policy.requireApproval ==> HasApproval(ReviewsOf(w, id), n, env.etag(d)))
  {
    hide Governed, Keeps, Seen, Leftover, Consistent, HasApproval, Comparison.Extends, Comparison.Changes,
      WellFormed;
    var seen := Seen(env, w, id);
    var n := Chosen(seen, id, revision);
    SeenStep(env, w, id);
    SeenSpares(env, w, id);
    GovernedFiles(env, seen);
    if (id, n) in seen.files.history {
      StoredPinned(env, seen.files, id, n);
      StoredEtag(env, seen.files, id, n);
      if n > 1 {
        PreviousStored(env, seen.files, id, n);
        Comparison.NonBreakingIff(seen.files.history[(id, n - 1)].definition, seen.files.history[(id, n)].definition);
      }
    }
  }

  lemma StoredEtag(env: Env, files: Files<Definition>, id: string, n: nat)
    requires Consistent(env.etag, files, true) && !Leftover(files, id) && (id, n) in files.history
    ensures files.history[(id, n)].metadata.etag == env.etag(files.history[(id, n)].definition)
  {
    assert Sound(env.etag, files, true, id);
    assert Entry(env.etag, files, id, n);
  }

  /** A deployment that succeeds runs the chosen revision from its initial state, appends
      one release for it, and touches no other scenario. */
  lemma DeploymentStarts(env: Env, w: World, id: string, actor: string, revision: nat, source: Option<nat>)
    requires Governed(env, w) && DeployedScenario(env, w, id, actor, revision, source).1.Deployed?
    ensures var (after, outcome) := DeployedScenario(env, w, id, actor, revision, source);
      var release := outcome.release;
      && (id, release.revision) in after.files.history
      && var d := after.files.history[(id, release.revision)].definition;
         && after.running == w.running[id := Running(d, d.initialState)]
         && release.etag == env.etag(d) && release.source == source
         && release.revision == (if revision == 0 then Head(after.files, id) else revision)
         && ReleasesOf(after, id) == ReleasesOf(w, id) + [release]
         && forall other | other != id :: ReleasesOf(after, other) == ReleasesOf(w, other)
  {
    hide Governed, Keeps, Seen, Leftover, Consistent, Validated, Blocked;
    var seen := Seen(env, w, id);
    SeenStep(env, w, id);
    SeenSpares(env, w, id);
    GovernedFiles(env, seen);
    StoredPinned(env, seen.files, id, Chosen(seen, id, revision));
    StoredEtag(env, seen.files, id, Chosen(seen, id, revision));
  }

  /** A successful deployment, or rollback, keeps every walk of the running definition
      exactly when the chosen revision keeps the graph that can be walked in it. */
  lemma DeploymentKeepsWalksIff(env: Env, w: World, id: string, actor: string, revision: nat, source: Option<nat>)
    requires Governed(env, w) && id in w.running && DeployedScenario(env, w, id, actor, revision, source).1.Deployed?
    ensures var after := DeployedScenario(env, w, id, actor, revision, source).0;
      var seen := Seen(env, w, id);
      && id in after.running && (id, Chosen(seen, id, revision)) in seen.files.history
      && var chosen := seen.files.history[(id, Chosen(seen, id, revision))].definition;
         after.running[id].definition == chosen
         && (Evolution.WalksKept(w.running[id].definition, after.running[id].definition)
             <==> Evolution.GraphKept(w.running[id].definition, chosen))
  {
    hide Governed, Seen, Blocked, NextRelease, Evolution.WalksKept, Evolution.GraphKept;
    DeploymentStarts(env, w, id, actor, revision, source);
    Evolution.WalksKeptIff(w.running[id].definition,
      DeployedScenario(env, w, id, actor, revision, source).0.running[id].definition);
  }

  /** With breaking changes blocked that is so for the revision after the latest release. */
  lemma NextReleaseKeepsWalks(env: Env, w: World, id: string, actor: string, revision: nat)
    requires Governed(env, w) && w.policy.blockBreakingChanges && id in w.running
    requires DeployedScenario(env, w, id, actor, revision, None).1.Deployed?
    requires var releases := ReleasesOf(w, id);
      && releases != []
      && DeployedScenario(env, w, id, actor, revision, None).1.release.revision
           == releases[|releases| - 1].revision + 1
    ensures var after := DeployedScenario(env, w, id, actor, revision, None).0;
      id in after.running && Evolution.WalksKept(w.running[id].definition, after.running[id].definition)
  {
    hide Governed, Keeps, Seen, Leftover, Consistent, Validated, HasApproval, Comparison.Extends, WellFormed,
      Evolution.WalksKept, Evolution.GraphKept, StateNames, ReleasesSound, ReviewsSound, Comparison.Changes;
    var seen := Seen(env, w, id);
    var n := Chosen(seen, id, revision);
    SeenStep(env, w, id);
    SeenSpares(env, w, id);
    GovernedFiles(env, seen);
    DeployIff(env, w, id, actor, revision);
    StoredPinned(env, seen.files, id, n);
    ReviewsOfGoverned(env, w, id);
    var latest := ReleasesOf(w, id)[|ReleasesOf(w, id)| - 1];
    LatestPinned(env, w, id);
    PinnedKept(w.files, seen.files, id, latest.revision, latest.etag);
    Evolution.ExtendsKeepsGraph(w.running[id].definition, seen.files.history[(id, n)].definition);
    DeploymentKeepsWalksIff(env, w, id, actor, revision, None);
  }

  // -------------------------------------------------------------------------- lookups

  /** On a deployed scenario the lookups behind clock and reset never fail, and a reset
      goes to the reset target of what is running, or its initial state when it has none. */
  lemma LookupsSucceed(env: Env, w: World, id: string, ms: nat)
    requires Governed(env, w) && id in w.files.scenarios && id in w.running
    ensures var (after, outcome) := ResetTo(env, w, id);
      && outcome == Completed
      && var d := w.running[id].definition;
         after.running == w.running[id := Running(d, if d.reset.Some? then d.reset.value else d.initialState)]
    ensures var outcome := ClockAdvanced(env, w, id, ms).1;
      outcome.ClockMoved? && !outcome.tick.UnknownState?
  {
    hide Governed, Keeps, Seen, Leftover, Governing, WellFormed, TimeoutWalk, ReleasesSound, ReviewsSound;
    var seen := Seen(env, w, id);
    SeenStep(env, w, id);
    SeenSpares(env, w, id);
    ReviewsOfGoverned(env, seen, id);
    ResetTarget(w.running[id].definition);
  }

  /** Where an event on a topic takes a scenario. */
  function AfterEvent(r: Running, topic: string): Running {
    match StateIndex(r.definition.states, r.state)
    case None => r
    case Some(i) => r.(state := EventTarget(r.definition.states[i].eventTransitions, topic).GetOr(r.state))
  }

  lemma EventDelivered(env: Env, w: World, id: string, topic: string)
    requires Governed(env, w) && id in w.files.scenarios
    ensures EventSeen(env, w, id, topic).0.running
      == if id in w.running then w.running[id := AfterEvent(w.running[id], topic)] else w.running
    ensures EventSeen(env, w, id, topic).0.files.scenarios == w.files.scenarios
  {
    hide Governed, Keeps, Seen, Leftover, Governing, WellFormed, ReleasesSound, ReviewsSound, EventTarget,
      StateNames;
    var seen := Seen(env, w, id);
    SeenStep(env, w, id);
    SeenSpares(env, w, id);
    ReviewsOfGoverned(env, seen, id);
    if id in w.running {
      assert w.running[id := w.running[id]] == w.running;
      DeclaredIndexed(w.running[id]);
    }
  }

  lemma DeclaredIndexed(r: Running)
    ensures r.state in StateNames(r.definition) <==> StateIndex(r.definition.states, r.state).Some?
  {
  }

  /** An event reaches each scenario once, whatever the order: every deployed one takes
      its own transition for the topic from the state it was in, no other moves. */
  lemma {:induction false} EventReachesEach(env: Env, w: World, ids: seq<string>, topic: string, id: string)
    requires Governed(env, w) && id in w.running
    requires (forall i, j | 0 <= i < j < |ids| :: ids[i] != ids[j]) && forall i | 0 <= i < |ids| ::
      ids[i] in w.files.scenarios
    ensures var after := Published(env, w, ids, topic).0;
      && after.running.Keys == w.running.Keys && after.files.scenarios == w.files.scenarios
      && after.running[id] == if id in ids then AfterEvent(w.running[id], topic) else w.running[id]
    decreases |ids|
  {
    hide Governed, EventSeen, AfterEvent;
    if ids != [] {
      var front, last := ids[..|ids| - 1], ids[|ids| - 1];
      assert last !in front;
      EventReachesEach(env, w, front, topic, id);
      PublishStep(env, w, front, topic);
      EventDelivered(env, Published(env, w, front, topic).0, last, topic);
    }
  }

  /** A transition for the topic, if the state has one, is where the event leads. */
  lemma AfterEventIs(r: Running, topic: string, i: nat, k: nat)
    requires WellFormed(r.definition) && StateIndex(r.definition.states, r.state) == Some(i)
    requires k < |r.definition.states[i].eventTransitions| && r.definition.states[i].eventTransitions[k].topic == topic
    ensures AfterEvent(r, topic).state == r.definition.states[i].eventTransitions[k].newState
  {
    assert StateWellFormed(r.definition.states[i], StateNames(r.definition));
    OnlyTransition(r.definition.states[i].eventTransitions, topic, k);
  }

  lemma {:induction false} OnlyTransition(transitions: seq<EventTransition>, topic: string, k: nat)
    requires forall i, j | 0 <= i < j < |transitions| :: transitions[i].topic != transitions[j].topic
    requires k < |transitions| && transitions[k].topic == topic
    ensures EventTarget(transitions, topic) == Some(transitions[k].newState)
    decreases k
  {
    if k > 0 {
      OnlyTransition(transitions[1..], topic, k - 1);
    }
  }

  /** What an advance does: beyond one transition per state it fails with a cycle and
      writes nothing; otherwise state and clock file become those of the timeouts due. Time
      counted earlier is added if it was counted in the state the scenario is still in. */
  lemma ClockMovesIff(env: Env, w: World, id: string, ms: nat)
    requires Governed(env, w) && id in w.files.scenarios && id in w.running
    ensures var running := w.running[id];
      var counted := if id in w.clocks && w.clocks[id].state == running.state then w.clocks[id].elapsed else 0;
      var (walk, remainder) := TimeoutWalk(running.definition, running.state, counted + ms);
      var (after, outcome) := ClockAdvanced(env, w, id, ms);
      if |walk| > |running.definition.states| then
        outcome == ClockMoved(TimeoutCycle) && after.running == w.running && after.clocks == w.clocks
      else
        var state := Last(running.state, walk);
        && outcome == ClockMoved(Ticked(state, remainder, walk))
        && after.running == w.running[id := Running(running.definition, state)]
        && after.clocks == w.clocks[id := ClockFile(state, remainder)]
  {
    hide Governed, Keeps, Seen, Leftover, Governing, WellFormed, TimeoutWalk, ReleasesSound, ReviewsSound,
      StateNames;
    var seen := Seen(env, w, id);
    SeenStep(env, w, id);
    SeenSpares(env, w, id);
    ReviewsOfGoverned(env, seen, id);
    DeclaredIndexed(w.running[id]);
  }

  lemma MovedState(w: World, id: string, state: string)
    requires id in w.running
    ensures id in Moved(w, id, state).running
    ensures Moved(w, id, state).running[id] == Running(w.running[id].definition, state)
  {
  }

  /** Two advances of the service clock are one by the sum, whenever that succeeds. */
  lemma ClockAdvancesCompose(env: Env, w: World, id: string, first: nat, second: nat)
    requires Governed(env, w) && id in w.files.scenarios && id in w.running
    requires ClockAdvanced(env, w, id, first + second).1.ClockMoved?
      && ClockAdvanced(env, w, id, first + second).1.tick.Ticked?
    ensures var (once, all) := ClockAdvanced(env, w, id, first + second);
      var (half, one) := ClockAdvanced(env, w, id, first);
      var (twice, two) := ClockAdvanced(env, half, id, second);
      && one.ClockMoved? && one.tick.Ticked? && two.ClockMoved? && two.tick.Ticked?
      && twice.running == once.running && twice.clocks == once.clocks
      && all.tick.transitions == one.tick.transitions + two.tick.transitions
  {
    hide Governed, Keeps, Seen, Leftover, WellFormed, TimeoutWalk, ReleasesSound, ReviewsSound, Clock.Advanced,
      Perform, Governing, Moved;
    var seen := Seen(env, w, id);
    SeenStep(env, w, id);
    SeenSpares(env, w, id);
    ReviewsOfGoverned(env, seen, id);
    var d, state := seen.running[id].definition, seen.running[id].state;
    var available := ElapsedIn(seen, id, state);
    AdvanceComposes(d, state, available + first, second);
    var half := ClockAdvanced(env, w, id, first).0;
    ClockStep(env, w, id, first);
    SeenStep(env, half, id);
    SeenSpares(env, half, id);
    var again := Seen(env, half, id);
    ReviewsOfGoverned(env, again, id);
    var one := Clock.Advanced(d, state, available + first);
    MovedState(seen, id, one.state);
    MovedSpares(seen, id, one.state);
    assert again.running[id] == Running(d, one.state);
    assert ElapsedIn(again, id, one.state) == one.elapsed;
    var two := Clock.Advanced(d, one.state, one.elapsed + second);
    MovedTwice(seen, again, id, one.state, two.state);
  }

  lemma MovedTwice(a: World, b: World, id: string, first: string, second: string)
    requires id in a.running && b.running == Moved(a, id, first).running
    ensures id in b.running && Moved(b, id, second).running == Moved(a, id, second).running
  {
    var w := a.running;
    assert w[id := w[id].(state := first)][id := w[id].(state := second)] == w[id := w[id].(state := second)];
  }
}
