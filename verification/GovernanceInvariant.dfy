/** What every run of the service keeps true of revisions, reviews, releases and the
    runtime. */
module GovernanceInvariant {
  import opened Wrappers
  import opened RuntimeModel
  import opened Scenario
  import opened Clock
  import opened Revisions
  import opened RevisionRuns
  import opened Governance
  import opened Sorting

  /** Every stored definition passed its validators. */
  ghost predicate Validated(files: Files<Definition>) {
    && (forall id | id in files.scenarios :: WellFormed(files.scenarios[id]))
    && (forall key | key in files.history :: WellFormed(files.history[key].definition))
  }

  /** The revision a release or review names is committed, under that ETag. */
  ghost predicate Pinned(files: Files<Definition>, id: string, revision: nat, etag: string) {
    1 <= revision <= Head(files, id) && (id, revision) in files.history
      && files.history[(id, revision)].metadata.etag == etag
  }

  /** A rollback repeats an earlier release. */
  ghost predicate Repeats(releases: seq<Release>, i: nat)
    requires i < |releases|
  {
    releases[i].source.Some? ==>
      && 1 <= releases[i].source.value <= i
      && var origin := releases[releases[i].source.value - 1];
         && origin.revision == releases[i].revision && origin.etag == releases[i].etag
         && origin.fingerprint == releases[i].fingerprint
  }

  ghost predicate ReleaseSound(env: Env, files: Files<Definition>, id: string, releases: seq<Release>, i: nat)
    requires i < |releases|
  {
    && releases[i].number == i + 1
    && Pinned(files, id, releases[i].revision, releases[i].etag)
    && releases[i].fingerprint == env.fingerprint(id, files.history[(id, releases[i].revision)].definition)
    && env.fits(files.history[(id, releases[i].revision)].definition)
    && Repeats(releases, i)
  }

  ghost predicate ReleasesSound(env: Env, files: Files<Definition>, id: string, releases: seq<Release>) {
    forall i: nat | i < |releases| :: ReleaseSound(env, files, id, releases, i)
  }

  ghost predicate ReviewSound(files: Files<Definition>, id: string, reviews: seq<Review>, i: nat)
    requires i < |reviews|
  {
    reviews[i].number == i + 1 && Pinned(files, id, reviews[i].revision, reviews[i].etag)
  }

  ghost predicate ReviewsSound(files: Files<Definition>, id: string, reviews: seq<Review>) {
    forall i: nat | i < |reviews| :: ReviewSound(files, id, reviews, i)
  }

  /** The runtime executes the latest release, in one of its declared states. */
  ghost predicate RunsLatest(w: World, id: string) {
    id in w.running ==>
      && ReleasesOf(w, id) != []
      && Governing(w, id) == Some(w.running[id].definition)
      && WellFormed(w.running[id].definition)
      && w.running[id].state in StateNames(w.running[id].definition)
  }

  ghost predicate ScenarioSound(env: Env, w: World, id: string) {
    && ReleasesSound(env, w.files, id, ReleasesOf(w, id))
    && ReviewsSound(w.files, id, ReviewsOf(w, id))
    && RunsLatest(w, id)
  }

  ghost predicate Governed(env: Env, w: World) {
    && Consistent(env.etag, w.files, true) && Validated(w.files)
    && forall id :: ScenarioSound(env, w, id)
  }

  // ---------------------------------------------------------------------- the files

  ghost predicate WriteValidated(w: Write<Definition>) {
    match w
    case WriteScenario(_, d) => WellFormed(d)
    case WriteHistory(_, r) => WellFormed(r.definition)
    case WriteMetadata(_, _) => true
  }

  ghost predicate WritesValidated(writes: seq<Write<Definition>>) {
    forall i | 0 <= i < |writes| :: WriteValidated(writes[i])
  }

  lemma {:induction false} ApplyValidated(files: Files<Definition>, writes: seq<Write<Definition>>)
    requires Validated(files) && WritesValidated(writes)
    ensures Validated(ApplyAll(files, writes))
    decreases |writes|
  {
    hide WellFormed;
    if writes != [] {
      assert WriteValidated(writes[0]);
      assert forall i | 0 <= i < |writes[1..]| :: writes[1..][i] == writes[i + 1];
      ApplyValidated(Apply(files, writes[0]), writes[1..]);
    }
  }

  lemma PerformValidated(env: Env, files: Files<Definition>, op: Operation<Definition>)
    requires Validated(files) && (op.Save? || op.Edit? ==> WellFormed(op.definition))
    ensures Validated(Perform(env.etag, files, op))
  {
    hide WellFormed;
    ApplyValidated(files, OperationWrites(env.etag, files, op));
  }

  lemma PinnedKept(before: Files<Definition>, after: Files<Definition>, id: string, revision: nat, etag: string)
    requires Keeps(before, after) && Pinned(before, id, revision, etag)
    ensures Pinned(after, id, revision, etag)
    ensures after.history[(id, revision)] == before.history[(id, revision)]
  {
    assert KeepsHistory(before, after, id);
  }

  lemma ReleasesKept(env: Env, before: Files<Definition>, after: Files<Definition>, id: string, releases: seq<Release>)
    requires Keeps(before, after) && ReleasesSound(env, before, id, releases)
    ensures ReleasesSound(env, after, id, releases)
  {
    hide Keeps, Pinned, Repeats;
    forall i: nat | i < |releases| ensures ReleaseSound(env, after, id, releases, i) {
      assert ReleaseSound(env, before, id, releases, i);
      PinnedKept(before, after, id, releases[i].revision, releases[i].etag);
    }
  }

  lemma ReviewsKept(before: Files<Definition>, after: Files<Definition>, id: string, reviews: seq<Review>)
    requires Keeps(before, after) && ReviewsSound(before, id, reviews)
    ensures ReviewsSound(after, id, reviews)
  {
    hide Keeps, Pinned;
    forall i: nat | i < |reviews| ensures ReviewSound(after, id, reviews, i) {
      assert ReviewSound(before, id, reviews, i);
      PinnedKept(before, after, id, reviews[i].revision, reviews[i].etag);
    }
  }

  lemma LatestPinned(env: Env, w: World, id: string)
    requires ReleasesSound(env, w.files, id, ReleasesOf(w, id)) && ReleasesOf(w, id) != []
    ensures var latest := ReleasesOf(w, id)[|ReleasesOf(w, id)| - 1]; Pinned(w.files, id, latest.revision, latest.etag)
  {
    assert ReleaseSound(env, w.files, id, ReleasesOf(w, id), |ReleasesOf(w, id)| - 1);
  }

  /** Whatever the revision store does, releases, reviews and runtime stay sound. */
  lemma FilesStep(env: Env, w: World, op: Operation<Definition>)
    requires Governed(env, w) && !op.Edit? && (op.Save? ==> WellFormed(op.definition))
    ensures Governed(env, w.(files := Perform(env.etag, w.files, op)))
    ensures Keeps(w.files, Perform(env.etag, w.files, op))
  {
    hide Consistent, Validated, Keeps, Perform, ReleasesSound, ReviewsSound, WellFormed, StateNames, Pinned;
    var after := w.(files := Perform(env.etag, w.files, op));
    PerformKeeps(env.etag, w.files, true, op);
    PerformValidated(env, w.files, op);
    forall id ensures ScenarioSound(env, after, id) {
      assert ScenarioSound(env, w, id);
      ReleasesKept(env, w.files, after.files, id, ReleasesOf(w, id));
      ReviewsKept(w.files, after.files, id, ReviewsOf(w, id));
      if id in w.running {
        LatestPinned(env, w, id);
        var latest := ReleasesOf(w, id)[|ReleasesOf(w, id)| - 1];
        PinnedKept(w.files, after.files, id, latest.revision, latest.etag);
      }
    }
  }

  /** After `get_scenario` every revision in the history is committed. */
  lemma SeenStep(env: Env, w: World, id: string)
    requires Governed(env, w)
    ensures var seen := Seen(env, w, id);
      && Governed(env, seen) && Keeps(w.files, seen.files) && seen.files.scenarios == w.files.scenarios
      && (id in w.files.scenarios ==> !Leftover(seen.files, id) && 1 <= Head(seen.files, id))
  {
    hide Consistent, Keeps, Governed, Leftover, CurrentWrites;
    FilesStep(env, w, Look(id, 2));
    GovernedFiles(env, w);
    if id in w.files.scenarios {
      TwoWritesAtMost(env.etag, w.files, id);
      LookCommits(env.etag, w.files, true, id, 2);
      CurrentDone(env.etag, w.files, true, id);
      GovernedFiles(env, Seen(env, w, id));
      HeadPositive(env, Seen(env, w, id).files, id);
    }
  }

  lemma GovernedFiles(env: Env, w: World)
    requires Governed(env, w)
    ensures Consistent(env.etag, w.files, true) && Validated(w.files)
  {
  }

  lemma HeadPositive(env: Env, files: Files<Definition>, id: string)
    requires Consistent(env.etag, files, true) && id in files.metadata
    ensures 1 <= Head(files, id)
  {
    assert Sound(env.etag, files, true, id);
  }

  /** Without a leftover, any stored revision is committed and well formed. */
  lemma StoredPinned(env: Env, files: Files<Definition>, id: string, n: nat)
    requires Consistent(env.etag, files, true) && Validated(files) && !Leftover(files, id) && (id, n) in files.history
    ensures Pinned(files, id, n, files.history[(id, n)].metadata.etag)
    ensures files.history[(id, n)].metadata.revision == n && WellFormed(files.history[(id, n)].definition)
  {
    hide WellFormed;
    assert Sound(env.etag, files, true, id);
    assert Entry(env.etag, files, id, n);
  }

  // ------------------------------------------------------------- one command at a time

  /** A review is appended or decided, nothing else. */
  lemma ReviewsStep(env: Env, w: World, id: string, reviews: seq<Review>)
    requires Governed(env, w) && ReviewsSound(w.files, id, reviews)
    ensures Governed(env, w.(reviews := w.reviews[id := reviews]))
  {
    hide Consistent, Validated, ReleasesSound, ReviewsSound, WellFormed, StateNames;
    var after := w.(reviews := w.reviews[id := reviews]);
    forall other ensures ScenarioSound(env, after, other) {
      assert ScenarioSound(env, w, other);
    }
  }

  lemma RequestStep(env: Env, w: World, id: string, revision: nat, actor: string)
    requires Governed(env, w)
    ensures Governed(env, Requested(env, w, id, revision, actor).0)
  {
    hide Governed, Seen, Leftover, Consistent, Validated, Keeps, WellFormed;
    if id in w.files.scenarios {
      var seen := Seen(env, w, id);
      SeenStep(env, w, id);
      GovernedFiles(env, seen);
      ReviewsOfGoverned(env, seen, id);
      if (id, revision) in seen.files.history {
        StoredPinned(env, seen.files, id, revision);
        var m := seen.files.history[(id, revision)].metadata;
        var reviews := ReviewsOf(w, id);
        var review := Review(|reviews| + 1, m.revision, m.etag, Pending, actor, None);
        SeenSpares(env, w, id);
        ReviewAppended(seen.files, id, reviews, review);
        ReviewsStep(env, seen, id, reviews + [review]);
      }
    }
  }

  lemma SeenSpares(env: Env, w: World, id: string)
    ensures Seen(env, w, id) == w.(files := Seen(env, w, id).files)
  {
  }

  lemma ReviewsOfGoverned(env: Env, w: World, id: string)
    requires Governed(env, w)
    ensures ReviewsSound(w.files, id, ReviewsOf(w, id)) && ReleasesSound(env, w.files, id, ReleasesOf(w, id))
      && RunsLatest(w, id)
  {
    assert ScenarioSound(env, w, id);
  }

  lemma ReviewAppended(files: Files<Definition>, id: string, reviews: seq<Review>, review: Review)
    requires ReviewsSound(files, id, reviews) && review.number == |reviews| + 1
    requires Pinned(files, id, review.revision, review.etag)
    ensures ReviewsSound(files, id, reviews + [review])
  {
    hide Pinned;
    forall i: nat | i < |reviews + [review]| ensures ReviewSound(files, id, reviews + [review], i) {
      if i < |reviews| {
        assert ReviewSound(files, id, reviews, i);
      }
    }
  }

  lemma ReviewReplaced(files: Files<Definition>, id: string, reviews: seq<Review>, k: nat, review: Review)
    requires ReviewsSound(files, id, reviews) && k < |reviews|
    requires review.number == reviews[k].number && review.revision == reviews[k].revision
      && review.etag == reviews[k].etag
    ensures ReviewsSound(files, id, reviews[k := review])
  {
    hide Pinned;
    var changed := reviews[k := review];
    forall i: nat | i < |changed| ensures ReviewSound(files, id, changed, i) {
      assert ReviewSound(files, id, reviews, i);
    }
  }

  lemma DecideStep(env: Env, w: World, id: string, number: nat, approved: bool, actor: string)
    requires Governed(env, w)
    ensures Governed(env, Decided(env, w, id, number, approved, actor).0)
  {
    hide Governed, Seen, Leftover, Consistent, Validated, Keeps, WellFormed;
    if id in w.files.scenarios {
      var seen := Seen(env, w, id);
      SeenStep(env, w, id);
      ReviewsOfGoverned(env, seen, id);
      SeenSpares(env, w, id);
      var reviews := ReviewsOf(w, id);
      if 1 <= number <= |reviews| {
        var decided := reviews[number - 1].(status := if approved then Approved else Rejected,
          decidedBy := Some(actor));
        ReviewReplaced(seen.files, id, reviews, number - 1, decided);
        ReviewsStep(env, seen, id, reviews[number - 1 := decided]);
      }
    }
  }

  /** A release of a committed revision, run from its initial state. */
  lemma ReleaseStep(env: Env, w: World, id: string, n: nat, actor: string, source: Option<nat>)
    requires Governed(env, w) && (id, n) in w.files.history
    requires Pinned(w.files, id, n, w.files.history[(id, n)].metadata.etag)
    requires w.files.history[(id, n)].metadata.revision == n && WellFormed(w.files.history[(id, n)].definition)
    requires env.fits(w.files.history[(id, n)].definition)
    requires source.Some? ==>
      && 1 <= source.value <= |ReleasesOf(w, id)|
      && ReleasesOf(w, id)[source.value - 1].revision == n
    ensures var selected := w.files.history[(id, n)];
      Governed(env, w.(
        running := w.running[id := Running(selected.definition, selected.definition.initialState)],
        releases := w.releases[id := ReleasesOf(w, id) + [NextRelease(env, w, id, selected, actor, source)]]))
  {
    hide Consistent, Validated, ReleasesSound, ReviewsSound, WellFormed, StateNames, Pinned, NextRelease;
    var selected := w.files.history[(id, n)];
    var release := NextRelease(env, w, id, selected, actor, source);
    var releases := ReleasesOf(w, id);
    var after := w.(
      running := w.running[id := Running(selected.definition, selected.definition.initialState)],
      releases := w.releases[id := releases + [release]]);
    NextReleaseFields(env, w, id, selected, actor, source);
    ReviewsOfGoverned(env, w, id);
    InitialDeclared(selected.definition);
    ReleaseAppended(env, w.files, id, releases, release);
    forall other ensures ScenarioSound(env, after, other) {
      assert ScenarioSound(env, w, other);
      if other == id {
        assert ReleasesOf(after, id) == releases + [release];
      }
    }
  }

  lemma NextReleaseFields(env: Env, w: World, id: string, selected: Revision<Definition>, actor: string,
                          source: Option<nat>)
    ensures var r := NextRelease(env, w, id, selected, actor, source);
      && r.number == |ReleasesOf(w, id)| + 1 && r.revision == selected.metadata.revision
      && r.etag == selected.metadata.etag
      && r.fingerprint == env.fingerprint(id, selected.definition) && r.source == source
  {
  }

  lemma InitialDeclared(d: Definition)
    requires WellFormed(d)
    ensures d.initialState in StateNames(d) && ResetState(d) in StateNames(d)
  {
  }

  lemma ReleaseAppended(env: Env, files: Files<Definition>, id: string, releases: seq<Release>, release: Release)
    requires ReleasesSound(env, files, id, releases) && release.number == |releases| + 1
    requires Pinned(files, id, release.revision, release.etag)
    requires release.fingerprint == env.fingerprint(id, files.history[(id, release.revision)].definition)
    requires env.fits(files.history[(id, release.revision)].definition)
    requires release.source.Some? ==>
      1 <= release.source.value <= |releases| && releases[release.source.value - 1].revision == release.revision
    ensures ReleasesSound(env, files, id, releases + [release])
  {
    var all := releases + [release];
    forall i: nat | i < |all| ensures ReleaseSound(env, files, id, all, i) {
      if i < |releases| {
        assert ReleaseSound(env, files, id, releases, i);
      } else if release.source.Some? {
        assert ReleaseSound(env, files, id, releases, release.source.value - 1);
      }
    }
  }

  lemma DeployStep(env: Env, w: World, id: string, actor: string, revision: nat, source: Option<nat>)
    requires Governed(env, w)
    requires source.Some? ==>
      && 1 <= source.value <= |ReleasesOf(w, id)| && revision != 0
      && ReleasesOf(w, id)[source.value - 1].revision == revision
    ensures Governed(env, DeployedScenario(env, w, id, actor, revision, source).0)
  {
    hide Governed, Seen, Leftover, Consistent, Validated, Keeps, WellFormed, Pinned, Blocked, NextRelease;
    if id in w.files.scenarios {
      var seen := Seen(env, w, id);
      SeenStep(env, w, id);
      SeenSpares(env, w, id);
      GovernedFiles(env, seen);
      var n := Chosen(seen, id, revision);
      if (id, n) in seen.files.history {
        StoredPinned(env, seen.files, id, n);
        if env.fits(seen.files.history[(id, n)].definition) {
          ReleaseStep(env, seen, id, n, actor, source);
        }
      }
    }
  }

  lemma RollbackStep(env: Env, w: World, id: string, number: nat, actor: string)
    requires Governed(env, w)
    ensures Governed(env, RolledBack(env, w, id, number, actor).0)
  {
    hide Governed, Seen, Leftover, Keeps, DeployedScenario, ReleasesSound;
    if id in w.files.scenarios {
      var seen := Seen(env, w, id);
      SeenStep(env, w, id);
      SeenSpares(env, w, id);
      ReviewsOfGoverned(env, w, id);
      if 1 <= number <= |ReleasesOf(w, id)| {
        ReleasePositive(env, w, id, number - 1);
        DeployStep(env, seen, id, actor, ReleasesOf(w, id)[number - 1].revision, Some(number));
      }
    }
  }

  lemma ReleasePositive(env: Env, w: World, id: string, i: nat)
    requires ReleasesSound(env, w.files, id, ReleasesOf(w, id)) && i < |ReleasesOf(w, id)|
    ensures ReleasesOf(w, id)[i].revision >= 1
  {
    assert ReleaseSound(env, w.files, id, ReleasesOf(w, id), i);
  }

  /** Moving the runtime to a declared state keeps everything. */
  lemma MoveStep(env: Env, w: World, id: string, state: string)
    requires Governed(env, w) && id in w.running && state in StateNames(w.running[id].definition)
    ensures Governed(env, Moved(w, id, state))
  {
    hide Consistent, Validated, ReleasesSound, ReviewsSound, WellFormed, StateNames;
    forall other ensures ScenarioSound(env, Moved(w, id, state), other) {
      assert ScenarioSound(env, w, other);
    }
  }

  /** Clock files and the policy play no part. */
  lemma Unaffected(env: Env, w: World, after: World)
    requires Governed(env, w)
    requires after.files == w.files && after.releases == w.releases && after.reviews == w.reviews
      && after.running == w.running
    ensures Governed(env, after)
  {
    hide Consistent, Validated, ReleasesSound, ReviewsSound, WellFormed, StateNames;
    forall other ensures ScenarioSound(env, after, other) {
      assert ScenarioSound(env, w, other);
    }
  }

  lemma ResetStep(env: Env, w: World, id: string)
    requires Governed(env, w)
    ensures Governed(env, ResetTo(env, w, id).0)
  {
    hide Governed, Seen, Keeps, Leftover, Governing, ResetState, StateNames, WellFormed, Moved, ReleasesSound,
      ReviewsSound;
    if id in w.files.scenarios {
      var seen := Seen(env, w, id);
      SeenStep(env, w, id);
      ReviewsOfGoverned(env, seen, id);
      if id in seen.running {
        InitialDeclared(seen.running[id].definition);
        MoveStep(env, seen, id, ResetState(seen.running[id].definition));
      }
    }
  }

  lemma ClockStep(env: Env, w: World, id: string, ms: nat)
    requires Governed(env, w)
    ensures Governed(env, ClockAdvanced(env, w, id, ms).0)
  {
    hide Governed, Seen, Keeps, Leftover, Governing, StateNames, WellFormed, Moved, TimeoutWalk, ReleasesSound,
      ReviewsSound;
    if id in w.files.scenarios {
      var seen := Seen(env, w, id);
      SeenStep(env, w, id);
      ReviewsOfGoverned(env, seen, id);
      if id in seen.running {
        var d, state := seen.running[id].definition, seen.running[id].state;
        var available := ElapsedIn(seen, id, state) + ms;
        WalkDeclared(d, state, available);
        MoveStep(env, seen, id, Last(state, TimeoutWalk(d, state, available).0));
        var (walk, elapsed) := TimeoutWalk(d, state, available);
        MovedSpares(seen, id, Last(state, walk));
        var moved := Moved(seen, id, Last(state, walk));
        Unaffected(env, moved, moved.(clocks := seen.clocks[id := ClockFile(Last(state, walk), elapsed)]));
      }
    }
  }

  lemma MovedSpares(w: World, id: string, state: string)
    requires id in w.running
    ensures Moved(w, id, state) == w.(running := Moved(w, id, state).running)
  {
  }

  lemma {:induction false} EventTargetListed(transitions: seq<EventTransition>, topic: string)
    ensures EventTarget(transitions, topic).Some? ==>
      exists i | 0 <= i < |transitions| ::
        transitions[i].topic == topic && transitions[i].newState == EventTarget(transitions, topic).value
    decreases |transitions|
  {
    if transitions != [] && transitions[0].topic != topic && EventTarget(transitions, topic).Some? {
      EventTargetListed(transitions[1..], topic);
      var i :| 0 <= i < |transitions[1..]| && transitions[1..][i].topic == topic
        && transitions[1..][i].newState == EventTarget(transitions, topic).value;
      assert transitions[i + 1] == transitions[1..][i];
    }
  }

  lemma EventTargetDeclared(d: Definition, i: nat, topic: string)
    requires WellFormed(d) && i < |d.states| && EventTarget(d.states[i].eventTransitions, topic).Some?
    ensures EventTarget(d.states[i].eventTransitions, topic).value in StateNames(d)
  {
    EventTargetListed(d.states[i].eventTransitions, topic);
    assert StateWellFormed(d.states[i], StateNames(d));
  }

  lemma EventStep(env: Env, w: World, id: string, topic: string)
    requires Governed(env, w)
    ensures Governed(env, EventSeen(env, w, id, topic).0)
    ensures EventSeen(env, w, id, topic).1 == Completed
  {
    hide Governed, Seen, Keeps, Leftover, Governing, WellFormed, Moved, ReleasesSound, ReviewsSound, EventTarget;
    if id in w.files.scenarios {
      var seen := Seen(env, w, id);
      SeenStep(env, w, id);
      ReviewsOfGoverned(env, seen, id);
      if id in seen.running {
        var d := seen.running[id].definition;
        var i := StateIndex(d.states, seen.running[id].state);
        if i.Some? && EventTarget(d.states[i.value].eventTransitions, topic).Some? {
          EventTargetDeclared(d, i.value, topic);
          MoveStep(env, seen, id, EventTarget(d.states[i.value].eventTransitions, topic).value);
        }
      }
    }
  }

  /** An event reaches every scenario: no lookup on the way fails. */
  lemma {:induction false} PublishStep(env: Env, w: World, ids: seq<string>, topic: string)
    requires Governed(env, w)
    ensures Governed(env, Published(env, w, ids, topic).0) && Published(env, w, ids, topic).1 == Completed
    decreases |ids|
  {
    hide Governed, EventSeen;
    if ids != [] {
      PublishStep(env, w, ids[..|ids| - 1], topic);
      EventStep(env, Published(env, w, ids[..|ids| - 1], topic).0, ids[|ids| - 1], topic);
    }
  }

  lemma CallStep(env: Env, w: World, id: string, req: Request)
    requires Governed(env, w)
    ensures Governed(env, Requesting(w, id, req))
  {
    hide Governed, Step, WellFormed, StateNames, ReleasesSound, ReviewsSound, Moved;
    ReviewsOfGoverned(env, w, id);
    if id in w.running {
      StepStaysDeclared(w.running[id].definition, w.running[id].state, req);
      MoveStep(env, w, id, Step(w.running[id].definition, w.running[id].state, req).0);
    }
  }

  // --------------------------------------------------------- resets of the runtime

  /** The world as if every deployed scenario had just started. */
  function AtStart(w: World): World {
    w.(running := map id | id in w.running :: Running(w.running[id].definition, w.running[id].definition.initialState))
  }

  /** The states are the only difference between a governed world and a fresh one. */
  lemma GovernedIff(env: Env, w: World)
    ensures Governed(env, w)
      <==> Governed(env, AtStart(w)) && forall id | id in w.running ::
        w.running[id].state in StateNames(w.running[id].definition)
  {
    hide Consistent, Validated, ReleasesSound, ReviewsSound, WellFormed, StateNames;
    var started := AtStart(w);
    if Governed(env, w) {
      forall id ensures ScenarioSound(env, started, id) {
        assert ScenarioSound(env, w, id);
        if id in w.running { InitialDeclared(w.running[id].definition); }
      }
    }
    if Governed(env, started) && forall id | id in w.running ::
      w.running[id].state in StateNames(w.running[id].definition) {
      forall id ensures ScenarioSound(env, w, id) {
        assert ScenarioSound(env, started, id);
      }
    }
    forall id | Governed(env, w) && id in w.running
      ensures w.running[id].state in StateNames(w.running[id].definition)
    {
      assert ScenarioSound(env, w, id);
    }
  }

  /** The runtime's own reset, which an evidence run performs, keeps everything exactly
      when every deployed definition declares a state Started. */
  lemma RestartKeepsIff(env: Env, w: World)
    requires Governed(env, w)
    ensures Governed(env, Restarted(w))
      <==> forall id | id in w.running :: "Started" in StateNames(w.running[id].definition)
  {
    hide Governed, StateNames;
    var again := Restarted(w);
    GovernedIff(env, w);
    GovernedIff(env, again);
    assert AtStart(again) == AtStart(w);
    assert again.running.Keys == w.running.Keys
      && forall id | id in w.running :: again.running[id] == Running(w.running[id].definition, "Started");
  }

  lemma RunningStored(env: Env, w: World, id: string)
    requires Governed(env, w) && id in w.running
    ensures id in w.files.scenarios
  {
    hide ReleasesSound, ReviewsSound, WellFormed, StateNames, Validated;
    ReviewsOfGoverned(env, w, id);
    LatestPinned(env, w, id);
    assert Sound(env.etag, w.files, true, id);
  }

  lemma GoverningIgnoresStates(w: World, id: string)
    ensures Governing(AtStart(w), id) == Governing(w, id)
  {
  }

  /** Resetting one scenario changes its state only, to a declared one. */
  lemma ResetOneStep(env: Env, w: World, id: string)
    requires Governed(env, AtStart(w))
    ensures var after := ResetOne(env, w, id);
      && Governed(env, AtStart(after)) && after.files.scenarios == w.files.scenarios
      && after.releases == w.releases && after.reviews == w.reviews && after.policy == w.policy
      && Keeps(w.files, after.files)
      && after.running == if id in w.running && id in w.files.scenarios
                          then w.running[id := Running(w.running[id].definition, ResetState(w.running[id].definition))]
                          else w.running
  {
    hide Governed, Seen, Keeps, Leftover, Governing, ResetState, StateNames, WellFormed, ReleasesSound,
      ReviewsSound;
    KeepsReflexive(w.files);
    if id in w.files.scenarios {
      SeenStep(env, AtStart(w), id);
      SeenSpares(env, AtStart(w), id);
      SeenSpares(env, w, id);
      SeenFiles(env, w, AtStart(w), id);
      var seen := if ReleasesOf(w, id) == [] then w else Seen(env, w, id);
      assert Governed(env, AtStart(seen)) by {
        assert AtStart(Seen(env, w, id)) == Seen(env, AtStart(w), id);
      }
      ReviewsOfGoverned(env, AtStart(seen), id);
      GoverningIgnoresStates(seen, id);
      if id in w.running {
        assert AtStart(Moved(seen, id, ResetState(seen.running[id].definition))) == AtStart(seen);
      }
    }
  }

  lemma SeenFiles(env: Env, a: World, b: World, id: string)
    requires a.files == b.files
    ensures Seen(env, a, id).files == Seen(env, b, id).files
  {
  }

  lemma {:induction false} ResetEachStep(env: Env, w: World, ids: seq<string>)
    requires Governed(env, AtStart(w)) && forall id | id in ids :: id in w.files.scenarios
    ensures var after := ResetEach(env, w, ids);
      && Governed(env, AtStart(after)) && after.files.scenarios == w.files.scenarios
      && after.releases == w.releases && after.reviews == w.reviews && after.policy == w.policy
      && Keeps(w.files, after.files) && after.running.Keys == w.running.Keys
      && forall id | id in w.running ::
           after.running[id] == if id in ids
             then Running(w.running[id].definition, ResetState(w.running[id].definition))
                                else w.running[id]
    decreases |ids|
  {
    hide Governed, Keeps, ResetOne, ResetState, AtStart;
    KeepsReflexive(w.files);
    if ids != [] {
      var front := ids[..|ids| - 1];
      ResetEachStep(env, w, front);
      ResetOneStep(env, ResetEach(env, w, front), ids[|ids| - 1]);
      KeepsTransitive(env.etag, w.files, ResetEach(env, w, front).files, ResetEach(env, w, ids).files);
    }
  }

  /** Resetting all scenarios puts each deployed one into the reset target of what it runs,
      or its initial state when it has none. */
  lemma AllResetStep(env: Env, w: World)
    requires Governed(env, w)
    ensures var after := AllReset(env, w);
      && Governed(env, after) && Keeps(w.files, after.files)
      && after.releases == w.releases && after.reviews == w.reviews && after.policy == w.policy
      && after.running.Keys == w.running.Keys
      && forall id | id in w.running ::
           var d := w.running[id].definition;
           after.running[id] == Running(d, if d.reset.Some? then d.reset.value else d.initialState)
  {
    hide Governed, Keeps, ResetEach, ResetState, StateNames, WellFormed;
    var ids := SortedTexts(w.files.scenarios.Keys);
    SortedTextsMembers(w.files.scenarios.Keys);
    GovernedIff(env, w);
    assert AtStart(Restarted(w)) == AtStart(w);
    ResetEachStep(env, Restarted(w), ids);
    forall id | id in w.running
      ensures id in ids && ResetState(w.running[id].definition) in StateNames(w.running[id].definition)
    {
      RunningStored(env, w, id);
      ReviewsOfGoverned(env, w, id);
      RunsWellFormed(w, id);
      InitialDeclared(w.running[id].definition);
    }
    GovernedIff(env, AllReset(env, w));
    forall id | id in w.running
      ensures var d := w.running[id].definition;
        AllReset(env, w).running[id] == Running(d, if d.reset.Some? then d.reset.value else d.initialState)
    {
      ResetTarget(w.running[id].definition);
    }
  }

  lemma ResetTarget(d: Definition)
    ensures ResetState(d) == if d.reset.Some? then d.reset.value else d.initialState
  {
  }

  lemma RunsWellFormed(w: World, id: string)
    requires RunsLatest(w, id) && id in w.running
    ensures WellFormed(w.running[id].definition)
  {
  }

  lemma ConfigureStep(env: Env, w: World, id: string, d: Definition, actor: string, expected: Option<string>,
                      budget: nat)
    requires Governed(env, w)
    ensures Governed(env, Configured(env, w, id, d, actor, expected, budget).0)
  {
    hide Governed, Perform, WellFormed, SaveWrites, SaveOutcome, Keeps;
    if WellFormed(d) {
      FilesStep(env, w, Save(id, d, actor, expected, budget));
    }
  }

  lemma ExecuteStep(env: Env, w: World, c: Command)
    requires Governed(env, w)
    ensures Governed(env, Execute(env, w, c))
  {
    hide Governed, Configured, Requested, Decided, DeployedScenario, RolledBack, ResetTo, ClockAdvanced, Published,
      Requesting, Perform, Keeps, AllReset;
    match c
    case Configure(id, d, actor, expected, budget) => ConfigureStep(env, w, id, d, actor, expected, budget);
    case View(id, budget) => FilesStep(env, w, Look(id, budget));
    case UpdatePolicy(policy) => Unaffected(env, w, w.(policy := policy));
    case RequestReview(id, revision, actor) => RequestStep(env, w, id, revision, actor);
    case DecideReview(id, number, approved, actor) => DecideStep(env, w, id, number, approved, actor);
    case DeployScenario(id, actor, revision) => DeployStep(env, w, id, actor, revision, None);
    case Rollback(id, number, actor) => RollbackStep(env, w, id, number, actor);
    case ResetScenario(id) => ResetStep(env, w, id);
    case AdvanceClock(id, ms) => ClockStep(env, w, id, ms);
    case PublishEvent(ids, topic) => PublishStep(env, w, ids, topic);
    case ResetAllScenarios => AllResetStep(env, w);
    case Call(id, request) => CallStep(env, w, id, request);
  }

  /** Over every run of the service the runtime runs the latest release, in a state that
      release declares; releases and reviews stay pinned to committed revisions. */
  lemma {:induction false} RunStaysGoverned(env: Env, w: World, commands: seq<Command>)
    requires Governed(env, w)
    ensures Governed(env, ExecuteAll(env, w, commands))
    decreases |commands|
  {
    hide Governed, Execute;
    if commands != [] {
      RunStaysGoverned(env, w, commands[..|commands| - 1]);
      ExecuteStep(env, ExecuteAll(env, w, commands[..|commands| - 1]), commands[|commands| - 1]);
    }
  }

  lemma EmptyGoverned(env: Env, policy: Policy)
    ensures Governed(env, World(Files(map[], map[], map[]), map[], map[], policy, map[], map[]))
  {
    EmptyConsistent(env.etag);
  }
}
