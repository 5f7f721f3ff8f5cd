/** The scenario operations of the simulation service, acting on the revision store, the
    review, release and clock files and the runtime, step by step. */
module ScenarioService {
  import opened Wrappers
  import opened RuntimeModel
  import opened Scenario
  import opened Clock
  import opened Revisions
  import opened RevisionRuns
  import opened RevisionStore
  import opened Governance
  import opened GovernanceInvariant
  import opened Sorting
  import Comparison

  class SimulationService {
    const env: Env
    const store: ScenarioRevisionStore<Definition>
    var releases: map<string, seq<Release>>
    var reviews: map<string, seq<Review>>
    var policy: Policy
    var running: map<string, Running>
    var clocks: map<string, ClockFile>

    ghost function Snapshot(): World
      reads this, store
    {
      World(store.Contents(), releases, reviews, policy, running, clocks)
    }

    ghost predicate Valid()
      reads this, store
    {
      store.etag == env.etag && Governed(env, Snapshot())
    }

    constructor (env: Env)
      ensures Valid() && fresh(store)
      ensures Snapshot() == World(Files(map[], map[], map[]), map[], map[], Policy(false, false), map[], map[])
    {
      this.env := env;
      store := new ScenarioRevisionStore(env.etag);
      releases, reviews, policy, running, clocks := map[], map[], Policy(false, false), map[], map[];
      new;
      EmptyGoverned(env, policy);
    }

    method ConfigureScenario(id: string, d: Definition, actor: string, expected: Option<string>, budget: nat)
      returns (outcome: Governance.Outcome)
      requires Valid()
      modifies this, store
      ensures Valid()
      ensures (Snapshot(), outcome) == Configured(env, old(Snapshot()), id, d, actor, expected, budget)
    {
      hide Governed, SaveWrites, SaveOutcome, WellFormed;
      ghost var before := Snapshot();
      ConfigureStep(env, before, id, d, actor, expected, budget);
      if !WellFormed(d) {
        return Refused(InvalidDefinition);
      }
      if !env.fits(d) {
        return Refused(ContractMismatch);
      }
      var saved := store.Save(id, d, actor, expected, budget);
      SavedOrNot(env, before.files, id, d, actor, expected);
      match saved
      case Saved(_) => outcome := Completed;
      case Conflict(_, _, _) => outcome := Refused(EditConflict);
      case Crashed => outcome := Refused(Interrupted);
    }

    /** Reads a scenario, adopting its stored content; false when there is none. */
    method GetScenario(id: string) returns (found: bool)
      requires Valid()
      modifies store
      ensures Valid()
      ensures found <==> id in old(store.scenarios)
      ensures Snapshot() == Seen(env, old(Snapshot()), id)
      ensures !found ==> Snapshot() == old(Snapshot())
      ensures found ==>
        && store.scenarios == old(store.scenarios) && id in store.metadata
        && 1 <= store.metadata[id].revision
    {
      hide Governed, CurrentWrites, Keeps, Leftover;
      ghost var before := Snapshot();
      SeenStep(env, before, id);
      if id !in store.scenarios {
        return false;
      }
      TwoWritesAtMost(env.etag, before.files, id);
      var current, left := store.Current(id, store.scenarios[id], 2);
      HeadKnown(store.Contents(), id);
      return true;
    }

    method RequestReview(id: string, revision: nat, actor: string) returns (outcome: Governance.Outcome)
      requires Valid()
      modifies this, store
      ensures Valid()
      ensures (Snapshot(), outcome) == Requested(env, old(Snapshot()), id, revision, actor)
    {
      hide Governed, Seen;
      RequestStep(env, Snapshot(), id, revision, actor);
      SeenSpares(env, Snapshot(), id);
      var found := GetScenario(id);
      if !found {
        return Refused(UnknownScenario);
      }
      if (id, revision) !in store.history {
        return Refused(UnknownRevision);
      }
      var selected := store.history[(id, revision)].metadata;
      var list := if id in reviews then reviews[id] else [];
      if exists r | r in list :: r.revision == revision && r.status == Pending {
        return Refused(PendingReview);
      }
      var review := Review(|list| + 1, selected.revision, selected.etag, Pending, actor, None);
      reviews := reviews[id := list + [review]];
      outcome := Completed;
    }

    method DecideReview(id: string, number: nat, approved: bool, actor: string) returns (outcome: Governance.Outcome)
      requires Valid()
      modifies this, store
      ensures Valid()
      ensures (Snapshot(), outcome) == Decided(env, old(Snapshot()), id, number, approved, actor)
    {
      hide Governed, Seen;
      DecideStep(env, Snapshot(), id, number, approved, actor);
      SeenSpares(env, Snapshot(), id);
      var found := GetScenario(id);
      if !found {
        return Refused(UnknownScenario);
      }
      var list := if id in reviews then reviews[id] else [];
      if number < 1 || number > |list| {
        return Refused(UnknownReview);
      }
      var review := list[number - 1];
      if review.status != Pending {
        return Refused(AlreadyDecided);
      }
      var decided := review.(status := if approved then Approved else Rejected, decidedBy := Some(actor));
      reviews := reviews[id := list[number - 1 := decided]];
      outcome := Completed;
    }

    /** The policy's verdict on a stored revision; a rollback is not asked. */
    method RequireScenarioDeployable(id: string, revision: nat, rollback: Option<nat>) returns (blocked: Option<Reason>)
      requires (id, revision) in store.history
      ensures blocked == Blocked(Snapshot(), id, revision, rollback)
    {
      hide Comparison.Changes, Comparison.BreakingCount;
      if rollback.Some? {
        return None;
      }
      if policy.blockBreakingChanges && revision > 1 && (id, revision - 1) in store.history {
        var report := Comparison.CompareScenarioRevisions(
          store.history[(id, revision - 1)].definition, store.history[(id, revision)].definition);
        if report.breakingChangeCount > 0 {
          return Some(BreakingChanges);
        }
      }
      if !policy.requireApproval {
        return None;
      }
      var selected := store.history[(id, revision)].metadata;
      var list := if id in reviews then reviews[id] else [];
      if !HasApproval(list, selected.revision, selected.etag) {
        return Some(NotApproved);
      }
      blocked := None;
    }

    /** Appends a release to the list of its scenario. */
    method RecordRelease(id: string, selected: Revision<Definition>, actor: string,
                         source: Option<nat>) returns (release: Release)
      modifies this`releases
      ensures release == NextRelease(env, old(Snapshot()), id, selected, actor, source)
      ensures releases == old(releases)[id := ReleasesOf(old(Snapshot()), id) + [release]]
    {
      var list := if id in releases then releases[id] else [];
      release := Release(
        |list| + 1, selected.metadata.revision, selected.metadata.etag, env.fingerprint(id, selected.definition),
        HandlerTotal(selected.definition.states), actor, source);
      releases := releases[id := list + [release]];
    }

    method DeployScenario(id: string, actor: string, revision: nat,
                          source: Option<nat>) returns (outcome: Governance.Outcome)
      requires Valid()
      requires source.Some? ==>
        && revision != 0 && 1 <= source.value <= |ReleasesOf(Snapshot(), id)|
        && ReleasesOf(Snapshot(), id)[source.value - 1].revision == revision
      modifies this, store
      ensures Valid()
      ensures (Snapshot(), outcome) == DeployedScenario(env, old(Snapshot()), id, actor, revision, source)
    {
      hide Governed, Seen, Blocked, NextRelease;
      ghost var before := Snapshot();
      DeployStep(env, before, id, actor, revision, source);
      SeenSpares(env, before, id);
      var found := GetScenario(id);
      if !found {
        return Refused(UnknownScenario);
      }
      ghost var seen := Snapshot();
      var n := if revision == 0 then store.metadata[id].revision else revision;
      if (id, n) !in store.history {
        return Refused(UnknownRevision);
      }
      var selected := store.history[(id, n)];
      var blocked := RequireScenarioDeployable(id, n, source);
      if blocked.Some? {
        return Refused(blocked.value);
      }
      if !env.fits(selected.definition) {
        return Refused(ContractMismatch);
      }
      running := running[id := Running(selected.definition, selected.definition.initialState)];
      NextReleaseIgnoresRuntime(env, seen, Snapshot(), id, selected, actor, source);
      var release := RecordRelease(id, selected, actor, source);
      outcome := Deployed(release);
    }

    method RollbackScenarioRelease(id: string, number: nat, actor: string) returns (outcome: Governance.Outcome)
      requires Valid()
      modifies this, store
      ensures Valid()
      ensures (Snapshot(), outcome) == RolledBack(env, old(Snapshot()), id, number, actor)
    {
      hide Governed, Seen, DeployedScenario, ReleasesSound;
      ghost var before := Snapshot();
      SeenSpares(env, before, id);
      ReviewsOfGoverned(env, before, id);
      var found := GetScenario(id);
      if !found {
        return Refused(UnknownScenario);
      }
      var list := if id in releases then releases[id] else [];
      if number < 1 || number > |list| {
        return Refused(UnknownRelease);
      }
      ReleasePositive(env, before, id, number - 1);
      outcome := DeployScenario(id, actor, list[number - 1].revision, Some(number));
    }

    /** The definition of the latest release, or the stored one without releases. */
    method LatestDefinition(id: string) returns (definition: Option<Definition>)
      ensures definition == Governing(Snapshot(), id)
    {
      var list := if id in releases then releases[id] else [];
      if list == [] {
        return if id in store.scenarios then Some(store.scenarios[id]) else None;
      }
      var key := (id, list[|list| - 1].revision);
      return if key in store.history then Some(store.history[key].definition) else None;
    }

    method ResetScenario(id: string) returns (outcome: Governance.Outcome)
      requires Valid()
      modifies this, store
      ensures Valid()
      ensures (Snapshot(), outcome) == ResetTo(env, old(Snapshot()), id)
    {
      hide Governed, Seen, Governing;
      ResetStep(env, Snapshot(), id);
      SeenSpares(env, Snapshot(), id);
      var found := GetScenario(id);
      if !found {
        return Refused(UnknownScenario);
      }
      if id !in running {
        return Refused(NotDeployed);
      }
      var definition := LatestDefinition(id);
      if definition == None {
        return Refused(UnknownRevision);
      }
      running := running[id := running[id].(state := ResetState(definition.value))];
      outcome := Completed;
    }

    method AdvanceScenarioClock(id: string, ms: nat) returns (outcome: Governance.Outcome)
      requires Valid()
      modifies this, store
      ensures Valid()
      ensures (Snapshot(), outcome) == ClockAdvanced(env, old(Snapshot()), id, ms)
    {
      hide Governed, Seen, Governing, WellFormed, Clock.Advanced;
      ghost var before := Snapshot();
      ClockStep(env, before, id, ms);
      SeenSpares(env, before, id);
      var found := GetScenario(id);
      if !found {
        return Refused(UnknownScenario);
      }
      if id !in running {
        return Refused(NotDeployed);
      }
      ReleasedWellFormed(env, Snapshot(), id);
      var clock := if id in clocks then clocks[id] else ClockFile(running[id].state, 0);
      if clock.state != running[id].state {
        clock := ClockFile(running[id].state, 0);
      }
      var definition := LatestDefinition(id);
      if definition == None {
        return Refused(UnknownRevision);
      }
      var tick := FollowTimeouts(definition.value, running[id].state, clock.elapsed + ms);
      if tick.Ticked? {
        running := running[id := running[id].(state := tick.state)];
        clocks := clocks[id := ClockFile(tick.state, tick.elapsed)];
      }
      outcome := ClockMoved(tick);
    }

    method DeliverEvent(id: string, topic: string) returns (outcome: Governance.Outcome)
      requires Valid()
      modifies this, store
      ensures Valid()
      ensures (Snapshot(), outcome) == EventSeen(env, old(Snapshot()), id, topic)
    {
      hide Governed, Seen, Governing, EventTarget;
      EventStep(env, Snapshot(), id, topic);
      SeenSpares(env, Snapshot(), id);
      var found := GetScenario(id);
      if !found || id !in running {
        return Completed;
      }
      var definition := LatestDefinition(id);
      if definition == None {
        return Refused(UnknownRevision);
      }
      var index := StateIndex(definition.value.states, running[id].state);
      if index == None {
        return ClockMoved(UnknownState);
      }
      var target := FindTransition(definition.value.states[index.value].eventTransitions, topic);
      if target.Some? {
        running := running[id := running[id].(state := target.value)];
      }
      outcome := Completed;
    }

    /** Puts one scenario back into the reset state of what is released. */
    method ResetOneScenario(id: string)
      requires store.etag == env.etag
      modifies this, store
      ensures Snapshot() == ResetOne(env, old(Snapshot()), id)
    {
      hide CurrentWrites, Governing;
      if id !in store.scenarios {
        return;
      }
      SeenSpares(env, Snapshot(), id);
      TwoWritesAtMost(env.etag, store.Contents(), id);
      if id in releases && releases[id] != [] {
        var current, left := store.Current(id, store.scenarios[id], 2);
      }
      var definition := LatestDefinition(id);
      if definition.Some? && id in running {
        running := running[id := running[id].(state := ResetState(definition.value))];
      }
    }

    /** The runtime's reset, then every stored scenario back into its own reset state. */
    method ResetAllScenarios()
      requires Valid()
      modifies this, store
      ensures Valid()
      ensures Snapshot() == AllReset(env, old(Snapshot()))
    {
      hide Governed, ResetOne, SortedTexts;
      ghost var before := Snapshot();
      AllResetStep(env, before);
      var ids := SortedTexts(store.scenarios.Keys);
      running := map id | id in running :: running[id].(state := "Started");
      for i := 0 to |ids|
        invariant store.etag == env.etag
        invariant Snapshot() == ResetEach(env, Restarted(before), ids[..i])
      {
        assert ids[..i + 1][..i] == ids[..i];
        ResetOneScenario(ids[i]);
      }
      assert ids[..|ids|] == ids;
    }

    /** The loop over the scenarios, stopping at the first failure. */
    method PublishScenarioEvent(ids: seq<string>, topic: string) returns (outcome: Governance.Outcome)
      requires Valid()
      modifies this, store
      ensures Valid() && outcome == Completed
      ensures (Snapshot(), outcome) == Published(env, old(Snapshot()), ids, topic)
    {
      hide Governed, EventSeen;
      ghost var before := Snapshot();
      outcome := Completed;
      for i := 0 to |ids|
        invariant Valid() && outcome == Completed
        invariant (Snapshot(), outcome) == Published(env, before, ids[..i], topic)
      {
        assert ids[..i + 1][..i] == ids[..i];
        EventStep(env, Snapshot(), ids[i], topic);
        outcome := DeliverEvent(ids[i], topic);
      }
      assert ids[..|ids|] == ids;
    }
  }

  method FindTransition(transitions: seq<EventTransition>, topic: string) returns (target: Option<string>)
    ensures target == EventTarget(transitions, topic)
  {
    for i := 0 to |transitions|
      invariant EventTarget(transitions, topic) == EventTarget(transitions[i..], topic)
    {
      assert transitions[i..][1..] == transitions[i + 1..];
      if transitions[i].topic == topic {
        return Some(transitions[i].newState);
      }
    }
    target := None;
  }

  lemma SavedOrNot(env: Env, files: Files<Definition>, id: string, d: Definition, actor: string,
                   expected: Option<string>)
    ensures SaveOutcome(env.etag, files, id, d, actor, expected) != Crashed
  {
  }

  lemma HeadKnown(files: Files<Definition>, id: string)
    requires 1 <= Head(files, id)
    ensures id in files.metadata && files.metadata[id].revision == Head(files, id)
  {
  }

  lemma NextReleaseIgnoresRuntime(env: Env, a: World, b: World, id: string, selected: Revision<Definition>,
                                  actor: string, source: Option<nat>)
    requires b.releases == a.releases
    ensures NextRelease(env, a, id, selected, actor, source) == NextRelease(env, b, id, selected, actor, source)
  {
  }

  lemma ReleasedWellFormed(env: Env, w: World, id: string)
    requires Governed(env, w) && id in w.running
    ensures Governing(w, id).Some? && WellFormed(Governing(w, id).value)
  {
    hide WellFormed, StateNames, ReleasesSound, ReviewsSound, Governing;
    ReviewsOfGoverned(env, w, id);
  }
}
