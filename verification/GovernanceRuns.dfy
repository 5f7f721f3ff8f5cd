/** What a run of the service never undoes, and what deployment and rollback promise. */
module GovernanceRuns {
  import opened Wrappers
  import opened RuntimeModel
  import opened Scenario
  import opened Clock
  import opened Revisions
  import opened RevisionRuns
  import opened Governance
  import opened GovernanceInvariant
  import Comparison

  // ---------------------------------------------------------------- nothing is undone

  /** A pending review may be decided; apart from that a review never changes. */
  ghost predicate ReviewFollows(r: Review, s: Review) {
    s == r || (r.status == Pending && s.status != Pending && s == r.(status := s.status, decidedBy := s.decidedBy))
  }

  ghost predicate ReviewsFollow(before: seq<Review>, after: seq<Review>) {
    |before| <= |after| && forall i | 0 <= i < |before| :: ReviewFollows(before[i], after[i])
  }

  ghost predicate ScenarioFollows(before: World, after: World, id: string) {
    ReleasesOf(before, id) <= ReleasesOf(after, id) && ReviewsFollow(ReviewsOf(before, id), ReviewsOf(after, id))
  }

  /** Committed revisions are kept, releases are only appended, decisions are final. */
  ghost predicate Follows(before: World, after: World) {
    Keeps(before.files, after.files) && forall id :: ScenarioFollows(before, after, id)
  }

  lemma FollowsFiles(before: World, after: World)
    requires Keeps(before.files, after.files) && after.releases == before.releases && after.reviews == before.reviews
    ensures Follows(before, after)
  {
  }

  lemma FollowsTransitive(env: Env, a: World, b: World, c: World)
    requires Follows(a, b) && Follows(b, c)
    ensures Follows(a, c)
  {
    hide Keeps;
    KeepsTransitive(env.etag, a.files, b.files, c.files);
    forall id ensures ScenarioFollows(a, c, id) {
      assert ScenarioFollows(a, b, id) && ScenarioFollows(b, c, id);
    }
  }

  lemma SeenFollows(env: Env, w: World, id: string)
    requires Governed(env, w)
    ensures Follows(w, Seen(env, w, id))
  {
    hide Governed, Keeps;
    SeenStep(env, w, id);
    FollowsFiles(w, Seen(env, w, id));
  }

  lemma RequestFollows(env: Env, w: World, id: string, revision: nat, actor: string)
    requires Governed(env, w)
    ensures Follows(w, Requested(env, w, id, revision, actor).0)
  {
    hide Governed, Keeps, Perform;
    KeepsReflexive(w.files);
    SeenFollows(env, w, id);
  }

  lemma DecideFollows(env: Env, w: World, id: string, number: nat, approved: bool, actor: string)
    requires Governed(env, w)
    ensures Follows(w, Decided(env, w, id, number, approved, actor).0)
  {
    hide Governed, Keeps, Perform;
    KeepsReflexive(w.files);
    SeenFollows(env, w, id);
  }

  lemma DeployFollows(env: Env, w: World, id: string, actor: string, revision: nat, source: Option<nat>)
    requires Governed(env, w)
    ensures Follows(w, DeployedScenario(env, w, id, actor, revision, source).0)
  {
    hide Governed, Keeps, Perform, Blocked, NextRelease, Chosen;
    KeepsReflexive(w.files);
    SeenFollows(env, w, id);
  }

  lemma RollbackFollows(env: Env, w: World, id: string, number: nat, actor: string)
    requires Governed(env, w)
    ensures Follows(w, RolledBack(env, w, id, number, actor).0)
  {
    hide Governed, Keeps, Follows, Seen, DeployedScenario;
    FollowsSelf(w);
    SeenFollows(env, w, id);
    SeenStep(env, w, id);
    if id in w.files.scenarios && 1 <= number <= |ReleasesOf(w, id)| {
      var revision := ReleasesOf(w, id)[number - 1].revision;
      DeployFollows(env, Seen(env, w, id), id, actor, revision, Some(number));
      FollowsTransitive(env, w, Seen(env, w, id), RolledBack(env, w, id, number, actor).0);
    }
  }

  lemma FollowsSelf(w: World)
    ensures Follows(w, w)
  {
    KeepsReflexive(w.files);
  }

  lemma EventFollows(env: Env, w: World, id: string, topic: string)
    requires Governed(env, w)
    ensures Follows(w, EventSeen(env, w, id, topic).0)
  {
    hide Governed, Keeps, Perform, Governing, EventTarget;
    KeepsReflexive(w.files);
    SeenFollows(env, w, id);
  }

  lemma {:induction false} PublishFollows(env: Env, w: World, ids: seq<string>, topic: string)
    requires Governed(env, w)
    ensures Follows(w, Published(env, w, ids, topic).0)
    decreases |ids|
  {
    hide Governed, Follows, EventSeen;
    FollowsSelf(w);
    if ids != [] {
      var before := Published(env, w, ids[..|ids| - 1], topic).0;
      PublishFollows(env, w, ids[..|ids| - 1], topic);
      PublishStep(env, w, ids[..|ids| - 1], topic);
      EventFollows(env, before, ids[|ids| - 1], topic);
      FollowsTransitive(env, w, before, EventSeen(env, before, ids[|ids| - 1], topic).0);
    }
  }

  lemma ResetFollows(env: Env, w: World, id: string)
    requires Governed(env, w)
    ensures Follows(w, ResetTo(env, w, id).0)
  {
    hide Governed, Keeps, Perform, Governing;
    KeepsReflexive(w.files);
    SeenFollows(env, w, id);
  }

  lemma ClockFollows(env: Env, w: World, id: string, ms: nat)
    requires Governed(env, w)
    ensures Follows(w, ClockAdvanced(env, w, id, ms).0)
  {
    hide Governed, Keeps, Perform, Governing, Clock.Advanced;
    KeepsReflexive(w.files);
    SeenFollows(env, w, id);
  }

  lemma FilesFollow(env: Env, w: World, op: Operation<Definition>)
    requires Governed(env, w) && !op.Edit?
    ensures Follows(w, w.(files := Perform(env.etag, w.files, op)))
  {
    hide Keeps, Perform, Consistent;
    GovernedFiles(env, w);
    PerformKeeps(env.etag, w.files, true, op);
    FollowsFiles(w, w.(files := Perform(env.etag, w.files, op)));
  }

  lemma ExecuteFollows(env: Env, w: World, c: Command)
    requires Governed(env, w)
    ensures Follows(w, Execute(env, w, c))
  {
    hide Governed, Requested, Decided, DeployedScenario, RolledBack, ResetTo, ClockAdvanced, Published, Perform,
      Keeps, Follows, SaveWrites, SaveOutcome, WellFormed, Moved, AllReset;
    FollowsSelf(w);
    match c
    case Configure(id, d, actor, expected, budget) => FilesFollow(env, w, Save(id, d, actor, expected, budget));
    case View(id, budget) => FilesFollow(env, w, Look(id, budget));
    case UpdatePolicy(policy) =>
      KeepsReflexive(w.files);
      FollowsFiles(w, w.(policy := policy));
    case RequestReview(id, revision, actor) => RequestFollows(env, w, id, revision, actor);
    case DecideReview(id, number, approved, actor) => DecideFollows(env, w, id, number, approved, actor);
    case DeployScenario(id, actor, revision) => DeployFollows(env, w, id, actor, revision, None);
    case Rollback(id, number, actor) => RollbackFollows(env, w, id, number, actor);
    case ResetScenario(id) => ResetFollows(env, w, id);
    case AdvanceClock(id, ms) => ClockFollows(env, w, id, ms);
    case PublishEvent(ids, topic) => PublishFollows(env, w, ids, topic);
    case ResetAllScenarios =>
      AllResetStep(env, w);
      FollowsFiles(w, AllReset(env, w));
    case Call(id, request) => CallFollows(w, id, request);
  }

  lemma CallFollows(w: World, id: string, req: Request)
    ensures Follows(w, Requesting(w, id, req))
  {
    hide Step, Keeps;
    KeepsReflexive(w.files);
  }

  /** Over any run, from any point to the end: committed revisions are kept, releases
      are only appended, and decided reviews never change again. */
  lemma {:induction false} RunFollows(env: Env, w: World, commands: seq<Command>)
    requires Governed(env, w)
    ensures Follows(w, ExecuteAll(env, w, commands))
    decreases |commands|
  {
    hide Governed, Follows, Execute;
    FollowsSelf(w);
    if commands != [] {
      var front := commands[..|commands| - 1];
      RunFollows(env, w, front);
      RunStaysGoverned(env, w, front);
      ExecuteFollows(env, ExecuteAll(env, w, front), commands[|commands| - 1]);
      FollowsTransitive(env, w, ExecuteAll(env, w, front), ExecuteAll(env, w, commands));
    }
  }
}
