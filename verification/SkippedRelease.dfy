/** A run of the service that loses a released state although breaking changes are
    blocked: each revision is compared with the one before it only. */
module SkippedRelease {
  import opened Wrappers
  import opened Scenario
  import opened Revisions
  import opened RevisionRuns
  import opened Governance
  import Comparison
  import Evolution
  import Planner

  type Stored = Files<Definition>

  /** The metadata describe the stored content. */
  predicate UpToDate(env: Env, files: Stored, id: string) {
    id in files.scenarios && id in files.metadata && files.metadata[id].etag == env.etag(files.scenarios[id])
  }

  lemma LookNothing(env: Env, files: Stored, id: string, budget: nat)
    requires UpToDate(env, files, id)
    ensures Perform(env.etag, files, Look(id, budget)) == files
  {
  }

  /** The files after a save of new content. */
  function Saving(env: Env, files: Stored, id: string, d: Definition, actor: string): Stored {
    var m := Metadata(Head(files, id) + 1, env.etag(d), actor);
    Files(files.scenarios[id := d], files.history[(id, m.revision) := Revision(m, d)], files.metadata[id := m])
  }

  lemma PublishThree(files: Stored, id: string, m: Metadata, d: Definition)
    ensures ApplyAll(files, PublishWrites(id, m, d))
      == Files(files.scenarios[id := d], files.history[(id, m.revision) := Revision(m, d)], files.metadata[id := m])
  {
    var writes := PublishWrites(id, m, d);
    ApplyAppend(files, [writes[0], writes[1]], [writes[2]]);
    assert [writes[0], writes[1]] + [writes[2]] == writes;
    ApplyTwo(files, writes[0], writes[1]);
  }

  lemma SaveAppends(env: Env, files: Stored, id: string, d: Definition, actor: string)
    requires UpToDate(env, files, id) && env.etag(d) != files.metadata[id].etag
    ensures Perform(env.etag, files, Save(id, d, actor, None, 3)) == Saving(env, files, id, d, actor)
  {
    var m := Metadata(Head(files, id) + 1, env.etag(d), actor);
    assert SaveWrites(env.etag, files, id, d, actor, None) == [] + PublishWrites(id, m, d);
    assert [] + PublishWrites(id, m, d) == PublishWrites(id, m, d);
    PublishThree(files, id, m, d);
  }

  lemma FirstSaved(env: Env, id: string, d: Definition, actor: string)
    ensures var empty: Stored := Files(map[], map[], map[]);
      Perform(env.etag, empty, Save(id, d, actor, None, 3)) == Saving(env, empty, id, d, actor)
  {
    PublishThree(Files(map[], map[], map[]), id, Metadata(1, env.etag(d), actor), d);
  }

  lemma ConfigureAppends(env: Env, w: World, id: string, d: Definition, actor: string)
    requires WellFormed(d) && env.fits(d)
    requires
      || (UpToDate(env, w.files, id) && env.etag(d) != w.files.metadata[id].etag)
      || w.files == Files(map[], map[], map[])
    ensures Execute(env, w, Configure(id, d, actor, None, 3)) == w.(files := Saving(env, w.files, id, d, actor))
  {
    hide Perform, WellFormed;
    if w.files == Files(map[], map[], map[]) {
      FirstSaved(env, id, d, actor);
    } else {
      SaveAppends(env, w.files, id, d, actor);
    }
  }

  /** Deploying an unblocked head that fits. */
  lemma HeadDeploys(env: Env, w: World, id: string, actor: string)
    requires UpToDate(env, w.files, id) && (id, Head(w.files, id)) in w.files.history
    requires Blocked(w, id, Head(w.files, id), None) == None
    requires env.fits(w.files.history[(id, Head(w.files, id))].definition)
    ensures var d := w.files.history[(id, Head(w.files, id))].definition;
      var (after, outcome) := DeployedScenario(env, w, id, actor, 0, None);
      && outcome.Deployed? && after.files == w.files && after.policy == w.policy
      && after.running == w.running[id := Running(d, d.initialState)]
  {
    LookNothing(env, w.files, id, 2);
    hide Perform, Blocked;
  }

  function Blocking(): World {
    World(Files(map[], map[], map[]), map[], map[], Policy(false, true), map[], map[])
  }

  /** Save and release a first revision, then save a second and a third. */
  function Preparation(id: string, first: Definition, second: Definition, third: Definition,
                       actor: string): seq<Command> {
    [Configure(id, first, actor, None, 3), DeployScenario(id, actor, 0),
     Configure(id, second, actor, None, 3), Configure(id, third, actor, None, 3)]
  }

  lemma ExecuteSnoc(env: Env, w: World, commands: seq<Command>, c: Command)
    ensures ExecuteAll(env, w, commands + [c]) == Execute(env, ExecuteAll(env, w, commands), c)
  {
    assert (commands + [c])[..|commands|] == commands;
  }

  lemma ExecuteFour(env: Env, w: World, a: Command, b: Command, c: Command, d: Command)
    ensures ExecuteAll(env, w, [a, b, c, d]) == Execute(env, Execute(env, Execute(env, Execute(env, w, a), b), c), d)
  {
    hide Execute, ExecuteAll;
    ExecuteSnoc(env, w, [], a);
    ExecuteSnoc(env, w, [a], b);
    ExecuteSnoc(env, w, [a, b], c);
    ExecuteSnoc(env, w, [a, b, c], d);
    assert [] + [a] == [a] && [a] + [b] == [a, b] && [a, b] + [c] == [a, b, c] && [a, b, c] + [d] == [a, b, c, d];
    ExecuteNothing(env, w);
  }

  lemma ExecuteNothing(env: Env, w: World)
    ensures ExecuteAll(env, w, []) == w
  {
  }

  /** What the preparation leaves: the first revision running, three revisions stored. */
  lemma Prepared(env: Env, id: string, first: Definition, second: Definition, third: Definition, actor: string)
    requires WellFormed(first) && WellFormed(second) && WellFormed(third)
    requires env.fits(first) && env.fits(second) && env.fits(third)
    requires env.etag(first) != env.etag(second) && env.etag(second) != env.etag(third)
    ensures var w := ExecuteAll(env, Blocking(), Preparation(id, first, second, third, actor));
      && w.policy == Policy(false, true) && w.running == map[id := Running(first, first.initialState)]
      && UpToDate(env, w.files, id) && Head(w.files, id) == 3
      && (id, 2) in w.files.history && w.files.history[(id, 2)].definition == second
      && (id, 3) in w.files.history && w.files.history[(id, 3)].definition == third
  {
    hide WellFormed, Comparison.Changes, Comparison.BreakingCount, Configured, DeployedScenario;
    var commands := Preparation(id, first, second, third, actor);
    var w0 := Blocking();
    ExecuteFour(env, w0, commands[0], commands[1], commands[2], commands[3]);
    ConfigureAppends(env, w0, id, first, actor);
    var w1 := Execute(env, w0, commands[0]);
    HeadDeploys(env, w1, id, actor);
    var w2 := Execute(env, w1, commands[1]);
    ConfigureAppends(env, w2, id, second, actor);
    var w3 := Execute(env, w2, commands[2]);
    ConfigureAppends(env, w3, id, third, actor);
  }

  /** From three such definitions on: if the third compares clean with the second, it is
      deployed over the first, whatever the first had. */
  lemma SkippedDeploys(env: Env, id: string, first: Definition, second: Definition, third: Definition, actor: string)
    requires WellFormed(first) && WellFormed(second) && WellFormed(third)
    requires env.fits(first) && env.fits(second) && env.fits(third)
    requires env.etag(first) != env.etag(second) && env.etag(second) != env.etag(third)
    requires Comparison.BreakingCount(Comparison.Changes(second, third)) == 0
    ensures var w := ExecuteAll(env, Blocking(), Preparation(id, first, second, third, actor));
      var (after, outcome) := DeployedScenario(env, w, id, actor, 0, None);
      && w.policy.blockBreakingChanges && outcome.Deployed?
      && id in w.running && w.running[id].definition == first
      && id in after.running && after.running[id].definition == third
  {
    hide WellFormed, Comparison.Changes, Comparison.BreakingCount, DeployedScenario, ExecuteAll;
    Prepared(env, id, first, second, third, actor);
    HeadDeploys(env, ExecuteAll(env, Blocking(), Preparation(id, first, second, third, actor)), id, actor);
  }

  /** So the service can lose a released state with breaking changes blocked throughout:
      "done" is reachable in what runs before the last deployment, not after it. */
  lemma ReleasedStateLost(env: Env, id: string, actor: string)
    requires var first, second, third :=
        Evolution.Shrinking(true, "a"), Evolution.Shrinking(false, "a"), Evolution.Shrinking(false, "b");
      && env.fits(first) && env.fits(second) && env.fits(third)
      && env.etag(first) != env.etag(second) && env.etag(second) != env.etag(third)
    ensures var first, second, third :=
        Evolution.Shrinking(true, "a"), Evolution.Shrinking(false, "a"), Evolution.Shrinking(false, "b");
      var w := ExecuteAll(env, Blocking(), Preparation(id, first, second, third, actor));
      var (after, outcome) := DeployedScenario(env, w, id, actor, 0, None);
      && w.policy.blockBreakingChanges && outcome.Deployed? && id in w.running && id in after.running
      && Planner.Reachable(w.running[id].definition, "done")
      && !Planner.Reachable(after.running[id].definition, "done")
  {
    Evolution.SkippedRevisionBreaks();
    hide WellFormed, Comparison.Changes, Comparison.BreakingCount, DeployedScenario, ExecuteAll,
      Evolution.Shrinking, Planner.Reachable;
    SkippedDeploys(
      env, id, Evolution.Shrinking(true, "a"), Evolution.Shrinking(false, "a"), Evolution.Shrinking(false, "b"), actor);
  }
}
