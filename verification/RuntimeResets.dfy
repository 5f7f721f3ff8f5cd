/** What stays true when the runtime is also reset on its own, as an evidence run does:
    everything but the states, which may be Started although nothing declares it. */
module RuntimeResets {
  import opened Wrappers
  import opened RuntimeModel
  import opened Scenario
  import opened Clock
  import opened Revisions
  import opened RevisionRuns
  import opened Governance
  import opened GovernanceInvariant
  import opened Sorting
  import Comparison

  ghost predicate NearDeclared(r: Running) { r.state in StateNames(r.definition) || r.state == "Started" }

  /** Governed, but for states that a runtime reset left. */
  ghost predicate NearGoverned(env: Env, w: World) {
    Governed(env, AtStart(w)) && forall id | id in w.running :: NearDeclared(w.running[id])
  }

  datatype Happening =
    | Serve(command: Command)
    | ResetRuntime

  function Take(env: Env, w: World, s: Happening): World {
    match s
    case Serve(command) => Execute(env, w, command)
    case ResetRuntime => Restarted(w)
  }

  function TakeAll(env: Env, w: World, steps: seq<Happening>): World {
    if steps == [] then w else Take(env, TakeAll(env, w, steps[..|steps| - 1]), steps[|steps| - 1])
  }

  // ------------------------------------------------------------ states play no part

  predicate Filing(c: Command) {
    c.Configure? || c.View? || c.UpdatePolicy? || c.RequestReview? || c.DecideReview?
  }

  lemma FilingSpares(env: Env, w: World, c: Command)
    requires Filing(c)
    ensures Execute(env, w, c).running == w.running && Execute(env, AtStart(w), c) == AtStart(Execute(env, w, c))
  {
    hide AtStart, Configured, Requested, Decided, Perform;
    AtStartFields(w);
    match c
    case Configure(id, d, actor, expected, budget) => ConfigureSpares(env, w, id, d, actor, expected, budget);
    case View(id, budget) => OnlyStates(w, w.(files := Perform(env.etag, w.files, Look(id, budget))));
    case UpdatePolicy(policy) => OnlyStates(w, w.(policy := policy));
    case RequestReview(id, revision, actor) => RequestSpares(env, w, id, revision, actor);
    case DecideReview(id, number, approved, actor) => DecideSpares(env, w, id, number, approved, actor);
  }

  /** Worlds that run the same differ as much after a start. */
  lemma OnlyStates(w: World, after: World)
    requires after.running == w.running
    ensures AtStart(after) == after.(running := AtStart(w).running)
  {
  }

  lemma ConfigureSpares(env: Env, w: World, id: string, d: Definition, actor: string, expected: Option<string>,
                        budget: nat)
    ensures var (after, outcome) := Configured(env, w, id, d, actor, expected, budget);
      after.running == w.running
      && Configured(env, AtStart(w), id, d, actor, expected, budget) == (AtStart(after), outcome)
  {
    hide AtStart, Perform, SaveWrites, SaveOutcome, WellFormed;
    AtStartFields(w);
    OnlyStates(w, Configured(env, w, id, d, actor, expected, budget).0);
  }

  lemma RequestSpares(env: Env, w: World, id: string, revision: nat, actor: string)
    ensures var (after, outcome) := Requested(env, w, id, revision, actor);
      after.running == w.running && Requested(env, AtStart(w), id, revision, actor) == (AtStart(after), outcome)
  {
    hide AtStart, Perform;
    AtStartFields(w);
    OnlyStates(w, Requested(env, w, id, revision, actor).0);
  }

  lemma DecideSpares(env: Env, w: World, id: string, number: nat, approved: bool, actor: string)
    ensures var (after, outcome) := Decided(env, w, id, number, approved, actor);
      after.running == w.running && Decided(env, AtStart(w), id, number, approved, actor) == (AtStart(after), outcome)
  {
    hide AtStart, Perform;
    AtStartFields(w);
    OnlyStates(w, Decided(env, w, id, number, approved, actor).0);
  }

  lemma SeenAtStart(env: Env, w: World, id: string)
    ensures Seen(env, AtStart(w), id) == AtStart(Seen(env, w, id)) && Seen(env, w, id).running == w.running
  {
    hide Perform;
  }

  lemma DeploySpares(env: Env, w: World, id: string, actor: string, revision: nat, source: Option<nat>)
    ensures var (after, outcome) := DeployedScenario(env, w, id, actor, revision, source);
      && DeployedScenario(env, AtStart(w), id, actor, revision, source) == (AtStart(after), outcome)
      && forall other | other in after.running ::
           (other in w.running && after.running[other] == w.running[other])
           || after.running[other].state == after.running[other].definition.initialState
  {
    hide Seen, AtStart, Blocked, NextRelease;
    SeenAtStart(env, w, id);
    AtStartFields(w);
    AtStartFields(Seen(env, w, id));
    var seen := Seen(env, w, id);
    var n := Chosen(seen, id, revision);
    if id in w.files.scenarios && (id, n) in seen.files.history {
      BlockedAtStart(env, seen, id, n, actor, source);
      var release := NextRelease(env, seen, id, seen.files.history[(id, n)], actor, source);
      DeployedAtStart(seen, id, seen.files.history[(id, n)].definition,
        seen.releases[id := ReleasesOf(seen, id) + [release]]);
    }
  }

  lemma AtStartFields(w: World)
    ensures var s := AtStart(w);
      && s.files == w.files && s.releases == w.releases && s.reviews == w.reviews && s.policy == w.policy
      && s.clocks == w.clocks && s.running.Keys == w.running.Keys
      && forall id | id in w.running :: s.running[id].definition == w.running[id].definition
  {
  }

  lemma BlockedAtStart(env: Env, w: World, id: string, n: nat, actor: string, source: Option<nat>)
    requires (id, n) in w.files.history
    ensures Blocked(AtStart(w), id, n, source) == Blocked(w, id, n, source)
    ensures NextRelease(env, AtStart(w), id, w.files.history[(id, n)], actor, source)
      == NextRelease(env, w, id, w.files.history[(id, n)], actor, source)
  {
    hide AtStart, Comparison.Changes, Comparison.BreakingCount;
    AtStartFields(w);
  }

  lemma DeployedAtStart(w: World, id: string, d: Definition, releases: map<string, seq<Release>>)
    ensures AtStart(w.(running := w.running[id := Running(d, d.initialState)], releases := releases))
      == AtStart(w).(running := AtStart(w).running[id := Running(d, d.initialState)], releases := releases)
  {
  }

  lemma RollbackSpares(env: Env, w: World, id: string, number: nat, actor: string)
    ensures var (after, outcome) := RolledBack(env, w, id, number, actor);
      && RolledBack(env, AtStart(w), id, number, actor) == (AtStart(after), outcome)
      && forall other | other in after.running ::
           (other in w.running && after.running[other] == w.running[other])
           || after.running[other].state == after.running[other].definition.initialState
  {
    hide Seen, AtStart, DeployedScenario;
    SeenAtStart(env, w, id);
    AtStartFields(w);
    if id in w.files.scenarios && 1 <= number <= |ReleasesOf(w, id)| {
      DeploySpares(env, Seen(env, w, id), id, actor, ReleasesOf(w, id)[number - 1].revision, Some(number));
    }
  }

  lemma InitialsNear(env: Env, w: World)
    requires Governed(env, AtStart(w))
    ensures forall id | id in w.running ::
      var d := w.running[id].definition;
      WellFormed(d) && NearDeclared(Running(d, d.initialState))
  {
    hide ReleasesSound, ReviewsSound, Consistent, GovernanceInvariant.Validated, WellFormed, StateNames;
    forall id | id in w.running
      ensures WellFormed(w.running[id].definition)
      ensures w.running[id].definition.initialState in StateNames(w.running[id].definition)
    {
      assert ScenarioSound(env, AtStart(w), id);
      InitialDeclared(w.running[id].definition);
    }
  }

  // ------------------------------------------------------------------ moving states

  lemma MovedAtStart(w: World, id: string, state: string)
    requires id in w.running
    ensures AtStart(Moved(w, id, state)) == AtStart(w) && Moved(w, id, state).running.Keys == w.running.Keys
  {
  }

  lemma MovedNear(env: Env, w: World, id: string, state: string)
    requires NearGoverned(env, w) && id in w.running
    requires NearDeclared(Running(w.running[id].definition, state))
    ensures NearGoverned(env, Moved(w, id, state))
  {
    hide Governed, AtStart, StateNames;
    MovedAtStart(w, id, state);
  }

  lemma SeenNear(env: Env, w: World, id: string)
    requires NearGoverned(env, w)
    ensures NearGoverned(env, Seen(env, w, id)) && Seen(env, w, id).running == w.running
    ensures id in w.running ==>
      Governing(Seen(env, w, id), id) == Some(w.running[id].definition) && WellFormed(w.running[id].definition)
  {
    hide Governed, Seen, AtStart, Keeps, Leftover, WellFormed, StateNames, Governing, ReleasesSound, ReviewsSound;
    SeenStep(env, AtStart(w), id);
    SeenAtStart(env, w, id);
    AtStartFields(w);
    AtStartFields(Seen(env, w, id));
    ReviewsOfGoverned(env, Seen(env, AtStart(w), id), id);
    GoverningIgnoresStates(Seen(env, w, id), id);
  }

  lemma ResetNear(env: Env, w: World, id: string)
    requires NearGoverned(env, w)
    ensures NearGoverned(env, ResetTo(env, w, id).0)
  {
    hide NearGoverned, Seen, Governing, WellFormed, ResetState, Moved, StateNames;
    if id in w.files.scenarios {
      SeenNear(env, w, id);
      if id in w.running {
        InitialDeclared(w.running[id].definition);
        MovedNear(env, Seen(env, w, id), id, ResetState(w.running[id].definition));
      }
    }
  }

  lemma ClocksNear(env: Env, w: World, clocks: map<string, ClockFile>)
    requires NearGoverned(env, w)
    ensures NearGoverned(env, w.(clocks := clocks))
  {
    hide Governed, StateNames;
    var after := w.(clocks := clocks);
    Unaffected(env, AtStart(w), AtStart(after));
  }

  lemma ClockNear(env: Env, w: World, id: string, ms: nat)
    requires NearGoverned(env, w)
    ensures NearGoverned(env, ClockAdvanced(env, w, id, ms).0)
  {
    hide NearGoverned, Seen, Governing, WellFormed, Moved, TimeoutWalk, StateNames;
    if id in w.files.scenarios {
      SeenNear(env, w, id);
      var seen := Seen(env, w, id);
      if id in w.running {
        var d, state := w.running[id].definition, w.running[id].state;
        var available := ElapsedIn(seen, id, state) + ms;
        if StateIndex(d.states, state).Some? {
          WalkDeclared(d, state, available);
          IndexDeclared(d, state);
          var (walk, elapsed) := TimeoutWalk(d, state, available);
          MovedNear(env, seen, id, Last(state, walk));
          ClocksNear(env, Moved(seen, id, Last(state, walk)), seen.clocks[id := ClockFile(Last(state, walk), elapsed)]);
        }
      }
    }
  }

  lemma IndexDeclared(d: Definition, state: string)
    requires StateIndex(d.states, state).Some?
    ensures state in StateNames(d)
  {
  }

  lemma EventNear(env: Env, w: World, id: string, topic: string)
    requires NearGoverned(env, w)
    ensures NearGoverned(env, EventSeen(env, w, id, topic).0)
  {
    hide NearGoverned, Seen, Governing, WellFormed, Moved, EventTarget, StateNames;
    if id in w.files.scenarios {
      SeenNear(env, w, id);
      if id in w.running {
        var d := w.running[id].definition;
        var i := StateIndex(d.states, w.running[id].state);
        if i.Some? && EventTarget(d.states[i.value].eventTransitions, topic).Some? {
          EventTargetDeclared(d, i.value, topic);
          MovedNear(env, Seen(env, w, id), id, EventTarget(d.states[i.value].eventTransitions, topic).value);
        }
      }
    }
  }

  lemma {:induction false} PublishNear(env: Env, w: World, ids: seq<string>, topic: string)
    requires NearGoverned(env, w)
    ensures NearGoverned(env, Published(env, w, ids, topic).0)
    decreases |ids|
  {
    hide NearGoverned, EventSeen;
    if ids != [] {
      PublishNear(env, w, ids[..|ids| - 1], topic);
      EventNear(env, Published(env, w, ids[..|ids| - 1], topic).0, ids[|ids| - 1], topic);
    }
  }

  lemma CallNear(env: Env, w: World, id: string, req: Request)
    requires NearGoverned(env, w)
    ensures NearGoverned(env, Requesting(w, id, req))
  {
    hide Governed, AtStart, Step, WellFormed, StateNames, Moved;
    InitialsNear(env, w);
    if id in w.running {
      assert NearDeclared(w.running[id]);
      StepStaysDeclared(w.running[id].definition, w.running[id].state, req);
      MovedNear(env, w, id, Step(w.running[id].definition, w.running[id].state, req).0);
    }
  }

  lemma GovernedIsNear(env: Env, w: World)
    requires Governed(env, w)
    ensures NearGoverned(env, w)
  {
    hide Governed, AtStart, StateNames;
    GovernedIff(env, w);
  }

  lemma RestartNear(env: Env, w: World)
    requires NearGoverned(env, w)
    ensures NearGoverned(env, Restarted(w))
  {
    hide Governed, StateNames;
    assert AtStart(Restarted(w)) == AtStart(w);
  }

  /** Resetting all scenarios ends what a runtime reset left. */
  lemma AllResetGoverns(env: Env, w: World)
    requires NearGoverned(env, w)
    ensures Governed(env, AllReset(env, w))
  {
    hide Governed, StateNames, WellFormed, ResetEach, SortedTexts;
    AllResetStep(env, AtStart(w));
    RestartedAlike(w);
  }

  lemma RestartedAlike(w: World)
    ensures Restarted(AtStart(w)) == Restarted(w) && AtStart(w).files == w.files
  {
    assert Restarted(AtStart(w)).running == Restarted(w).running;
  }

  lemma TakeNear(env: Env, w: World, s: Happening)
    requires NearGoverned(env, w)
    ensures NearGoverned(env, Take(env, w, s))
  {
    hide Governed, AtStart, Configured, Requested, Decided, DeployedScenario, RolledBack, ResetTo, ClockAdvanced,
      Published, Requesting, Perform, AllReset, Restarted, StateNames, NearDeclared;
    match s
    case ResetRuntime => RestartNear(env, w);
    case Serve(c) =>
      if Filing(c) {
        ExecuteStep(env, AtStart(w), c);
        FilingSpares(env, w, c);
      } else {
        match c
        case DeployScenario(id, actor, revision) =>
          ExecuteStep(env, AtStart(w), c);
          DeploySpares(env, w, id, actor, revision, None);
          StartedNear(env, w, DeployedScenario(env, w, id, actor, revision, None).0);
        case Rollback(id, number, actor) =>
          ExecuteStep(env, AtStart(w), c);
          RollbackSpares(env, w, id, number, actor);
          StartedNear(env, w, RolledBack(env, w, id, number, actor).0);
        case ResetScenario(id) => ResetNear(env, w, id);
        case AdvanceClock(id, ms) => ClockNear(env, w, id, ms);
        case PublishEvent(ids, topic) => PublishNear(env, w, ids, topic);
        case ResetAllScenarios =>
          AllResetGoverns(env, w);
          GovernedIsNear(env, AllReset(env, w));
        case Call(id, request) => CallNear(env, w, id, request);
      }
  }

  lemma StartedNear(env: Env, w: World, after: World)
    requires NearGoverned(env, w) && Governed(env, AtStart(after))
    requires forall other | other in after.running ::
      (other in w.running && after.running[other] == w.running[other])
      || after.running[other].state == after.running[other].definition.initialState
    ensures NearGoverned(env, after)
  {
    hide Governed, AtStart, StateNames;
    InitialsNear(env, after);
  }

  /** Over every run of service operations and runtime resets: the runtime runs the latest
      releases, all records are sound, and a state is declared or is Started. */
  lemma {:induction false} RunStaysNear(env: Env, w: World, steps: seq<Happening>)
    requires NearGoverned(env, w)
    ensures NearGoverned(env, TakeAll(env, w, steps))
    decreases |steps|
  {
    hide NearGoverned, Take;
    if steps != [] {
      var front := steps[..|steps| - 1];
      RunStaysNear(env, w, front);
      TakeNear(env, TakeAll(env, w, front), steps[|steps| - 1]);
    }
  }

  /** So a run ends governed exactly when no scenario is left in an undeclared Started. */
  lemma RunGovernedIff(env: Env, w: World, steps: seq<Happening>)
    requires NearGoverned(env, w)
    ensures var after := TakeAll(env, w, steps);
      Governed(env, after) <==> forall id | id in after.running && after.running[id].state == "Started" ::
        "Started" in StateNames(after.running[id].definition)
  {
    hide Governed, AtStart, StateNames, Take;
    RunStaysNear(env, w, steps);
    GovernedIff(env, TakeAll(env, w, steps));
  }
}
