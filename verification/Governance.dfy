/** Reviews, releases and rollbacks over the revision history, and the runtime state they
    govern: each service operation as a function on the whole state of a simulation. */
module Governance {
  import opened Wrappers
  import opened RuntimeModel
  import opened Scenario
  import opened Clock
  import opened Revisions
  import opened RevisionRuns
  import opened Sorting
  import Comparison

  datatype Release = Release(
    number: nat, revision: nat, etag: string, fingerprint: string, mappingCount: nat, actor: string,
    source: Option<nat>)

  datatype Status = Pending | Approved | Rejected

  datatype Review = Review(
    number: nat, revision: nat, etag: string, status: Status, requestedBy: string, decidedBy: Option<string>)

  datatype Policy = Policy(requireApproval: bool, blockBreakingChanges: bool)

  /** What the runtime executes for a deployed scenario, and the state it is in. */
  datatype Running = Running(definition: Definition, state: string)

  datatype ClockFile = ClockFile(state: string, elapsed: nat)

  datatype World = World(
    files: Files<Definition>,
    releases: map<string, seq<Release>>,
    reviews: map<string, seq<Review>>,
    policy: Policy,
    running: map<string, Running>,
    clocks: map<string, ClockFile>)

  /** Hashing, and the contract the scenarios must fit. */
  datatype Env = Env(
    etag: Definition -> string,
    fingerprint: (string, Definition) -> string,
    fits: Definition -> bool)

  datatype Outcome =
    | Completed
    | Deployed(release: Release)
    | ClockMoved(tick: Tick)
    | Refused(reason: Reason)

  datatype Reason =
    | InvalidDefinition | ContractMismatch | EditConflict | UnknownScenario | UnknownRevision | UnknownRelease
    | UnknownReview | PendingReview | AlreadyDecided | BreakingChanges | NotApproved | NotDeployed | Interrupted

  function ReleasesOf(w: World, id: string): seq<Release> { if id in w.releases then w.releases[id] else [] }

  function ReviewsOf(w: World, id: string): seq<Review> { if id in w.reviews then w.reviews[id] else [] }

  // ------------------------------------------------------------------- configuration

  function Configured(env: Env, w: World, id: string, d: Definition, actor: string, expected: Option<string>,
                      budget: nat): (World, Outcome) {
    if !WellFormed(d) then (w, Refused(InvalidDefinition))
    else if !env.fits(d) then (w, Refused(ContractMismatch))
    else
      var after := w.(files := Perform(env.etag, w.files, Save(id, d, actor, expected, budget)));
      if budget < |SaveWrites(env.etag, w.files, id, d, actor, expected)| then (after, Refused(Interrupted))
      else if SaveOutcome(env.etag, w.files, id, d, actor, expected).Saved? then (after, Completed)
      else (after, Refused(EditConflict))
  }

  /** `get_scenario` adopts what is stored, in at most two writes. */
  function Seen(env: Env, w: World, id: string): World {
    w.(files := Perform(env.etag, w.files, Look(id, 2)))
  }

  // ------------------------------------------------------------------------- reviews

  function Requested(env: Env, w: World, id: string, revision: nat, actor: string): (World, Outcome) {
    if id !in w.files.scenarios then (w, Refused(UnknownScenario)) else
      var seen := Seen(env, w, id);
      var reviews := ReviewsOf(w, id);
      if (id, revision) !in seen.files.history then (seen, Refused(UnknownRevision))
      else if exists r | r in reviews ::
        r.revision == revision && r.status == Pending then (seen, Refused(PendingReview))
      else
        var selected := seen.files.history[(id, revision)].metadata;
        var review := Review(|reviews| + 1, selected.revision, selected.etag, Pending, actor, None);
        (seen.(reviews := seen.reviews[id := reviews + [review]]), Completed)
  }

  function Decided(env: Env, w: World, id: string, number: nat, approved: bool, actor: string): (World, Outcome) {
    if id !in w.files.scenarios then (w, Refused(UnknownScenario)) else
      var seen := Seen(env, w, id);
      var reviews := ReviewsOf(w, id);
      if !(1 <= number <= |reviews|) then (seen, Refused(UnknownReview))
      else if reviews[number - 1].status != Pending then (seen, Refused(AlreadyDecided))
      else
        var decided := reviews[number - 1].(status := if approved then Approved else Rejected,
          decidedBy := Some(actor));
        (seen.(reviews := seen.reviews[id := reviews[number - 1 := decided]]), Completed)
  }

  // ---------------------------------------------------------------------- deployments

  predicate HasApproval(reviews: seq<Review>, revision: nat, etag: string) {
    exists r | r in reviews :: r.revision == revision && r.etag == etag && r.status == Approved
  }

  /** Why a revision may not be deployed; rollbacks are always let through. */
  function Blocked(w: World, id: string, revision: nat, source: Option<nat>): Option<Reason>
    requires (id, revision) in w.files.history
  {
    if source.Some? then None
    else if w.policy.blockBreakingChanges && revision > 1 && (id, revision - 1) in w.files.history
      && Comparison.BreakingCount(Comparison.Changes(
           w.files.history[(id, revision - 1)].definition, w.files.history[(id, revision)].definition)) > 0
    then Some(BreakingChanges)
    else if w.policy.requireApproval
      && !HasApproval(ReviewsOf(w, id), w.files.history[(id, revision)].metadata.revision,
        w.files.history[(id, revision)].metadata.etag)
    then Some(NotApproved)
    else None
  }

  function NextRelease(env: Env, w: World, id: string, selected: Revision<Definition>, actor: string,
                       source: Option<nat>): Release {
    Release(
      |ReleasesOf(w, id)| + 1, selected.metadata.revision, selected.metadata.etag,
      env.fingerprint(id, selected.definition), HandlerTotal(selected.definition.states), actor, source)
  }

  /** Revision 0, like none, stands for the head. */
  function Chosen(w: World, id: string, revision: nat): nat { if revision == 0 then Head(w.files, id) else revision }

  function DeployedScenario(env: Env, w: World, id: string, actor: string, revision: nat,
                            source: Option<nat>): (World, Outcome) {
    if id !in w.files.scenarios then (w, Refused(UnknownScenario)) else
      var seen := Seen(env, w, id);
      var n := Chosen(seen, id, revision);
      if (id, n) !in seen.files.history then (seen, Refused(UnknownRevision)) else
        var selected := seen.files.history[(id, n)];
        var blocked := Blocked(seen, id, n, source);
        if blocked.Some? then (seen, Refused(blocked.value))
        else if !env.fits(selected.definition) then (seen, Refused(ContractMismatch))
        else
          var release := NextRelease(env, seen, id, selected, actor, source);
          (seen.(running := seen.running[id := Running(selected.definition, selected.definition.initialState)],
                 releases := seen.releases[id := ReleasesOf(seen, id) + [release]]),
           Deployed(release))
  }

  function RolledBack(env: Env, w: World, id: string, number: nat, actor: string): (World, Outcome) {
    if id !in w.files.scenarios then (w, Refused(UnknownScenario))
    else if !(1 <= number <= |ReleasesOf(w, id)|) then (Seen(env, w, id), Refused(UnknownRelease))
    else DeployedScenario(env, Seen(env, w, id), id, actor, ReleasesOf(w, id)[number - 1].revision, Some(number))
  }

  // ------------------------------------------------------------------ the running scenario

  /** The definition the latest release names; the stored one before any release. */
  function Governing(w: World, id: string): Option<Definition> {
    var releases := ReleasesOf(w, id);
    if releases == [] then
      if id in w.files.scenarios then Some(w.files.scenarios[id]) else None
    else
      var key := (id, releases[|releases| - 1].revision);
      if key in w.files.history then Some(w.files.history[key].definition) else None
  }

  function Moved(w: World, id: string, state: string): World
    requires id in w.running
  {
    w.(running := w.running[id := w.running[id].(state := state)])
  }

  function ResetTo(env: Env, w: World, id: string): (World, Outcome) {
    if id !in w.files.scenarios then (w, Refused(UnknownScenario)) else
      var seen := Seen(env, w, id);
      if id !in seen.running then (seen, Refused(NotDeployed))
      else
        match Governing(seen, id)
        case None => (seen, Refused(UnknownRevision))
        case Some(d) => (Moved(seen, id, ResetState(d)), Completed)
  }

  function ElapsedIn(w: World, id: string, state: string): nat {
    if id in w.clocks && w.clocks[id].state == state then w.clocks[id].elapsed else 0
  }

  function ClockAdvanced(env: Env, w: World, id: string, ms: nat): (World, Outcome) {
    if id !in w.files.scenarios then (w, Refused(UnknownScenario)) else
      var seen := Seen(env, w, id);
      if id !in seen.running then (seen, Refused(NotDeployed))
      else
        match Governing(seen, id)
        case None => (seen, Refused(UnknownRevision))
        case Some(d) =>
          var tick := Clock.Advanced(d, seen.running[id].state, ElapsedIn(seen, id, seen.running[id].state) + ms);
          match tick
          case Ticked(state, elapsed, _) =>
            (Moved(seen, id, state).(clocks := seen.clocks[id := ClockFile(state, elapsed)]), ClockMoved(tick))
          case _ => (seen, ClockMoved(tick))
  }

  function EventTarget(transitions: seq<EventTransition>, topic: string): Option<string> {
    if transitions == [] then None
    else if transitions[0].topic == topic then Some(transitions[0].newState)
    else EventTarget(transitions[1..], topic)
  }

  /** The event as one scenario sees it. An undeclared state would stop the loop here. */
  function EventSeen(env: Env, w: World, id: string, topic: string): (World, Outcome) {
    if id !in w.files.scenarios then (w, Completed) else
      var seen := Seen(env, w, id);
      if id !in seen.running then (seen, Completed)
      else
        match Governing(seen, id)
        case None => (seen, Refused(UnknownRevision))
        case Some(d) =>
          match StateIndex(d.states, seen.running[id].state)
          case None => (seen, ClockMoved(UnknownState))
          case Some(i) =>
            match EventTarget(d.states[i].eventTransitions, topic)
            case None => (seen, Completed)
            case Some(target) => (Moved(seen, id, target), Completed)
  }

  /** The scenarios are visited in some order until one fails. */
  function Published(env: Env, w: World, ids: seq<string>, topic: string): (World, Outcome) {
    if ids == [] then (w, Completed) else
      var (before, outcome) := Published(env, w, ids[..|ids| - 1], topic);
      if outcome != Completed then (before, outcome) else EventSeen(env, before, ids[|ids| - 1], topic)
  }

  /** The runtime's own reset knows no definitions: every scenario goes to Started. */
  function Restarted(w: World): World {
    w.(running := map id | id in w.running :: w.running[id].(state := "Started"))
  }

  /** After it, one scenario is put into its reset state if it is deployed. */
  function ResetOne(env: Env, w: World, id: string): World {
    if id !in w.files.scenarios then w else
      var seen := if ReleasesOf(w, id) == [] then w else Seen(env, w, id);
      match Governing(seen, id)
      case None => seen
      case Some(d) => if id in seen.running then Moved(seen, id, ResetState(d)) else seen
  }

  function ResetEach(env: Env, w: World, ids: seq<string>): World {
    if ids == [] then w else ResetOne(env, ResetEach(env, w, ids[..|ids| - 1]), ids[|ids| - 1])
  }

  function AllReset(env: Env, w: World): World { ResetEach(env, Restarted(w), SortedTexts(w.files.scenarios.Keys)) }

  /** A request to a deployed scenario runs its machine one step. */
  function Requesting(w: World, id: string, req: Request): World {
    if id in w.running then Moved(w, id, Step(w.running[id].definition, w.running[id].state, req).0) else w
  }

  // ---------------------------------------------------------------------------- runs

  datatype Command =
    | Configure(id: string, definition: Definition, actor: string, expected: Option<string>, budget: nat)
    | View(id: string, budget: nat)
    | UpdatePolicy(policy: Policy)
    | RequestReview(id: string, revision: nat, actor: string)
    | DecideReview(id: string, number: nat, approved: bool, actor: string)
    | DeployScenario(id: string, actor: string, revision: nat)
    | Rollback(id: string, number: nat, actor: string)
    | ResetScenario(id: string)
    | AdvanceClock(id: string, ms: nat)
    | PublishEvent(ids: seq<string>, topic: string)
    | ResetAllScenarios
    | Call(id: string, request: Request)

  function Execute(env: Env, w: World, c: Command): World {
    match c
    case Configure(id, d, actor, expected, budget) => Configured(env, w, id, d, actor, expected, budget).0
    case View(id, budget) => w.(files := Perform(env.etag, w.files, Look(id, budget)))
    case UpdatePolicy(policy) => w.(policy := policy)
    case RequestReview(id, revision, actor) => Requested(env, w, id, revision, actor).0
    case DecideReview(id, number, approved, actor) => Decided(env, w, id, number, approved, actor).0
    case DeployScenario(id, actor, revision) => DeployedScenario(env, w, id, actor, revision, None).0
    case Rollback(id, number, actor) => RolledBack(env, w, id, number, actor).0
    case ResetScenario(id) => ResetTo(env, w, id).0
    case AdvanceClock(id, ms) => ClockAdvanced(env, w, id, ms).0
    case PublishEvent(ids, topic) => Published(env, w, ids, topic).0
    case ResetAllScenarios => AllReset(env, w)
    case Call(id, request) => Requesting(w, id, request)
  }

  function ExecuteAll(env: Env, w: World, commands: seq<Command>): World {
    if commands == [] then w else Execute(env, ExecuteAll(env, w, commands[..|commands| - 1]), commands[|commands| - 1])
  }
}
