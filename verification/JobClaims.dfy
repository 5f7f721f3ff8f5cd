/** Background jobs: the request that creates a job and the worker loop compete for it,
    and a restart puts interrupted jobs back in the queue. */
module JobClaims {
  import opened Wrappers
  import opened Text

  datatype Status = Queued | Running | Succeeded | Failed

  /** `created` is the time stamp jobs are ordered by, before their id. */
  datatype Job = Job(created: string, status: Status)

  type Jobs = map<string, Job>

  predicate Before(jobs: Jobs, a: string, b: string)
    requires a in jobs && b in jobs
  {
    if jobs[a].created == jobs[b].created then TextLeq(a, b) else TextLeq(jobs[a].created, jobs[b].created)
  }

  /** Queued, and no queued job comes before it. */
  predicate Next(jobs: Jobs, id: string) {
    && id in jobs && jobs[id].status == Queued
    && forall other | other in jobs && jobs[other].status == Queued :: Before(jobs, id, other)
  }

  function Marked(jobs: Jobs, id: string, status: Status): Jobs
    requires id in jobs
  {
    jobs[id := jobs[id].(status := status)]
  }

  function Recovered(jobs: Jobs): Jobs {
    map id | id in jobs :: if jobs[id].status == Running then jobs[id].(status := Queued) else jobs[id]
  }

  lemma BeforeTotal(jobs: Jobs, a: string, b: string)
    requires a in jobs && b in jobs
    ensures Before(jobs, a, b) || Before(jobs, b, a)
  {
    TextLeqTotal(a, b);
    TextLeqTotal(jobs[a].created, jobs[b].created);
  }

  lemma BeforeTransitive(jobs: Jobs, a: string, b: string, c: string)
    requires a in jobs && b in jobs && c in jobs && Before(jobs, a, b) && Before(jobs, b, c)
    ensures Before(jobs, a, c)
  {
    var x, y, z := jobs[a].created, jobs[b].created, jobs[c].created;
    TextLeqTotal(x, y);
    TextLeqTotal(y, z);
    if x == y && y == z {
      TextLeqTransitive(a, b, c);
    } else {
      TextLeqTransitive(x, y, z);
      TextLeqTotal(x, z);
    }
  }

  predicate IsFirst(jobs: Jobs, ids: set<string>, id: string)
    requires forall other | other in ids :: other in jobs
  {
    id in ids && forall other | other in ids :: Before(jobs, id, other)
  }

  lemma FirstOfTwo(jobs: Jobs, ids: set<string>, x: string, first: string)
    requires x in ids && (forall other | other in ids :: other in jobs) && IsFirst(jobs, ids - {x}, first)
    ensures IsFirst(jobs, ids, if Before(jobs, first, x) then first else x)
  {
    hide Before;
    BeforeTotal(jobs, x, x);
    BeforeTotal(jobs, first, x);
    forall other | other in ids && !Before(jobs, first, x) ensures Before(jobs, x, other) {
      if other != x {
        BeforeTransitive(jobs, x, first, other);
      }
    }
  }

  lemma FirstOfOne(jobs: Jobs, ids: set<string>, x: string)
    requires x in ids && x in jobs && ids - {x} == {}
    ensures ids == {x} && IsFirst(jobs, ids, x)
  {
    hide Before;
    BeforeTotal(jobs, x, x);
    assert ids == {x};
  }

  lemma {:induction false} NextExists(jobs: Jobs, ids: set<string>)
    requires ids != {} && forall id | id in ids :: id in jobs
    ensures exists id :: IsFirst(jobs, ids, id)
  {
    hide IsFirst, Before;
    var x :| x in ids;
    if ids - {x} == {} {
      FirstOfOne(jobs, ids, x);
    } else {
      NextExists(jobs, ids - {x});
      var first :| IsFirst(jobs, ids - {x}, first);
      FirstOfTwo(jobs, ids, x, first);
    }
  }

  class PlatformStore {
    var jobs: Jobs

    /** Opening the store requeues what an earlier process left running. */
    constructor (stored: Jobs)
      ensures jobs == Recovered(stored)
    {
      jobs := map id | id in stored ::
        if stored[id].status == Running then stored[id].(status := Queued) else stored[id];
    }

    method ClaimJob(id: string) returns (claimed: bool)
      modifies this
      ensures claimed <==> id in old(jobs) && old(jobs)[id].status == Queued
      ensures jobs == if claimed then Marked(old(jobs), id, Running) else old(jobs)
    {
      claimed := id in jobs && jobs[id].status == Queued;
      if claimed {
        jobs := jobs[id := jobs[id].(status := Running)];
      }
    }

    /** Claims the first queued job in order of creation time and id. */
    method ClaimNextJob() returns (id: Option<string>)
      modifies this
      ensures id == None ==> jobs == old(jobs) && forall other | other in jobs :: jobs[other].status != Queued
      ensures id.Some? ==> Next(old(jobs), id.value) && jobs == Marked(old(jobs), id.value, Running)
    {
      var queued := set other | other in jobs && jobs[other].status == Queued;
      if queued == {} {
        assert forall other | other in jobs :: other !in queued;
        return None;
      }
      NextExists(jobs, queued);
      var row :| row in jobs && Next(jobs, row);
      jobs := jobs[row := jobs[row].(status := Running)];
      id := Some(row);
    }

    method UpdateJob(id: string, status: Status) returns (found: bool)
      modifies this
      ensures found <==> id in old(jobs)
      ensures jobs == if found then Marked(old(jobs), id, status) else old(jobs)
    {
      found := id in jobs;
      if found {
        jobs := jobs[id := jobs[id].(status := status)];
      }
    }
  }

  /** Runs one job at a time: claims it, executes it, records how it ended. */
  class JobRunner {
    const store: PlatformStore

    constructor (store: PlatformStore)
      ensures this.store == store
    {
      this.store := store;
    }

    /** `succeeds` is how the work of the job ends; false when it was not queued. */
    method ExecuteJob(id: string, succeeds: bool) returns (ran: bool)
      modifies store
      ensures ran <==> id in old(store.jobs) && old(store.jobs)[id].status == Queued
      ensures store.jobs
        == if ran then Marked(old(store.jobs), id, if succeeds then Succeeded else Failed) else old(store.jobs)
    {
      ran := store.ClaimJob(id);
      if ran {
        var found := store.UpdateJob(id, if succeeds then Succeeded else Failed);
      }
    }

    /** The worker loop's turn: the first queued job, if any. */
    method ExecuteNext(succeeds: bool) returns (id: Option<string>)
      modifies store
      ensures id == None ==> store.jobs == old(store.jobs)
      ensures id.Some? ==>
        && Next(old(store.jobs), id.value)
        && store.jobs == Marked(old(store.jobs), id.value, if succeeds then Succeeded else Failed)
    {
      id := store.ClaimNextJob();
      if id.Some? {
        var found := store.UpdateJob(id.value, if succeeds then Succeeded else Failed);
      }
    }
  }

  // --------------------------------------------------------------------------- runs

  /** `active` are the executions in progress in this process, `started` counts those
      begun since it started, `total` all there ever were. */
  datatype World = World(
    jobs: Jobs, active: seq<string>, started: map<string, nat>, total: map<string, nat>, restarts: nat)

  function Count(counts: map<string, nat>, id: string): nat { if id in counts then counts[id] else 0 }

  /** The request tries the job it created, the worker the one it selected earlier; an
      execution ends by recording success or failure; a restart loses executions. */
  datatype Move =
    | Create(id: string, created: string)
    | Claim(id: string)
    | Finish(execution: nat, succeeded: bool)
    | Restart

  function Step(w: World, m: Move): World {
    match m
    case Create(id, created) => if id in w.jobs then w else w.(jobs := w.jobs[id := Job(created, Queued)])
    case Claim(id) =>
      if id in w.jobs && w.jobs[id].status == Queued then
        w.(jobs := Marked(w.jobs, id, Running), active := w.active + [id],
           started := w.started[id := Count(w.started, id) + 1], total := w.total[id := Count(w.total, id) + 1])
      else w
    case Finish(k, succeeded) =>
      if k < |w.active| && w.active[k] in w.jobs then
        w.(jobs := Marked(w.jobs, w.active[k], if succeeded then Succeeded else Failed),
           active := w.active[..k] + w.active[k + 1..])
      else w
    case Restart => w.(jobs := Recovered(w.jobs), active := [], started := map[], restarts := w.restarts + 1)
  }

  function Run(w: World, moves: seq<Move>): World {
    if moves == [] then w else Step(Run(w, moves[..|moves| - 1]), moves[|moves| - 1])
  }

  ghost predicate DistinctActive(w: World) {
    forall i, j | 0 <= i < j < |w.active| :: w.active[i] != w.active[j]
  }

  /** A job is running exactly while one execution of it is in progress, and it has been
      started in this process exactly when it is no longer queued by it. */
  ghost predicate JobSound(w: World, id: string) {
    && (id in w.active <==> id in w.jobs && w.jobs[id].status == Running)
    && Count(w.started, id) <= 1
    && (id in w.jobs && w.jobs[id].status == Queued ==> Count(w.started, id) == 0)
    && (id !in w.jobs ==> Count(w.started, id) == 0)
    && Count(w.total, id) <= w.restarts + Count(w.started, id)
  }

  ghost predicate Invariant(w: World) { DistinctActive(w) && forall id :: JobSound(w, id) }

  lemma ClaimKeeps(w: World, id: string)
    requires Invariant(w)
    ensures Invariant(Step(w, Claim(id)))
  {
    var after := Step(w, Claim(id));
    forall other ensures JobSound(after, other) {
      assert JobSound(w, other) && JobSound(w, id);
      if after.active == w.active + [id] { assert other in after.active <==> other in w.active || other == id; }
    }
    assert JobSound(w, id);
  }

  lemma FinishKeeps(w: World, k: nat, succeeded: bool)
    requires Invariant(w)
    ensures Invariant(Step(w, Finish(k, succeeded)))
  {
    var after := Step(w, Finish(k, succeeded));
    if k < |w.active| && w.active[k] in w.jobs {
      forall other ensures JobSound(after, other) {
        assert JobSound(w, other);
      }
    }
  }

  lemma StepKeeps(w: World, m: Move)
    requires Invariant(w)
    ensures Invariant(Step(w, m))
  {
    match m
    case Claim(id) => ClaimKeeps(w, id);
    case Finish(k, succeeded) => FinishKeeps(w, k, succeeded);
    case _ =>
      forall other ensures JobSound(Step(w, m), other) {
        assert JobSound(w, other);
      }
  }

  lemma {:induction false} RunKeeps(w: World, moves: seq<Move>)
    requires Invariant(w)
    ensures Invariant(Run(w, moves))
    decreases |moves|
  {
    hide Invariant, Step;
    if moves != [] {
      RunKeeps(w, moves[..|moves| - 1]);
      StepKeeps(Run(w, moves[..|moves| - 1]), moves[|moves| - 1]);
    }
  }

  function Empty(): World { World(map[], [], map[], map[], 0) }

  /** Between two startups a job is executed at most once, however many claimers compete,
      and over its life at most once more than there were restarts. */
  lemma AtMostOncePerStart(moves: seq<Move>, id: string)
    ensures var w := Run(Empty(), moves);
      Count(w.started, id) <= 1 && Count(w.total, id) <= w.restarts + 1
  {
    RunKeeps(Empty(), moves);
    assert JobSound(Run(Empty(), moves), id);
  }

  /** Only a restart returns a running job to the queue, and nothing reopens a finished one. */
  lemma OnlyRestartRequeues(w: World, m: Move, id: string)
    requires Invariant(w) && id in w.jobs
    ensures id in Step(w, m).jobs
    ensures w.jobs[id].status == Running && Step(w, m).jobs[id].status == Queued ==> m == Restart
    ensures w.jobs[id].status == Succeeded || w.jobs[id].status == Failed ==> Step(w, m).jobs[id] == w.jobs[id]
  {
    assert JobSound(w, id);
  }

  /** A finished job is never executed again, restarts included. */
  lemma {:induction false} FinishedStays(w: World, moves: seq<Move>, id: string)
    requires Invariant(w) && id in w.jobs && (w.jobs[id].status == Succeeded || w.jobs[id].status == Failed)
    ensures var after := Run(w, moves);
      && id in after.jobs && after.jobs[id] == w.jobs[id] && Count(after.total, id) == Count(w.total, id)
    decreases |moves|
  {
    hide Invariant;
    if moves != [] {
      var front := moves[..|moves| - 1];
      FinishedStays(w, front, id);
      RunKeeps(w, front);
      OnlyRestartRequeues(Run(w, front), moves[|moves| - 1], id);
    }
  }
}
