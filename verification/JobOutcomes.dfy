/** What happens to a job: the order the worker takes jobs in, the effect of every move on
    every job, and how often a job that keeps being interrupted is started. */
module JobOutcomes {
  import opened Wrappers
  import opened Text
  import opened JobClaims

  ghost predicate IsQueued(jobs: Jobs, id: string) { id in jobs && jobs[id].status == Queued }

  /** Older by time stamp, and of equal time stamps the smaller id. */
  ghost predicate AheadOf(jobs: Jobs, a: string, b: string)
    requires a in jobs && b in jobs
  {
    TextBefore(jobs[a].created, jobs[b].created) || (jobs[a].created == jobs[b].created && TextBefore(a, b))
  }

  /** The worker's next job is the queued one ahead of all other queued ones. */
  lemma NextIff(jobs: Jobs, id: string)
    ensures Next(jobs, id)
      <==> IsQueued(jobs, id) && forall other | other != id && IsQueued(jobs, other) :: AheadOf(jobs, id, other)
  {
    hide TextLeq, Lexicographic;
    TextLeqTotal(id, id);
    forall other | id in jobs && other in jobs && other != id
      ensures Before(jobs, id, other) <==> AheadOf(jobs, id, other)
    {
      TextLeqIff(id, other);
      TextLeqIff(jobs[id].created, jobs[other].created);
    }
  }

  /** The job as it is afterwards. */
  ghost predicate Becomes(jobs: Jobs, id: string, created: string, status: Status) {
    id in jobs && jobs[id].created == created && jobs[id].status == status
  }

  ghost predicate Untouched(before: World, after: World, id: string) {
    && (id in after.jobs <==> id in before.jobs)
    && (id in before.jobs ==> after.jobs[id] == before.jobs[id])
    && Count(after.total, id) == Count(before.total, id)
  }

  /** What one move does to one job. */
  ghost predicate Affects(w: World, m: Move, after: World, id: string) {
    match m
    case Create(added, created) =>
      if added == id && id !in w.jobs then Becomes(after.jobs, id, created, Queued) else Untouched(w, after, id)
    case Claim(taken) =>
      if taken == id && IsQueued(w.jobs, id) then
        && Becomes(after.jobs, id, w.jobs[id].created, Running)
        && Count(after.total, id) == Count(w.total, id) + 1
        && after.active == w.active + [id]
      else Untouched(w, after, id)
    case Finish(k, succeeded) =>
      if k < |w.active| && w.active[k] == id && id in w.jobs then
        && Becomes(after.jobs, id, w.jobs[id].created, if succeeded then Succeeded else Failed)
        && id !in after.active
      else Untouched(w, after, id)
    case Restart =>
      if id in w.jobs && w.jobs[id].status == Running then
        Becomes(after.jobs, id, w.jobs[id].created, Queued) && id !in after.active
      else Untouched(w, after, id)
  }

  lemma StepAffects(w: World, m: Move, id: string)
    requires Invariant(w)
    ensures Affects(w, m, Step(w, m), id)
  {
    assert JobSound(w, id);
  }

  // ------------------------------------------------------------------- repetition

  /** Claimed and interrupted n times, and claimed once more. */
  function Interrupted(id: string, n: nat): seq<Move> {
    if n == 0 then [Create(id, ""), Claim(id)] else Interrupted(id, n - 1) + [Restart, Claim(id)]
  }

  /** The bound of one start per restart and one more is reached, for every number of
      restarts; the job then runs, and its end is recorded. */
  lemma {:induction false} BoundReached(id: string, n: nat)
    ensures var w := Run(Empty(), Interrupted(id, n));
      && w.restarts == n && Count(w.total, id) == n + 1
      && id in w.jobs && w.jobs[id].status == Running && w.active == [id]
  {
    if n == 0 {
      RunTwo(Empty(), [], Create(id, ""), Claim(id));
    } else {
      BoundReached(id, n - 1);
      RunTwo(Empty(), Interrupted(id, n - 1), Restart, Claim(id));
    }
  }

  lemma RunTwo(w: World, moves: seq<Move>, a: Move, b: Move)
    ensures Run(w, moves + [a, b]) == Step(Step(Run(w, moves), a), b)
  {
    assert (moves + [a, b])[..|moves| + 1] == moves + [a];
    assert (moves + [a])[..|moves|] == moves;
  }
}
