/** Approving and rejecting one proposed AI action, concurrently: reading the status,
    claiming it and writing the outcome are separate steps of each request. */
module ActionClaims {
  import opened Wrappers

  datatype Status = Proposed | Approved | Executed | Failed | Rejected

  /** The status column of one action and the two ways the store changes it. */
  class ActionRow {
    var status: Status

    constructor ()
      ensures status == Proposed
    {
      status := Proposed;
    }

    /** The guarded update: at most one caller ever gets through. */
    method Claim() returns (claimed: bool)
      modifies this
      ensures claimed <==> old(status) == Proposed
      ensures status == if claimed then Approved else old(status)
    {
      claimed := status == Proposed;
      if claimed {
        status := Approved;
      }
    }

    method Update(to: Status)
      modifies this
      ensures status == to
    {
      status := to;
    }
  }

  datatype Role = Approver | Rejecter

  /** How the approved operation ended. */
  datatype Result = Succeeded | Invalid | Missing | Unreachable | Crashed

  /** Where a request is: before its read, after it, holding the claim, with a result to
      record, or answered with a status code. */
  datatype Pc = Start | SawProposed | Holding | Ran(result: Result) | Answered(code: int)

  /** `runs` counts operations started, `winner` is the request whose claim succeeded, and
      `overlapped` remembers that a rejection had read the status, and not yet written,
      at that moment. */
  datatype World = World(
    status: Status, roles: seq<Role>, pcs: seq<Pc>, runs: nat, winner: Option<nat>, overlapped: bool)

  predicate Shape(w: World) { |w.roles| == |w.pcs| }

  predicate PendingRejection(w: World)
    requires Shape(w)
  {
    exists i | 0 <= i < |w.pcs| :: w.roles[i] == Rejecter && w.pcs[i] == SawProposed
  }

  function Recorded(status: Status, result: Result): (Status, int) {
    match result
    case Succeeded => (Executed, 200)
    case Invalid => (Failed, 422)
    case Unreachable => (Failed, 502)
    case Missing => (status, 404)
    case Crashed => (status, 500)
  }

  /** One step of request i; `result` is how the operation ends if it runs now. */
  function Step(w: World, i: nat, result: Result): (after: World)
    requires Shape(w)
    ensures Shape(after) && after.roles == w.roles
  {
    if i >= |w.pcs| then w else
      match w.pcs[i]
      case Start =>
        w.(pcs := w.pcs[i := if w.status == Proposed then SawProposed else Answered(409)])
      case SawProposed =>
        if w.roles[i] == Rejecter then w.(status := Rejected, pcs := w.pcs[i := Answered(200)])
        else if w.status == Proposed then
          w.(status := Approved, pcs := w.pcs[i := Holding], winner := Some(i), overlapped := PendingRejection(w))
        else w.(pcs := w.pcs[i := Answered(409)])
      case Holding => w.(pcs := w.pcs[i := Ran(result)], runs := w.runs + 1)
      case Ran(outcome) =>
        var (status, code) := Recorded(w.status, outcome);
        w.(status := status, pcs := w.pcs[i := Answered(code)])
      case Answered(_) => w
  }

  /** The requests being handled: each call of `Perform` is one step of one of them. */
  class Handlers {
    const row: ActionRow
    const roles: seq<Role>
    var pcs: seq<Pc>
    ghost var runs: nat
    ghost var winner: Option<nat>
    ghost var overlapped: bool

    ghost function Snapshot(): World
      reads this, row
    {
      World(row.status, roles, pcs, runs, winner, overlapped)
    }

    constructor (roles: seq<Role>)
      ensures fresh(row) && Snapshot() == Initial(roles)
    {
      row := new ActionRow();
      this.roles := roles;
      pcs := seq(|roles|, _ => Start);
      runs, winner, overlapped := 0, None, false;
    }

    method Perform(i: nat, result: Result)
      requires Shape(Snapshot())
      modifies this, row
      ensures Snapshot() == Step(old(Snapshot()), i, result)
    {
      if i >= |pcs| {
        return;
      }
      match pcs[i]
      case Start =>
        pcs := pcs[i := if row.status == Proposed then SawProposed else Answered(409)];
      case SawProposed =>
        if roles[i] == Rejecter {
          row.Update(Rejected);
          pcs := pcs[i := Answered(200)];
        } else {
          ghost var pending := PendingRejection(Snapshot());
          var claimed := row.Claim();
          if claimed {
            winner, overlapped := Some(i), pending;
          }
          pcs := pcs[i := if claimed then Holding else Answered(409)];
        }
      case Holding =>
        runs := runs + 1;
        pcs := pcs[i := Ran(result)];
      case Ran(outcome) =>
        var (status, code) := Recorded(row.status, outcome);
        if status != row.status {
          row.Update(status);
        }
        pcs := pcs[i := Answered(code)];
      case Answered(_) =>
    }
  }

  datatype Move = Move(request: nat, result: Result)

  function Run(w: World, moves: seq<Move>): (after: World)
    requires Shape(w)
    ensures Shape(after) && after.roles == w.roles
  {
    if moves == [] then w else
      var m := moves[|moves| - 1];
      Step(Run(w, moves[..|moves| - 1]), m.request, m.result)
  }

  function Initial(roles: seq<Role>): World {
    World(Proposed, roles, seq(|roles|, _ => Start), 0, None, false)
  }

  // ---------------------------------------------------------------------- invariant

  /** Between winning the claim and the answer. */
  predicate InCharge(pc: Pc) { pc.Holding? || pc.Ran? }

  /** Only the winner is ever in charge, and it is an approval. */
  ghost predicate WinnerAlone(w: World)
    requires Shape(w)
  {
    && (w.winner.Some? ==> w.winner.value < |w.pcs| && w.roles[w.winner.value] == Approver)
    && forall i | 0 <= i < |w.pcs| && InCharge(w.pcs[i]) :: w.winner == Some(i)
  }

  /** The operation has started exactly when the winner is past holding the claim. */
  ghost predicate RunsCounted(w: World)
    requires Shape(w) && WinnerAlone(w)
  {
    match w.winner
    case None => w.runs == 0
    case Some(k) =>
      w.pcs[k] != Start && w.pcs[k] != SawProposed && w.runs == if w.pcs[k] == Holding then 0 else 1
  }

  /** What the status says of the winner, when no rejection interferes. */
  predicate Tells(status: Status, pc: Pc) {
    match pc
    case Holding => status == Approved
    case Ran(_) => status == Approved
    case Answered(200) => status == Executed
    case Answered(422) => status == Failed
    case Answered(502) => status == Failed
    case Answered(_) => status == Approved
    case _ => false
  }

  ghost predicate Truthful(w: World)
    requires Shape(w) && WinnerAlone(w)
  {
    match w.winner
    case None => w.status == Proposed || w.status == Rejected
    case Some(k) => !PendingRejection(w) && Tells(w.status, w.pcs[k])
  }

  ghost predicate Invariant(w: World)
    requires Shape(w)
  {
    && WinnerAlone(w) && RunsCounted(w)
    && (w.winner.Some? ==> w.status != Proposed)
    && (w.winner == None ==> !w.overlapped)
    && (!w.overlapped ==> Truthful(w))
  }

  lemma StartStep(w: World, i: nat)
    requires Shape(w) && Invariant(w) && i < |w.pcs| && w.pcs[i] == Start
    ensures Invariant(Step(w, i, Succeeded))
  {
    var after := Step(w, i, Succeeded);
    if PendingRejection(after) && !PendingRejection(w) {
      var j :| 0 <= j < |after.pcs| && after.roles[j] == Rejecter && after.pcs[j] == SawProposed;
      assert j == i;
    }
  }

  lemma SawStep(w: World, i: nat)
    requires Shape(w) && Invariant(w) && i < |w.pcs| && w.pcs[i] == SawProposed
    ensures Invariant(Step(w, i, Succeeded))
  {
    var after := Step(w, i, Succeeded);
    if after.winner.Some? && PendingRejection(after) {
      var j :| 0 <= j < |after.pcs| && after.roles[j] == Rejecter && after.pcs[j] == SawProposed;
      assert w.pcs[j] == SawProposed;
    }
  }

  lemma ChargeStep(w: World, i: nat, result: Result)
    requires Shape(w) && Invariant(w) && i < |w.pcs| && InCharge(w.pcs[i])
    ensures Invariant(Step(w, i, result))
  {
    var after := Step(w, i, result);
    assert w.winner == Some(i);
    if PendingRejection(after) {
      var j :| 0 <= j < |after.pcs| && after.roles[j] == Rejecter && after.pcs[j] == SawProposed;
      assert w.pcs[j] == SawProposed;
    }
  }

  lemma StepKeeps(w: World, i: nat, result: Result)
    requires Shape(w) && Invariant(w)
    ensures Invariant(Step(w, i, result))
  {
    hide Invariant;
    if i < |w.pcs| {
      match w.pcs[i]
      case Start => StartStep(w, i);
      case SawProposed => SawStep(w, i);
      case Holding => ChargeStep(w, i, result);
      case Ran(_) => ChargeStep(w, i, result);
      case Answered(_) =>
    }
  }

  lemma {:induction false} RunKeeps(w: World, moves: seq<Move>)
    requires Shape(w) && Invariant(w)
    ensures Invariant(Run(w, moves))
    decreases |moves|
  {
    hide Invariant, Step;
    if moves != [] {
      var m := moves[|moves| - 1];
      RunKeeps(w, moves[..|moves| - 1]);
      StepKeeps(Run(w, moves[..|moves| - 1]), m.request, m.result);
    }
  }

  /** Whatever the number of requests and however their steps interleave, the operation
      starts at most once. */
  lemma AtMostOnce(roles: seq<Role>, moves: seq<Move>)
    ensures Run(Initial(roles), moves).runs <= 1
  {
    RunKeeps(Initial(roles), moves);
  }

  /** The status never returns to proposed. */
  lemma {:induction false} NeverProposedAgain(w: World, moves: seq<Move>)
    requires Shape(w) && w.status != Proposed
    ensures Run(w, moves).status != Proposed
    decreases |moves|
  {
    if moves != [] {
      NeverProposedAgain(w, moves[..|moves| - 1]);
    }
  }

  /** Unless a rejection had read the status before the claim and wrote after it, the
      status tells what happened: rejected means that nothing ran, executed that the
      operation ran and succeeded, proposed that nothing was decided. */
  lemma StatusTells(roles: seq<Role>, moves: seq<Move>)
    requires !Run(Initial(roles), moves).overlapped
    ensures var w := Run(Initial(roles), moves);
      && (w.status == Rejected ==> w.runs == 0 && w.winner == None)
      && (w.status == Executed <==>
            w.winner.Some? && w.winner.value < |w.pcs| && w.pcs[w.winner.value] == Answered(200))
      && (w.status == Proposed ==> w.winner == None)
  {
    RunKeeps(Initial(roles), moves);
  }

  ghost predicate CanBeRejected(w: World)
    requires Shape(w)
  {
    exists moves :: Run(w, moves).status == Rejected
  }

  ghost predicate Settled(w: World)
    requires Shape(w)
  {
    w.winner.Some? && w.status != Rejected && w.status != Proposed && !PendingRejection(w)
  }

  lemma SettledStep(w: World, i: nat, result: Result)
    requires Shape(w) && WinnerAlone(w) && Settled(w)
    ensures Settled(Step(w, i, result))
  {
    var after := Step(w, i, result);
    forall j | 0 <= j < |after.pcs| && after.roles[j] == Rejecter ensures after.pcs[j] != SawProposed {
      assert w.pcs[j] != SawProposed;
    }
  }

  lemma {:induction false} NoRejectionLeft(w: World, moves: seq<Move>)
    requires Shape(w) && Invariant(w) && Settled(w)
    ensures Invariant(Run(w, moves)) && Settled(Run(w, moves))
    decreases |moves|
  {
    hide Settled, Step, WinnerAlone, RunsCounted, Truthful;
    if moves != [] {
      var m := moves[|moves| - 1];
      NoRejectionLeft(w, moves[..|moves| - 1]);
      StepKeeps(Run(w, moves[..|moves| - 1]), m.request, m.result);
      SettledStep(Run(w, moves[..|moves| - 1]), m.request, m.result);
    }
  }

  /** A claimed action can still end up recorded as rejected exactly when it already is or
      a rejection has read the status and not yet written. */
  lemma RejectedAfterClaimIff(w: World)
    requires Shape(w) && Invariant(w) && w.winner.Some?
    ensures CanBeRejected(w) <==> w.status == Rejected || PendingRejection(w)
  {
    if w.status == Rejected {
      assert Run(w, []).status == Rejected;
    } else if PendingRejection(w) {
      var i: nat :| i < |w.pcs| && w.roles[i] == Rejecter && w.pcs[i] == SawProposed;
      var moves := [Move(i, Succeeded)];
      assert moves[..0] == [];
      assert Run(w, moves).status == Rejected;
    } else {
      forall moves ensures Run(w, moves).status != Rejected {
        NoRejectionLeft(w, moves);
      }
    }
  }

  /** With such a rejection it need not: the operation can succeed and be recorded as
      rejected, or be recorded as executed after a rejection was confirmed. */
  lemma OverlapMisleads()
    ensures var roles := [Approver, Rejecter];
      var read := [Move(0, Succeeded), Move(1, Succeeded), Move(0, Succeeded), Move(0, Succeeded)];
      var executedLast := Run(Initial(roles), read + [Move(1, Succeeded), Move(0, Succeeded)]);
      var rejectedLast := Run(Initial(roles), read + [Move(0, Succeeded), Move(1, Succeeded)]);
      && executedLast.status == Executed && executedLast.pcs == [Answered(200), Answered(200)]
      && rejectedLast.status == Rejected && rejectedLast.pcs == [Answered(200), Answered(200)]
      && executedLast.runs == rejectedLast.runs == 1
      && executedLast.overlapped && rejectedLast.overlapped
  {
    var roles, go := [Approver, Rejecter], Succeeded;
    var w1 := World(Proposed, roles, [SawProposed, Start], 0, None, false);
    var w2 := World(Proposed, roles, [SawProposed, SawProposed], 0, None, false);
    var w3 := World(Approved, roles, [Holding, SawProposed], 0, Some(0), true);
    var w4 := World(Approved, roles, [Ran(go), SawProposed], 1, Some(0), true);
    assert Step(Initial(roles), 0, go) == w1;
    assert Step(w1, 1, go) == w2;
    assert PendingRejection(w2) by { assert w2.roles[1] == Rejecter && w2.pcs[1] == SawProposed; }
    assert Step(w2, 0, go) == w3;
    assert Step(w3, 0, go) == w4;
    var read := [Move(0, go), Move(1, go), Move(0, go), Move(0, go)];
    assert Run(Initial(roles), read) == w4 by {
      hide Step;
      assert read[..3][..2][..1][..0] == [] && read[..3][..2] == read[..2] && read[..2][..1] == read[..1];
      assert Run(Initial(roles), read[..1]) == w1;
      assert Run(Initial(roles), read[..2]) == w2;
      assert Run(Initial(roles), read[..3]) == w3;
    }
    RunTwo(Initial(roles), read, Move(1, go), Move(0, go));
    RunTwo(Initial(roles), read, Move(0, go), Move(1, go));
  }

  lemma RunTwo(w: World, moves: seq<Move>, a: Move, b: Move)
    requires Shape(w)
    ensures Run(w, moves + [a, b]) == Step(Step(Run(w, moves), a.request, a.result), b.request, b.result)
  {
    assert (moves + [a, b])[..|moves| + 1] == moves + [a];
    assert (moves + [a])[..|moves|] == moves;
  }
}
