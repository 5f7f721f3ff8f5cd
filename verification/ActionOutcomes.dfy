/** What the requests on one proposed action are told, alone and among others. */
module ActionOutcomes {
  import opened Wrappers
  import opened ActionClaims

  // ---------------------------------------------------------------- one after another

  /** What an approval that runs the operation leaves behind and answers. */
  ghost predicate Approves(result: Result, status: Status, code: int) {
    match result
    case Succeeded => status == Executed && code == 200
    case Invalid => status == Failed && code == 422
    case Unreachable => status == Failed && code == 502
    case Missing => status == Approved && code == 404
    case Crashed => status == Approved && code == 500
  }

  ghost predicate Concludes(role: Role, result: Result, was: Status, status: Status, code: int, ran: nat) {
    if was != Proposed then status == was && code == 409 && ran == 0
    else if role == Rejecter then status == Rejected && code == 200 && ran == 0
    else Approves(result, status, code) && ran == 1
  }

  /** Half of it: the action is read and, if it is proposed, rejected or claimed. */
  lemma ReadAndClaim(w: World, i: nat, result: Result)
    requires Shape(w) && i < |w.pcs| && w.pcs[i] == Start
    ensures var after := Step(Step(w, i, result), i, result);
      && after.runs == w.runs
      && if w.status != Proposed then
           after.status == w.status && after.pcs == w.pcs[i := Answered(409)]
         else if w.roles[i] == Rejecter then after.status == Rejected && after.pcs == w.pcs[i := Answered(200)]
         else after.status == Approved && after.pcs == w.pcs[i := Holding]
  {
    hide PendingRejection;
  }

  lemma RunAndRecord(w: World, i: nat, result: Result)
    requires Shape(w) && i < |w.pcs|
    ensures w.pcs[i].Answered? ==> Step(Step(w, i, result), i, result) == w
    ensures w.pcs[i] == Holding && w.status == Approved ==>
      var after := Step(Step(w, i, result), i, result);
      && after.runs == w.runs + 1
      && after.pcs[i].Answered? && after.pcs == w.pcs[i := after.pcs[i]]
      && Approves(result, after.status, after.pcs[i].code)
  {
    hide PendingRejection;
  }

  /** A request handled without interruption decides a proposed action, and is refused by
      any other; all other requests stay where they are. */
  lemma HandledAlone(w: World, i: nat, result: Result)
    requires Shape(w) && i < |w.pcs| && w.pcs[i] == Start
    ensures var m := Move(i, result);
      var after := Run(w, [m, m, m, m]);
      && after.pcs[i].Answered?
      && after.pcs == w.pcs[i := after.pcs[i]]
      && w.runs <= after.runs
      && Concludes(w.roles[i], result, w.status, after.status, after.pcs[i].code, after.runs - w.runs)
  {
    FourSteps(w, Move(i, result));
    ReadAndClaim(w, i, result);
    RunAndRecord(Step(Step(w, i, result), i, result), i, result);
    hide Run, Step, Approves;
  }

  lemma FourSteps(w: World, m: Move)
    requires Shape(w)
    ensures Run(w, [m, m, m, m])
      == Step(Step(Step(Step(w, m.request, m.result), m.request, m.result), m.request, m.result), m.request, m.result)
  {
    assert Run(w, []) == w;
    hide Step;
    RunTwo(w, [], m, m);
    RunTwo(w, [m, m], m, m);
    assert [] + [m, m] == [m, m] && [m, m] + [m, m] == [m, m, m, m];
  }

  // -------------------------------------------------------------------- among others

  /** The steps a request can still take. */
  function StepsLeft(pc: Pc): nat {
    match pc
    case Start => 4
    case SawProposed => 3
    case Holding => 2
    case Ran(_) => 1
    case Answered(_) => 0
  }

  function Turns(moves: seq<Move>, i: nat): nat {
    if moves == [] then 0 else Turns(moves[..|moves| - 1], i) + if moves[|moves| - 1].request == i then 1 else 0
  }

  lemma TurnStep(w: World, m: Move, i: nat)
    requires Shape(w) && i < |w.pcs|
    ensures var after := Step(w, m.request, m.result).pcs[i];
      if m.request == i then StepsLeft(after) == 0 || StepsLeft(after) < StepsLeft(w.pcs[i]) else after == w.pcs[i]
  {
    hide PendingRejection;
  }

  /** Every turn of a request brings it nearer to its answer, and nobody else's does. */
  lemma {:induction false} TurnsAnswer(w: World, moves: seq<Move>, i: nat)
    requires Shape(w) && i < |w.pcs|
    ensures var left := StepsLeft(Run(w, moves).pcs[i]);
      left == 0 || left + Turns(moves, i) <= StepsLeft(w.pcs[i])
    ensures Turns(moves, i) == 0 ==> Run(w, moves).pcs[i] == w.pcs[i]
    decreases |moves|
  {
    hide Step, StepsLeft;
    if moves != [] {
      TurnsAnswer(w, moves[..|moves| - 1], i);
      TurnStep(Run(w, moves[..|moves| - 1]), moves[|moves| - 1], i);
    }
  }

  /** So four turns answer any request, however others' turns come between them. */
  lemma FourTurnsAnswer(roles: seq<Role>, moves: seq<Move>, i: nat)
    requires i < |roles| && Turns(moves, i) >= 4
    ensures Run(Initial(roles), moves).pcs[i].Answered?
  {
    TurnsAnswer(Initial(roles), moves, i);
  }

  /** Every answer but the winner's refuses an approval, and confirms or refuses a rejection. */
  ghost predicate Told(w: World, i: nat)
    requires Shape(w) && i < |w.pcs|
  {
    && (w.pcs[i].Answered? && w.roles[i] == Rejecter ==> w.pcs[i].code == 200 || w.pcs[i].code == 409)
    && (w.pcs[i].Answered? && w.roles[i] == Approver && w.winner != Some(i) ==> w.pcs[i].code == 409)
    && (w.pcs[i].Answered? && w.winner == Some(i) ==> w.pcs[i].code in {200, 422, 502, 404, 500})
  }

  lemma ToldStep(w: World, m: Move, i: nat)
    requires Shape(w) && Invariant(w) && i < |w.pcs| && Told(w, i)
    ensures Told(Step(w, m.request, m.result), i)
  {
    hide PendingRejection, Truthful;
  }

  lemma InvariantHolds(roles: seq<Role>, moves: seq<Move>)
    ensures Invariant(Run(Initial(roles), moves))
  {
    RunKeeps(Initial(roles), moves);
  }

  /** At most one approval is not refused: the one whose claim succeeded. */
  lemma {:induction false} OthersRefused(roles: seq<Role>, moves: seq<Move>, i: nat)
    requires i < |roles|
    ensures Told(Run(Initial(roles), moves), i)
    decreases |moves|
  {
    hide Step, Invariant;
    if moves != [] {
      var front, m := moves[..|moves| - 1], moves[|moves| - 1];
      OthersRefused(roles, front, i);
      InvariantHolds(roles, front);
      ToldStep(Run(Initial(roles), front), m, i);
    }
  }

  ghost predicate NoneDecided(w: World) { forall i | 0 <= i < |w.pcs| :: w.pcs[i] == Start || w.pcs[i] == SawProposed }

  /** While the action is proposed nobody has got past reading it. */
  lemma {:induction false} Undecided(roles: seq<Role>, moves: seq<Move>)
    ensures Run(Initial(roles), moves).status == Proposed ==> NoneDecided(Run(Initial(roles), moves))
    decreases |moves|
  {
    hide PendingRejection;
    if moves != [] {
      Undecided(roles, moves[..|moves| - 1]);
    }
  }

  /** Once all requests are answered the action is decided, and the operation ran unless
      it was rejected. */
  lemma AllAnswered(roles: seq<Role>, moves: seq<Move>)
    requires roles != [] && forall i | 0 <= i < |roles| :: Turns(moves, i) >= 4
    ensures var w := Run(Initial(roles), moves);
      && (forall i | 0 <= i < |roles| :: w.pcs[i].Answered?)
      && w.status != Proposed
      && (w.runs == 0 ==> w.status == Rejected)
  {
    RunKeeps(Initial(roles), moves);
    Undecided(roles, moves);
    hide Turns, Run, PendingRejection;
    forall i | 0 <= i < |roles| ensures Run(Initial(roles), moves).pcs[i].Answered? {
      FourTurnsAnswer(roles, moves, i);
    }
    assert Run(Initial(roles), moves).pcs[0].Answered?;
  }
}
