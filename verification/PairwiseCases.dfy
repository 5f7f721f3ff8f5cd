/** From covering rows to request cases: the cap per operation, the global cap, and
    when the cases planned under one cap are among those compiled under another. */
module PairwiseCases {
  import opened Pairwise
  import opened PairwiseCoverage

  const MAX_FACTORS := 12
  const MAX_PAIRWISE_CASES := 500

  datatype Case = Case(operation: nat, number: nat, row: Row, totalPairs: nat)

  /** An operation's value counts; fewer than two factors yield no cases. */
  predicate Operation(v: seq<nat>) { forall i | 0 <= i < |v| :: v[i] >= 1 }

  predicate Operations(ops: seq<seq<nat>>) { forall i | 0 <= i < |ops| :: Operation(ops[i]) }

  function CasesOf(op: nat, rows: seq<Row>, total: nat): (cases: seq<Case>)
    ensures |cases| == |rows|
  {
    seq(|rows|, (n: nat) requires n < |rows| => Case(op, n + 1, rows[n], total))
  }

  function OperationCases(op: nat, v: seq<nat>, limit: nat): seq<Case>
    requires Operation(v)
  {
    if |v| < 2 then [] else
      var used := Take(v, MAX_FACTORS);
      CasesOf(op, Covering(used, |used|, limit), |Required(used)|)
  }

  /** Every operation's cases in order, before the global cap. */
  function AllCases(ops: seq<seq<nat>>, limit: nat): seq<Case>
    requires Operations(ops)
  {
    if ops == [] then [] else
      AllCases(ops[..|ops| - 1], limit) + OperationCases(|ops| - 1, ops[|ops| - 1], limit)
  }

  function Generated(ops: seq<seq<nat>>, limit: nat): seq<Case>
    requires Operations(ops)
  {
    Take(AllCases(ops, limit), MAX_PAIRWISE_CASES)
  }

  /** The position of an operation's first case in the uncapped list. */
  function Offset(ops: seq<seq<nat>>, limit: nat, op: nat): nat
    requires Operations(ops) && op <= |ops|
  {
    |AllCases(ops[..op], limit)|
  }

  lemma {:induction false} CaseAt(ops: seq<seq<nat>>, limit: nat, op: nat, n: nat)
    requires Operations(ops) && op < |ops| && n < |OperationCases(op, ops[op], limit)|
    ensures Offset(ops, limit, op) + n < |AllCases(ops, limit)|
    ensures AllCases(ops, limit)[Offset(ops, limit, op) + n] == OperationCases(op, ops[op], limit)[n]
  {
    hide OperationCases;
    var front := ops[..|ops| - 1];
    if op < |front| {
      assert front[..op] == ops[..op];
      CaseAt(front, limit, op, n);
    }
  }

  lemma {:induction false} OffsetStep(ops: seq<seq<nat>>, limit: nat, op: nat)
    requires Operations(ops) && op <= |ops|
    ensures AllCases(ops[..op], limit) <= AllCases(ops, limit)
    ensures op < |ops| ==>
      Offset(ops, limit, op + 1) == Offset(ops, limit, op) + |OperationCases(op, ops[op], limit)|
  {
    hide OperationCases;
    if op == |ops| {
      assert ops[..op] == ops;
    } else {
      var front := ops[..|ops| - 1];
      assert front[..op] == ops[..op] && ops[..op + 1][..op] == ops[..op];
      OffsetStep(front, limit, op);
    }
  }

  /** Appends an operation's cases one by one; stops when the list is full. */
  method AppendCases(cases: seq<Case>, op: nat, rows: seq<Row>, total: nat)
    returns (extended: seq<Case>, full: bool)
    requires |cases| < MAX_PAIRWISE_CASES
    ensures extended == Take(cases + CasesOf(op, rows, total), MAX_PAIRWISE_CASES)
    ensures full <==> |cases| + |rows| >= MAX_PAIRWISE_CASES
  {
    ghost var mine := CasesOf(op, rows, total);
    extended := cases;
    for index := 0 to |rows|
      invariant extended == cases + mine[..index]
      invariant |extended| < MAX_PAIRWISE_CASES
    {
      extended := extended + [Case(op, index + 1, rows[index], total)];
      assert mine[..index + 1] == mine[..index] + [mine[index]];
      if |extended| >= MAX_PAIRWISE_CASES {
        return extended, true;
      }
    }
    full := false;
  }

  method AppendOperation(cases: seq<Case>, op: nat, v: seq<nat>, limit: nat)
    returns (extended: seq<Case>, full: bool)
    requires Operation(v) && |cases| < MAX_PAIRWISE_CASES
    ensures extended == Take(cases + OperationCases(op, v, limit), MAX_PAIRWISE_CASES)
    ensures full <==> |cases| + |OperationCases(op, v, limit)| >= MAX_PAIRWISE_CASES
  {
    if |v| < 2 {
      return cases, false;
    }
    var factors := Take(v, MAX_FACTORS);
    var rows, totalPairs := CoveringRows(factors, limit);
    extended, full := AppendCases(cases, op, rows, totalPairs);
  }

  method GenerateCases(ops: seq<seq<nat>>, limit: nat) returns (cases: seq<Case>)
    requires Operations(ops)
    ensures cases == Generated(ops, limit)
  {
    cases := [];
    assert AllCases(ops[..0], limit) == [];
    hide OperationCases, AllCases;
    for op := 0 to |ops|
      invariant cases == AllCases(ops[..op], limit)
      invariant |cases| < MAX_PAIRWISE_CASES
    {
      AllCasesNext(ops, limit, op);
      var full;
      cases, full := AppendOperation(cases, op, ops[op], limit);
      if full {
        TakeOfPrefix(ops, limit, op + 1);
        return;
      }
    }
    assert ops[..|ops|] == ops;
  }

  lemma AllCasesNext(ops: seq<seq<nat>>, limit: nat, op: nat)
    requires Operations(ops) && op < |ops|
    ensures AllCases(ops[..op + 1], limit) == AllCases(ops[..op], limit) + OperationCases(op, ops[op], limit)
  {
    assert ops[..op + 1][..op] == ops[..op];
  }

  lemma TakeOfPrefix(ops: seq<seq<nat>>, limit: nat, op: nat)
    requires Operations(ops) && op <= |ops|
    requires |AllCases(ops[..op], limit)| >= MAX_PAIRWISE_CASES
    ensures Generated(ops, limit) == Take(AllCases(ops[..op], limit), MAX_PAIRWISE_CASES)
  {
    OffsetStep(ops, limit, op);
  }

  /** Per operation, the cases under a smaller cap are the first cases under a
      larger one. */
  lemma OperationCasesTruncate(op: nat, v: seq<nat>, low: nat, high: nat)
    requires Operation(v) && low <= high
    ensures OperationCases(op, v, low) == Take(OperationCases(op, v, high), low)
  {
    if |v| >= 2 {
      var used := Take(v, MAX_FACTORS);
      CapTruncates(used, |used|, low, high);
    }
  }

  // ------------------------------------- planned cases among the compiled ones

  lemma {:induction false} CasesDistinct(ops: seq<seq<nat>>, limit: nat)
    requires Operations(ops)
    ensures Distinct(AllCases(ops, limit))
    ensures forall n | 0 <= n < |AllCases(ops, limit)| :: AllCases(ops, limit)[n].operation < |ops|
  {
    hide OperationCases, Distinct;
    if ops == [] {
      NothingDistinct();
    } else {
      CasesDistinct(ops[..|ops| - 1], limit);
      OwnCases(|ops| - 1, ops[|ops| - 1], limit);
      DistinctAppend(AllCases(ops[..|ops| - 1], limit), OperationCases(|ops| - 1, ops[|ops| - 1], limit));
    }
  }

  lemma NothingDistinct()
    ensures Distinct<Case>([])
  {
  }

  lemma OwnCases(op: nat, v: seq<nat>, limit: nat)
    requires Operation(v)
    ensures Distinct(OperationCases(op, v, limit))
    ensures forall n | 0 <= n < |OperationCases(op, v, limit)| ::
      OperationCases(op, v, limit)[n].operation == op
  {
  }

  lemma DistinctAppend(a: seq<Case>, b: seq<Case>)
    requires Distinct(a) && Distinct(b)
    requires forall m, n | 0 <= m < |a| && 0 <= n < |b| :: a[m].operation != b[n].operation
    ensures Distinct(a + b)
  {
  }

  /** A case is generated exactly when its position is below the global cap. */
  lemma GeneratedIff(ops: seq<seq<nat>>, limit: nat, op: nat, n: nat)
    requires Operations(ops) && op < |ops| && n < |OperationCases(op, ops[op], limit)|
    ensures OperationCases(op, ops[op], limit)[n] in Generated(ops, limit)
      <==> Offset(ops, limit, op) + n < MAX_PAIRWISE_CASES
  {
    CaseAt(ops, limit, op, n);
    CasesDistinct(ops, limit);
    hide OperationCases, AllCases;
    var all, at := AllCases(ops, limit), Offset(ops, limit, op) + n;
    var c := OperationCases(op, ops[op], limit)[n];
    assert all[at] == c;
    if c in Generated(ops, limit) {
      var m :| 0 <= m < |Generated(ops, limit)| && Generated(ops, limit)[m] == c;
      assert all[m] == all[at];
    } 
    if at < MAX_PAIRWISE_CASES {
      assert Generated(ops, limit)[at] == c;
    }
  }

  /** If case n of an operation is below the global cap under `low`, it is under `high`. */
  ghost predicate Kept(ops: seq<seq<nat>>, low: nat, high: nat, op: nat, n: nat)
    requires Operations(ops) && op < |ops|
  {
    Offset(ops, low, op) + n < MAX_PAIRWISE_CASES ==> Offset(ops, high, op) + n < MAX_PAIRWISE_CASES
  }

  ghost predicate AllKept(ops: seq<seq<nat>>, low: nat, high: nat)
    requires Operations(ops)
  {
    forall op: nat, n: nat | op < |ops| && n < |OperationCases(op, ops[op], low)| :: Kept(ops, low, high, op, n)
  }

  lemma KeptIff(ops: seq<seq<nat>>, low: nat, high: nat, op: nat, n: nat)
    requires Operations(ops) && low <= high && op < |ops| && n < |OperationCases(op, ops[op], low)|
    ensures var c := OperationCases(op, ops[op], low)[n];
      Kept(ops, low, high, op, n) <==> (c in Generated(ops, low) ==> c in Generated(ops, high))
  {
    OperationCasesTruncate(op, ops[op], low, high);
    GeneratedIff(ops, low, op, n);
    GeneratedIff(ops, high, op, n);
  }

  lemma AllKeptIff(ops: seq<seq<nat>>, low: nat, high: nat)
    requires Operations(ops) && low <= high
    ensures (forall c | c in Generated(ops, low) :: c in Generated(ops, high)) <==> AllKept(ops, low, high)
  {
    hide OperationCases, Generated, Kept, Offset;
    if forall c | c in Generated(ops, low) :: c in Generated(ops, high) {
      forall op: nat, n: nat | op < |ops| && n < |OperationCases(op, ops[op], low)|
        ensures Kept(ops, low, high, op, n)
      {
        KeptIff(ops, low, high, op, n);
      }
    }
    if AllKept(ops, low, high) {
      forall c | c in Generated(ops, low) ensures c in Generated(ops, high) {
        GeneratedWithinAll(ops, low, c);
        var op, n := SourceOf(ops, low, c);
        KeptIff(ops, low, high, op, n);
      }
    }
  }

  lemma GeneratedWithinAll(ops: seq<seq<nat>>, limit: nat, c: Case)
    requires Operations(ops) && c in Generated(ops, limit)
    ensures c in AllCases(ops, limit)
  {
  }

  lemma {:induction false} SourceOf(ops: seq<seq<nat>>, limit: nat, c: Case) returns (op: nat, n: nat)
    requires Operations(ops) && c in AllCases(ops, limit)
    ensures op < |ops| && n < |OperationCases(op, ops[op], limit)|
    ensures OperationCases(op, ops[op], limit)[n] == c
  {
    hide OperationCases;
    var front := ops[..|ops| - 1];
    if c in AllCases(front, limit) {
      op, n := SourceOf(front, limit, c);
    } else {
      op := |ops| - 1;
      n :| 0 <= n < |OperationCases(op, ops[op], limit)| && OperationCases(op, ops[op], limit)[n] == c;
    }
  }

  // ------------------------------------------------ the condition on row counts

  function Min(a: nat, b: nat): nat { if a <= b then a else b }

  /** How many rows an operation gets when no cap interferes. */
  ghost function RowTotal(v: seq<nat>): nat
    requires Operation(v)
  {
    if |v| < 2 then 0 else |FullRows(Take(v, MAX_FACTORS))|
  }

  ghost function RowTotals(ops: seq<seq<nat>>): (totals: seq<nat>)
    requires Operations(ops)
    ensures |totals| == |ops|
  {
    seq(|ops|, i requires 0 <= i < |ops| => RowTotal(ops[i]))
  }

  /** The number of cases under a cap per operation. */
  function CappedTotal(totals: seq<nat>, limit: nat): nat {
    if totals == [] then 0 else CappedTotal(totals[..|totals| - 1], limit) + Min(limit, totals[|totals| - 1])
  }

  lemma OperationSize(op: nat, v: seq<nat>, limit: nat)
    requires Operation(v)
    ensures |OperationCases(op, v, limit)| == Min(limit, RowTotal(v))
  {
    hide FullRows, Covering, Required;
    if |v| >= 2 {
      var used := Take(v, MAX_FACTORS);
      CappedRows(used, limit);
      assert |OperationCases(op, v, limit)| == |Covering(used, |used|, limit)|;
    }
  }

  lemma {:induction false} OffsetIsSum(ops: seq<seq<nat>>, limit: nat, op: nat)
    requires Operations(ops) && op <= |ops|
    ensures Offset(ops, limit, op) == CappedTotal(RowTotals(ops)[..op], limit)
    decreases op
  {
    hide OperationCases, RowTotal;
    if op > 0 {
      OffsetIsSum(ops, limit, op - 1);
      OffsetStep(ops, limit, op - 1);
      OperationSize(op - 1, ops[op - 1], limit);
      assert RowTotals(ops)[..op][..op - 1] == RowTotals(ops)[..op - 1];
    }
  }

  /** Where the p-th case under the smaller cap comes under the larger one. */
  function HighPosition(totals: seq<nat>, low: nat, high: nat, p: nat): nat
    requires p < CappedTotal(totals, low)
  {
    var front := totals[..|totals| - 1];
    var before := CappedTotal(front, low);
    if p < before then HighPosition(front, low, high, p) else CappedTotal(front, high) + (p - before)
  }

  lemma {:induction false} CappedTotalGrows(totals: seq<nat>, n: nat, limit: nat)
    requires n < |totals|
    ensures CappedTotal(totals[..n], limit) + Min(limit, totals[n]) <= CappedTotal(totals, limit)
    decreases |totals|
  {
    var front := totals[..|totals| - 1];
    if n < |front| {
      assert front[..n] == totals[..n];
      CappedTotalGrows(front, n, limit);
    }
  }

  lemma {:induction false} HighPositionIs(totals: seq<nat>, low: nat, high: nat, op: nat, n: nat)
    requires op < |totals| && n < Min(low, totals[op])
    ensures var p := CappedTotal(totals[..op], low) + n;
      p < CappedTotal(totals, low) && HighPosition(totals, low, high, p) == CappedTotal(totals[..op], high) + n
    decreases |totals|
  {
    var front := totals[..|totals| - 1];
    CappedTotalGrows(totals, op, low);
    if op < |front| {
      assert front[..op] == totals[..op];
      HighPositionIs(front, low, high, op, n);
    }
  }

  /** Positions keep their order. */
  lemma {:induction false} HighPositionsAscend(totals: seq<nat>, low: nat, high: nat, p: nat, q: nat)
    requires low <= high && p <= q < CappedTotal(totals, low)
    ensures HighPosition(totals, low, high, p) <= HighPosition(totals, low, high, q)
    ensures HighPosition(totals, low, high, q) < CappedTotal(totals, high)
    decreases |totals|
  {
    var front := totals[..|totals| - 1];
    if q < CappedTotal(front, low) {
      HighPositionsAscend(front, low, high, p, q);
    } else if p < CappedTotal(front, low) {
      HighPositionsAscend(front, low, high, p, p);
    }
  }

  /** The case at a position. */
  lemma {:induction false} Locate(totals: seq<nat>, low: nat, p: nat) returns (op: nat, n: nat)
    requires p < CappedTotal(totals, low)
    ensures op < |totals| && n < Min(low, totals[op]) && p == CappedTotal(totals[..op], low) + n
    decreases |totals|
  {
    var front := totals[..|totals| - 1];
    if p < CappedTotal(front, low) {
      op, n := Locate(front, low, p);
      assert front[..op] == totals[..op];
    } else {
      op, n := |front|, p - CappedTotal(front, low);
    }
  }

  /** Under the larger cap the last planned case still comes before position 500. */
  predicate LastPlannedFits(totals: seq<nat>, low: nat, high: nat) {
    var planned := Min(MAX_PAIRWISE_CASES, CappedTotal(totals, low));
    planned == 0 || HighPosition(totals, low, high, planned - 1) < MAX_PAIRWISE_CASES
  }

  lemma KeptBySums(ops: seq<seq<nat>>, low: nat, high: nat, op: nat, n: nat)
    requires Operations(ops) && op < |ops|
    ensures var before := RowTotals(ops)[..op];
      Kept(ops, low, high, op, n) <==>
        (CappedTotal(before, low) + n < MAX_PAIRWISE_CASES ==> CappedTotal(before, high) + n < MAX_PAIRWISE_CASES)
  {
    hide Offset, CappedTotal, RowTotals;
    OffsetIsSum(ops, low, op);
    OffsetIsSum(ops, high, op);
  }

  lemma KeptAtIff(ops: seq<seq<nat>>, low: nat, high: nat, op: nat, n: nat)
    requires Operations(ops) && low <= high && op < |ops| && n < Min(low, RowTotals(ops)[op])
    ensures var totals := RowTotals(ops);
      var p := CappedTotal(totals[..op], low) + n;
      && p < CappedTotal(totals, low) && n < |OperationCases(op, ops[op], low)|
      && (Kept(ops, low, high, op, n) <==>
            (p < MAX_PAIRWISE_CASES ==> HighPosition(totals, low, high, p) < MAX_PAIRWISE_CASES))
  {
    hide OperationCases, HighPosition, CappedTotal, RowTotals, Kept, Min;
    KeptBySums(ops, low, high, op, n);
    SizeWithin(ops, op, low);
    HighPositionIs(RowTotals(ops), low, high, op, n);
  }

  /** The last planned case still fits, so every earlier one does. */
  lemma FitsKeepsAll(ops: seq<seq<nat>>, low: nat, high: nat)
    requires Operations(ops) && low <= high && LastPlannedFits(RowTotals(ops), low, high)
    ensures AllKept(ops, low, high)
  {
    hide OperationCases, Kept, CappedTotal, HighPosition, RowTotals;
    var totals := RowTotals(ops);
    forall op: nat, n: nat | op < |ops| && n < |OperationCases(op, ops[op], low)| ensures Kept(ops, low, high, op, n) {
      SizeWithin(ops, op, low);
      KeptAtIff(ops, low, high, op, n);
      var p := CappedTotal(totals[..op], low) + n;
      if p < MAX_PAIRWISE_CASES {
        HighPositionsAscend(totals, low, high, p, Min(MAX_PAIRWISE_CASES, CappedTotal(totals, low)) - 1);
      }
    }
  }

  lemma KeptFitsLast(ops: seq<seq<nat>>, low: nat, high: nat)
    requires Operations(ops) && low <= high && AllKept(ops, low, high)
    ensures LastPlannedFits(RowTotals(ops), low, high)
  {
    hide OperationCases, Kept, CappedTotal, HighPosition, RowTotals;
    var totals := RowTotals(ops);
    var planned := Min(MAX_PAIRWISE_CASES, CappedTotal(totals, low));
    if planned > 0 {
      var op, n := Locate(totals, low, planned - 1);
      KeptAtIff(ops, low, high, op, n);
      assert Kept(ops, low, high, op, n);
    }
  }

  /** Every case planned under the smaller cap is generated under the larger one exactly
      when the last planned case still fits: one comparison of sums of the operations'
      row counts, each cut at the caps. */
  lemma PlannedAmongCompiledIff(ops: seq<seq<nat>>, low: nat, high: nat)
    requires Operations(ops) && low <= high
    ensures (forall c | c in Generated(ops, low) ::
      c in Generated(ops, high)) <==> LastPlannedFits(RowTotals(ops), low, high)
  {
    hide Generated, AllKept, LastPlannedFits;
    AllKeptIff(ops, low, high);
    if AllKept(ops, low, high) {
      KeptFitsLast(ops, low, high);
    }
    if LastPlannedFits(RowTotals(ops), low, high) {
      FitsKeepsAll(ops, low, high);
    }
  }

  lemma SizeWithin(ops: seq<seq<nat>>, op: nat, limit: nat)
    requires Operations(ops) && op < |ops|
    ensures |OperationCases(op, ops[op], limit)| == Min(limit, RowTotals(ops)[op])
  {
    OperationSize(op, ops[op], limit);
  }

  function UsedFactors(v: seq<nat>): seq<nat> { if |v| <= 12 then v else v[..12] }

  lemma OperationCasesAre(op: nat, v: seq<nat>, limit: nat)
    requires Operation(v) && |v| >= 2
    ensures var used := UsedFactors(v);
      var rows, cases := Covering(used, |used|, limit), OperationCases(op, v, limit);
      && |cases| == |rows|
      && forall n | 0 <= n < |rows| :: cases[n] == Case(op, n + 1, rows[n], PairCount(used, |used|))
  {
    RequiredSize(UsedFactors(v));
    hide Covering, Required;
  }

  /** The cases in full: operation after operation, those with two factors or more take
      their first twelve, and number their rows from one, each with the number of pairs
      there are; the first five hundred of them are generated. */
  lemma CasesAre(ops: seq<seq<nat>>, limit: nat, op: nat, n: nat)
    requires Operations(ops) && op < |ops|
    ensures Offset(ops, limit, 0) == 0 && |Generated(ops, limit)| <= 500
    ensures |ops[op]| < 2 ==> Offset(ops, limit, op + 1) == Offset(ops, limit, op)
    ensures |ops[op]| >= 2 ==>
      var used := UsedFactors(ops[op]);
      var rows, at, all := Covering(used, |used|, limit), Offset(ops, limit, op) + n, AllCases(ops, limit);
      && Offset(ops, limit, op + 1) == Offset(ops, limit, op) + |rows|
      && (n < |rows| ==>
            && at < |all| && all[at] == Case(op, n + 1, rows[n], PairCount(used, |used|))
            && (at < |Generated(ops, limit)| <==> at < 500)
            && (at < 500 ==> Generated(ops, limit)[at] == all[at]))
  {
    OffsetStep(ops, limit, op);
    if |ops[op]| >= 2 {
      OperationCasesAre(op, ops[op], limit);
      hide OperationCases, AllCases, Covering, UsedFactors;
      if n < |OperationCases(op, ops[op], limit)| {
        CaseAt(ops, limit, op, n);
      }
    }
  }

  // ------------------------------------------------------- bounds from value counts

  /** The sum over i < j of v_i * v_j, for the factors that are used. */
  function PairBound(v: seq<nat>): nat {
    if |v| < 2 then 0 else PairCount(Take(v, MAX_FACTORS), |Take(v, MAX_FACTORS)|)
  }

  function PairBounds(ops: seq<seq<nat>>): (bounds: seq<nat>)
    ensures |bounds| == |ops|
  {
    seq(|ops|, i requires 0 <= i < |ops| => PairBound(ops[i]))
  }

  lemma RowTotalBound(v: seq<nat>)
    requires Operation(v)
    ensures RowTotal(v) <= PairBound(v)
  {
    if |v| >= 2 {
      CompleteBelowCap(Take(v, MAX_FACTORS), |Required(Take(v, MAX_FACTORS))|);
    }
  }

  lemma {:induction false} CappedTotalMonotone(a: seq<nat>, b: seq<nat>, limit: nat)
    requires |a| == |b| && forall i | 0 <= i < |a| :: a[i] <= b[i]
    ensures CappedTotal(a, limit) <= CappedTotal(b, limit)
    decreases |a|
  {
    if a != [] {
      CappedTotalMonotone(a[..|a| - 1], b[..|b| - 1], limit);
    }
  }

  /** From the value counts alone: when the operations' pair counts, each cut at the
      larger cap, add up to no more than 500, nothing planned is lost. */
  lemma AllKeptWhenAllFit(ops: seq<seq<nat>>, low: nat, high: nat)
    requires Operations(ops) && low <= high && CappedTotal(PairBounds(ops), high) <= MAX_PAIRWISE_CASES
    ensures forall c | c in Generated(ops, low) :: c in Generated(ops, high)
  {
    hide Generated, RowTotal, PairBound, HighPosition, CappedTotal;
    var totals := RowTotals(ops);
    forall i | 0 <= i < |ops| ensures totals[i] <= PairBounds(ops)[i] {
      RowTotalBound(ops[i]);
    }
    CappedTotalMonotone(totals, PairBounds(ops), high);
    var planned := Min(MAX_PAIRWISE_CASES, CappedTotal(totals, low));
    if planned > 0 {
      HighPositionsAscend(totals, low, high, planned - 1, planned - 1);
    }
    PlannedAmongCompiledIff(ops, low, high);
  }

  /** Two factors get exactly the rows of their product. */
  lemma TwoFactorRows(v: seq<nat>)
    requires Operation(v) && |v| == 2
    ensures RowTotal(v) == v[0] * v[1]
  {
    ProductShape(v, v[0]);
    ProductCovers(v);
    AllBelow(v);
  }

  lemma {:induction false} RepeatedSum(size: nat, count: nat, limit: nat)
    ensures CappedTotal(seq(count, _ => size), limit) == count * Min(limit, size)
    decreases count
  {
    if count > 0 {
      RepeatedSum(size, count - 1, limit);
      var many: seq<nat> := seq(count, _ => size);
      assert many[..count - 1] == seq(count - 1, _ => size);
      Distribute(Min(limit, size), count - 1, 1);
    }
  }

  /** Operations alike, planned one case each: all are compiled exactly when those of all
      but the last leave room for one more. */
  lemma AlikeKeptIff(size: nat, count: nat, high: nat)
    requires 1 <= size && 1 <= count <= MAX_PAIRWISE_CASES && 1 <= high
    ensures LastPlannedFits(seq(count, _ => size), 1, high) <==> (count - 1) * Min(high, size) < MAX_PAIRWISE_CASES
  {
    var totals: seq<nat> := seq(count, _ => size);
    RepeatedSum(size, count, 1);
    RepeatedSum(size, count - 1, 1);
    RepeatedSum(size, count - 1, high);
    assert totals[..count - 1] == seq(count - 1, _ => size);
    HighPositionIs(totals, 1, high, count - 1, 0);
  }

  function Repeated(v: seq<nat>, count: nat): seq<seq<nat>> { seq(count, _ => v) }

  /** Forty operations of two four-valued factors: one planned case each fits, and some of
      them are not compiled at fifty. */
  lemma PlannedNotCompiled()
    ensures Operations(Repeated([4, 4], 40))
    ensures exists c | c in Generated(Repeated([4, 4], 40), 1) :: c !in Generated(Repeated([4, 4], 40), 50)
  {
    var v: seq<nat> := [4, 4];
    var ops := Repeated(v, 40);
    hide Generated, LastPlannedFits, RowTotal;
    TwoFactorRows(v);
    assert RowTotals(ops) == seq(40, _ => 16);
    AlikeKeptIff(16, 40, 50);
    PlannedAmongCompiledIff(ops, 1, 50);
  }
}
