/** The in-parameter-order pairwise generator with a row cap.

    A factor is represented by the number of its values, a row by the value index
    it picks for each factor. */
module Pairwise {
  import opened PairIds
  import Text

  type Row = seq<nat>

  /** Rows and the pairs they leave uncovered, between two steps of the sweep. */
  datatype Sweep = Sweep(rows: seq<Row>, uncovered: set<Pair>)

  predicate Factors(v: seq<nat>) {
    |v| >= 2 && forall i | 0 <= i < |v| :: v[i] >= 1
  }

  predicate InRange(p: Pair, v: seq<nat>) {
    p.left < p.right < |v| && p.leftValue < v[p.left] && p.rightValue < v[p.right]
  }

  predicate InRow(p: Pair, row: Row) {
    p.left < p.right < |row| && row[p.left] == p.leftValue && row[p.right] == p.rightValue
  }

  function Required(v: seq<nat>): (r: set<Pair>)
    ensures forall p :: p in r <==> InRange(p, v)
  {
    var r := set i: nat, j: nat, a: nat, b: nat |
      i < |v| && i < j < |v| && a < v[i] && b < v[j] :: Pair(i, a, j, b);
    assert forall p | InRange(p, v) :: Pair(p.left, p.leftValue, p.right, p.rightValue) in r;
    r
  }

  function RowPairs(row: Row): (r: set<Pair>)
    ensures forall p :: p in r <==> InRow(p, row)
  {
    var r := set i: nat, j: nat | i < |row| && i < j < |row| :: Pair(i, row[i], j, row[j]);
    assert forall p | InRow(p, row) :: Pair(p.left, row[p.left], p.right, row[p.right]) in r;
    r
  }

  /** The pairs some row covers. */
  function RowsPairs(rows: seq<Row>): set<Pair> {
    if rows == [] then {} else RowsPairs(rows[..|rows| - 1]) + RowPairs(rows[|rows| - 1])
  }

  lemma {:induction false} RowsPairsMember(rows: seq<Row>, p: Pair)
    ensures p in RowsPairs(rows) <==> exists n | 0 <= n < |rows| :: InRow(p, rows[n])
  {
    if rows != [] {
      var front := rows[..|rows| - 1];
      RowsPairsMember(front, p);
      if p in RowsPairs(front) {
        var n :| 0 <= n < |front| && InRow(p, front[n]);
        assert InRow(p, rows[n]);
      }
      if n :| 0 <= n < |rows| && InRow(p, rows[n]) && n < |front| {
        assert InRow(p, front[n]);
      }
    }
  }

  function At(pairs: set<Pair>, k: nat): set<Pair> { set p | p in pairs && p.right == k }

  function Take<T>(s: seq<T>, n: nat): seq<T> { if |s| <= n then s else s[..n] }

  function ProductRows(m: nat, n: nat): seq<Row> {
    if m == 0 then [] else ProductRows(m - 1, n) + seq(n, (r: nat) => [m - 1, r])
  }

  function NewlyCovered(row: Row, value: nat, uncovered: set<Pair>): set<Pair> {
    RowPairs(row + [value]) * uncovered
  }

  function Gain(row: Row, value: nat, uncovered: set<Pair>): nat {
    |NewlyCovered(row, value, uncovered)|
  }

  /** `max(range(count), key=(gain, -value))`: the smallest value of largest gain. */
  function BestValue(row: Row, count: nat, uncovered: set<Pair>): (best: nat)
    requires count >= 1
    ensures best < count
  {
    if count == 1 then 0 else
      var b := BestValue(row, count - 1, uncovered);
      if Gain(row, count - 1, uncovered) > Gain(row, b, uncovered) then count - 1 else b
  }

  lemma {:induction false} BestValueIsBest(row: Row, count: nat, uncovered: set<Pair>)
    requires count >= 1
    ensures var best := BestValue(row, count, uncovered);
      && (forall u | 0 <= u < count :: Gain(row, u, uncovered) <= Gain(row, best, uncovered))
      && (forall u | 0 <= u < best :: Gain(row, u, uncovered) < Gain(row, best, uncovered))
  {
    hide Gain;
    if count > 1 {
      BestValueIsBest(row, count - 1, uncovered);
    }
  }

  /** Horizontal growth: every row, in order, gets the value that covers most. */
  function Grow(rows: seq<Row>, count: nat, uncovered: set<Pair>): (s: Sweep)
    requires count >= 1
    ensures |s.rows| == |rows| && s.uncovered <= uncovered
  {
    if rows == [] then Sweep([], uncovered) else
      var s := Grow(rows[..|rows| - 1], count, uncovered);
      var last := rows[|rows| - 1];
      var grown := last + [BestValue(last, count, s.uncovered)];
      Sweep(s.rows + [grown], s.uncovered - RowPairs(grown))
  }

  function CandidateValue(p: Pair, i: nat): nat {
    if i == p.right then p.rightValue else if i == p.left then p.leftValue else 0
  }

  /** The row added for a pair: both of its values, zero everywhere else. */
  function Candidate(k: nat, p: Pair): (row: Row)
    ensures |row| == k + 1
  {
    seq(k + 1, (i: nat) requires i <= k => CandidateValue(p, i))
  }

  function PatchOne(k: nat, p: Pair, limit: nat, s: Sweep): Sweep {
    if p in s.uncovered && |s.rows| < limit then
      Sweep(s.rows + [Candidate(k, p)], s.uncovered - RowPairs(Candidate(k, p)))
    else s
  }

  /** Vertical growth: one new row per pair still uncovered, until the cap. */
  function Patch(k: nat, pairs: seq<Pair>, limit: nat, s: Sweep): (t: Sweep)
    ensures |s.rows| <= |t.rows| && t.rows[..|s.rows|] == s.rows
    ensures t.uncovered <= s.uncovered
    ensures |s.rows| <= limit ==> |t.rows| <= limit
  {
    if pairs == [] then s else
      PatchOne(k, pairs[|pairs| - 1], limit, Patch(k, pairs[..|pairs| - 1], limit, s))
  }

  /** The open pairs of factor k, in the order of their ids. */
  function Relevant(k: nat, uncovered: set<Pair>): seq<Pair> {
    Sorted(Marked(k, uncovered))
  }

  function Marked(k: nat, uncovered: set<Pair>): set<Pair> {
    set p | p in uncovered && Text.Contains(PairId(p), RightMark(k))
  }

  lemma RelevantMembers(k: nat, uncovered: set<Pair>)
    ensures forall p :: p in Relevant(k, uncovered) <==> p in At(uncovered, k)
  {
    forall p ensures p in Relevant(k, uncovered) <==> p in At(uncovered, k) {
      MarkSelectsRightFactor(p, k);
      SortedMembers(Marked(k, uncovered), p);
    }
  }

  function Grown(v: seq<nat>, k: nat, rows: seq<Row>): Sweep
    requires Factors(v) && k < |v|
  {
    Grow(rows, v[k], Required(v) - RowsPairs(rows))
  }

  function Patched(v: seq<nat>, k: nat, rows: seq<Row>, limit: nat): Sweep
    requires Factors(v) && k < |v|
  {
    var g := Grown(v, k, rows);
    Patch(k, Relevant(k, g.uncovered), limit, g)
  }

  /** The rows over the first k factors. */
  function Covering(v: seq<nat>, k: nat, limit: nat): seq<Row>
    requires Factors(v) && 2 <= k <= |v|
  {
    if k == 2 then Take(ProductRows(v[0], v[1]), limit)
    else Patched(v, k - 1, Covering(v, k - 1, limit), limit).rows
  }

  // ------------------------------------------------------------ the generator

  lemma {:induction false} PatchStops(k: nat, pairs: seq<Pair>, n: nat, limit: nat, s: Sweep)
    requires n <= |pairs| && |Patch(k, pairs[..n], limit, s).rows| >= limit
    ensures Patch(k, pairs, limit, s) == Patch(k, pairs[..n], limit, s)
    decreases |pairs|
  {
    if n < |pairs| {
      var front := pairs[..|pairs| - 1];
      assert front[..n] == pairs[..n];
      PatchStops(k, front, n, limit, s);
    } else {
      assert pairs[..n] == pairs;
    }
  }

  method InitialRows(m: nat, n: nat, limit: nat) returns (rows: seq<Row>)
    ensures rows == Take(ProductRows(m, n), limit)
  {
    rows := [];
    for left := 0 to m
      invariant rows == ProductRows(left, n)
    {
      ghost var before := rows;
      for right := 0 to n
        invariant rows == before + seq(right, (r: nat) => [left, r])
      {
        rows := rows + [[left, right]];
      }
    }
    rows := Take(rows, limit);
  }

  method GrowRows(rows: seq<Row>, count: nat, start: set<Pair>) returns (grown: seq<Row>, uncovered: set<Pair>)
    requires count >= 1
    ensures Sweep(grown, uncovered) == Grow(rows, count, start)
  {
    grown, uncovered := [], start;
    for n := 0 to |rows|
      invariant Sweep(grown, uncovered) == Grow(rows[..n], count, start)
    {
      assert rows[..n + 1][..n] == rows[..n];
      var grownRow := rows[n] + [BestValue(rows[n], count, uncovered)];
      grown := grown + [grownRow];
      uncovered := uncovered - RowPairs(grownRow);
    }
    assert rows[..|rows|] == rows;
  }

  method PatchRows(k: nat, relevant: seq<Pair>, limit: nat, start: Sweep)
    returns (rows: seq<Row>, uncovered: set<Pair>)
    requires forall p | p in relevant :: p.left < p.right == k
    ensures Sweep(rows, uncovered) == Patch(k, relevant, limit, start)
  {
    rows, uncovered := start.rows, start.uncovered;
    var n := 0;
    while n < |relevant|
      invariant n <= |relevant|
      invariant Sweep(rows, uncovered) == Patch(k, relevant[..n], limit, start)
    {
      var pair := relevant[n];
      assert relevant[..n + 1][..n] == relevant[..n];
      if pair in uncovered {
        if |rows| >= limit {
          break;
        }
        var row: seq<nat> := seq(k + 1, _ => 0);
        row := row[pair.left := pair.leftValue];
        row := row[pair.right := pair.rightValue];
        assert row == Candidate(k, pair);
        rows := rows + [row];
        uncovered := uncovered - RowPairs(row);
      }
      n := n + 1;
    }
    if n < |relevant| {
      PatchStops(k, relevant, n, limit, start);
    } else {
      assert relevant[..n] == relevant;
    }
  }

  method CoveringRows(v: seq<nat>, limit: nat) returns (rows: seq<Row>, total: nat)
    requires Factors(v)
    ensures rows == Covering(v, |v|, limit)
    ensures total == |Required(v)|
  {
    var required := Required(v);
    rows := InitialRows(v[0], v[1], limit);
    hide Relevant, Sorted;
    for k := 2 to |v|
      invariant rows == Covering(v, k, limit)
    {
      var grown, uncovered := GrowRows(rows, v[k], required - RowsPairs(rows));
      RelevantMembers(k, uncovered);
      rows, uncovered := PatchRows(k, Relevant(k, uncovered), limit, Sweep(grown, uncovered));
    }
    CoveringShape(v, |v|, limit);
    rows := Take(rows, limit);
    total := |required|;
  }

  // ------------------------------------------------- shape, range, distinctness

  ghost predicate RowFits(v: seq<nat>, k: nat, row: Row) {
    |row| == k <= |v| && forall i | 0 <= i < k :: row[i] < v[i]
  }

  ghost predicate Shaped(v: seq<nat>, k: nat, rows: seq<Row>) {
    forall n | 0 <= n < |rows| :: RowFits(v, k, rows[n])
  }

  ghost predicate Distinct<T>(rows: seq<T>) {
    forall m, n | 0 <= m < n < |rows| :: rows[m] != rows[n]
  }

  lemma {:induction false} ProductShape(v: seq<nat>, m: nat)
    requires Factors(v) && m <= v[0]
    ensures |ProductRows(m, v[1])| == m * v[1]
    ensures Shaped(v, 2, ProductRows(m, v[1]))
    ensures forall n | 0 <= n < m * v[1] :: ProductRows(m, v[1])[n][0] < m
    ensures Distinct(ProductRows(m, v[1]))
    ensures forall a: nat, b: nat | a < m && b < v[1] :: [a, b] in ProductRows(m, v[1])
  {
    if m > 0 {
      ProductShape(v, m - 1);
      var front, back := ProductRows(m - 1, v[1]), seq(v[1], (r: nat) => [m - 1, r]);
      assert (m - 1) * v[1] + v[1] == m * v[1];
      assert ProductRows(m, v[1]) == front + back;
      forall a: nat, b: nat | a < m && b < v[1] ensures [a, b] in front + back {
        if a == m - 1 { assert back[b] == [a, b]; }
      }
    }
  }

  ghost predicate RowExtends(grown: Row, row: Row) {
    |grown| == |row| + 1 && forall i | 0 <= i < |row| :: grown[i] == row[i]
  }

  ghost predicate RowsExtend(grown: seq<Row>, rows: seq<Row>) {
    |grown| == |rows| && forall n | 0 <= n < |rows| :: RowExtends(grown[n], rows[n])
  }

  lemma GrowSnoc(rows: seq<Row>, count: nat, uncovered: set<Pair>) returns (value: nat)
    requires count >= 1 && rows != []
    ensures value < count
    ensures Grow(rows, count, uncovered).rows
         == Grow(rows[..|rows| - 1], count, uncovered).rows + [rows[|rows| - 1] + [value]]
  {
    value := BestValue(rows[|rows| - 1], count, Grow(rows[..|rows| - 1], count, uncovered).uncovered);
  }

  lemma ExtendSnoc(v: seq<nat>, k: nat, grown: seq<Row>, rows: seq<Row>, value: nat)
    requires rows != [] && k < |v| && Shaped(v, k, rows) && value < v[k]
    requires Shaped(v, k + 1, grown) && RowsExtend(grown, rows[..|rows| - 1])
    ensures Shaped(v, k + 1, grown + [rows[|rows| - 1] + [value]])
    ensures RowsExtend(grown + [rows[|rows| - 1] + [value]], rows)
  {
    assert RowFits(v, k, rows[|rows| - 1]);
    assert RowFits(v, k + 1, rows[|rows| - 1] + [value]);
  }

  lemma {:induction false} GrowShape(v: seq<nat>, k: nat, rows: seq<Row>, uncovered: set<Pair>)
    requires Factors(v) && k < |v| && Shaped(v, k, rows)
    ensures Shaped(v, k + 1, Grow(rows, v[k], uncovered).rows)
    ensures RowsExtend(Grow(rows, v[k], uncovered).rows, rows)
  {
    if rows != [] {
      var front := rows[..|rows| - 1];
      GrowShape(v, k, front, uncovered);
      var value := GrowSnoc(rows, v[k], uncovered);
      ExtendSnoc(v, k, Grow(front, v[k], uncovered).rows, rows, value);
    }
  }

  lemma {:induction false} GrowAccounts(rows: seq<Row>, count: nat, uncovered: set<Pair>)
    requires count >= 1
    ensures Grow(rows, count, uncovered).uncovered == uncovered - RowsPairs(Grow(rows, count, uncovered).rows)
  {
    if rows != [] {
      var front := rows[..|rows| - 1];
      GrowAccounts(front, count, uncovered);
      var s := Grow(rows, count, uncovered);
    }
  }

  /** The sweep knows exactly which required pairs its rows have not covered. */
  ghost predicate Accurate(v: seq<nat>, s: Sweep) { s.uncovered == Required(v) - RowsPairs(s.rows) }

  lemma ExtendedRowsCover(grown: seq<Row>, rows: seq<Row>)
    requires RowsExtend(grown, rows)
    ensures RowsPairs(rows) <= RowsPairs(grown)
  {
    forall p | p in RowsPairs(rows) ensures p in RowsPairs(grown) {
      RowsPairsMember(rows, p);
      RowsPairsMember(grown, p);
      var n :| 0 <= n < |rows| && InRow(p, rows[n]);
      assert RowExtends(grown[n], rows[n]);
      assert InRow(p, grown[n]);
    }
  }

  lemma ExtendedRowsDistinct(grown: seq<Row>, rows: seq<Row>)
    requires RowsExtend(grown, rows) && Distinct(rows)
    ensures Distinct(grown)
  {
    forall m, n | 0 <= m < n < |grown| ensures grown[m] != grown[n] {
      assert RowExtends(grown[m], rows[m]) && RowExtends(grown[n], rows[n]);
      assert grown[m][..|rows[m]|] == rows[m] && grown[n][..|rows[n]|] == rows[n];
    }
  }

  lemma GrownShape(v: seq<nat>, k: nat, rows: seq<Row>)
    requires Factors(v) && k < |v| && Shaped(v, k, rows) && Distinct(rows)
    ensures var g := Grown(v, k, rows);
      && Shaped(v, k + 1, g.rows) && Distinct(g.rows) && Accurate(v, g) && RowsExtend(g.rows, rows)
  {
    var start := Required(v) - RowsPairs(rows);
    var g := Grown(v, k, rows);
    GrowShape(v, k, rows, start);
    ExtendedRowsDistinct(g.rows, rows);
    ExtendedRowsCover(g.rows, rows);
    GrowAccounts(rows, v[k], start);
  }

  lemma {:induction false} PatchAccounts(v: seq<nat>, k: nat, pairs: seq<Pair>, limit: nat, s: Sweep)
    requires Accurate(v, s)
    ensures Accurate(v, Patch(k, pairs, limit, s))
  {
    if pairs != [] {
      var front, p := pairs[..|pairs| - 1], pairs[|pairs| - 1];
      PatchAccounts(v, k, front, limit, s);
    }
  }

  lemma {:induction false} PatchShape(v: seq<nat>, k: nat, pairs: seq<Pair>, limit: nat, s: Sweep)
    requires Factors(v) && k < |v|
    requires Shaped(v, k + 1, s.rows) && Distinct(s.rows) && Accurate(v, s)
    requires forall p | p in pairs :: InRange(p, v) && p.right == k
    ensures Shaped(v, k + 1, Patch(k, pairs, limit, s).rows)
    ensures Distinct(Patch(k, pairs, limit, s).rows)
  {
    if pairs != [] {
      var front, p := pairs[..|pairs| - 1], pairs[|pairs| - 1];
      PatchShape(v, k, front, limit, s);
      PatchAccounts(v, k, front, limit, s);
      var t := Patch(k, front, limit, s);
      RowsPairsMember(t.rows, p);
      assert p in t.uncovered ==> forall n | 0 <= n < |t.rows| :: !InRow(p, t.rows[n]);
    }
  }

  lemma TakenProductShape(v: seq<nat>, limit: nat)
    requires Factors(v)
    ensures var rows := Take(ProductRows(v[0], v[1]), limit);
      Shaped(v, 2, rows) && Distinct(rows) && |rows| <= limit
  {
    ProductShape(v, v[0]);
  }

  lemma PatchedShape(v: seq<nat>, k: nat, rows: seq<Row>, limit: nat)
    requires Factors(v) && k < |v| && Shaped(v, k, rows) && Distinct(rows) && |rows| <= limit
    ensures var t := Patched(v, k, rows, limit);
      Shaped(v, k + 1, t.rows) && Distinct(t.rows) && |t.rows| <= limit
  {
    GrownShape(v, k, rows);
    var g := Grown(v, k, rows);
    RelevantMembers(k, g.uncovered);
    PatchShape(v, k, Relevant(k, g.uncovered), limit, g);
  }

  /** Every row is full-width and in range, no row repeats, and the cap holds. */
  lemma {:induction false} CoveringShape(v: seq<nat>, k: nat, limit: nat)
    requires Factors(v) && 2 <= k <= |v|
    ensures var rows := Covering(v, k, limit);
      Shaped(v, k, rows) && Distinct(rows) && |rows| <= limit
  {
    hide Patched, Shaped, Distinct;
    if k == 2 {
      TakenProductShape(v, limit);
    } else {
      CoveringShape(v, k - 1, limit);
      PatchedShape(v, k - 1, Covering(v, k - 1, limit), limit);
    }
  }

  // ------------------------------------------------ the cap only truncates

  lemma {:induction false} BestValueAgrees(row: Row, count: nat, a: set<Pair>, b: set<Pair>)
    requires count >= 1
    requires forall u | 0 <= u < count :: Gain(row, u, a) == Gain(row, u, b)
    ensures BestValue(row, count, a) == BestValue(row, count, b)
  {
    if count > 1 {
      BestValueAgrees(row, count - 1, a, b);
    }
  }

  /** Growth looks only at the pairs of the new factor. */
  lemma {:induction false} GrowAgrees(k: nat, rows: seq<Row>, count: nat, a: set<Pair>, b: set<Pair>)
    requires count >= 1 && forall n | 0 <= n < |rows| :: |rows[n]| == k
    requires At(a, k) == At(b, k)
    requires RowsPairs(rows) !! a && RowsPairs(rows) !! b
    ensures Grow(rows, count, a).rows == Grow(rows, count, b).rows
    ensures At(Grow(rows, count, a).uncovered, k) == At(Grow(rows, count, b).uncovered, k)
  {
    if rows != [] {
      var front, last := rows[..|rows| - 1], rows[|rows| - 1];
      assert front + [last] == rows;
      GrowAgrees(k, front, count, a, b);
      var a', b' := Grow(front, count, a).uncovered, Grow(front, count, b).uncovered;
      forall u | 0 <= u < count ensures Gain(last, u, a') == Gain(last, u, b') {
        GainIsLocal(k, last, u, a');
        GainIsLocal(k, last, u, b');
      }
      BestValueAgrees(last, count, a', b');
      var grown := RowPairs(last + [BestValue(last, count, a')]);
      assert At(a' - grown, k) == At(a', k) - grown == At(b', k) - grown == At(b' - grown, k);
    }
  }

  lemma GainIsLocal(k: nat, row: Row, value: nat, uncovered: set<Pair>)
    requires |row| == k && RowPairs(row) !! uncovered
    ensures Gain(row, value, uncovered) == |RowPairs(row + [value]) * At(uncovered, k)|
  {
    forall p | p in RowPairs(row + [value]) && p in uncovered ensures p.right == k {
      if p.right < k { assert InRow(p, row); }
    }
    assert RowPairs(row + [value]) * uncovered == RowPairs(row + [value]) * At(uncovered, k);
  }

  lemma {:induction false} GrowPrefix(rows: seq<Row>, n: nat, count: nat, uncovered: set<Pair>)
    requires count >= 1 && n <= |rows|
    ensures Grow(rows[..n], count, uncovered).rows == Grow(rows, count, uncovered).rows[..n]
  {
    if n == |rows| {
      assert rows[..n] == rows;
    } else {
      var front := rows[..|rows| - 1];
      assert front[..n] == rows[..n];
      GrowPrefix(front, n, count, uncovered);
    }
  }

  lemma {:induction false} PatchTruncates(k: nat, pairs: seq<Pair>, low: nat, high: nat, s: Sweep)
    requires low <= high && |s.rows| <= low
    ensures var a, b := Patch(k, pairs, low, s), Patch(k, pairs, high, s);
      a.rows == Take(b.rows, low) && (|a.rows| < low ==> a == b)
  {
    if pairs != [] {
      PatchTruncates(k, pairs[..|pairs| - 1], low, high, s);
    }
  }

  lemma GrownPrefix(v: seq<nat>, f: nat, many: seq<Row>, n: nat)
    requires Factors(v) && f < |v| && Shaped(v, f, many) && n <= |many|
    ensures Grown(v, f, many[..n]).rows == Grown(v, f, many).rows[..n]
  {
    var few := many[..n];
    var a, b := Required(v) - RowsPairs(few), Required(v) - RowsPairs(many);
    RowsPairsWithin(few, many);
    forall p | p in RowsPairs(many) ensures p.right < f {
      RowsPairsMember(many, p);
    }
    assert At(a, f) == At(Required(v), f) == At(b, f);
    GrowAgrees(f, few, v[f], a, b);
    GrowPrefix(many, n, v[f], b);
  }

  lemma RowsPairsWithin(few: seq<Row>, many: seq<Row>)
    requires |few| <= |many| && few == many[..|few|]
    ensures RowsPairs(few) <= RowsPairs(many)
  {
    forall p | p in RowsPairs(few) ensures p in RowsPairs(many) {
      RowsPairsMember(few, p);
      RowsPairsMember(many, p);
      var n :| 0 <= n < |few| && InRow(p, few[n]);
      assert InRow(p, many[n]);
    }
  }

  lemma PatchedTruncates(v: seq<nat>, f: nat, few: seq<Row>, many: seq<Row>, low: nat, high: nat)
    requires Factors(v) && f < |v| && low <= high
    requires Shaped(v, f, many) && |many| <= high && few == Take(many, low)
    ensures Patched(v, f, few, low).rows == Take(Patched(v, f, many, high).rows, low)
  {
    var g, h := Grown(v, f, few), Grown(v, f, many);
    if |few| < low {
      PatchTruncates(f, Relevant(f, g.uncovered), low, high, g);
    } else {
      assert few == many[..low];
      GrownPrefix(v, f, many, low);
      PatchStops(f, Relevant(f, g.uncovered), 0, low, g);
    }
  }

  /** Capping is pure truncation: the rows for a smaller cap are the first rows
      for a larger one. */
  lemma {:induction false} CapTruncates(v: seq<nat>, k: nat, low: nat, high: nat)
    requires Factors(v) && 2 <= k <= |v| && low <= high
    ensures Covering(v, k, low) == Take(Covering(v, k, high), low)
  {
    if k > 2 {
      CapTruncates(v, k - 1, low, high);
      CoveringShape(v, k - 1, high);
      PatchedTruncates(v, k - 1, Covering(v, k - 1, low), Covering(v, k - 1, high), low, high);
    }
  }
}
