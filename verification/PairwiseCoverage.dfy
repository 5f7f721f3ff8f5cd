/** What the rows cover: completeness, the exact cap it needs, the row bound, and
    the gain of each greedy choice. */
module PairwiseCoverage {
  import opened PairIds
  import opened Pairwise

  ghost predicate Complete(v: seq<nat>, rows: seq<Row>)
    requires Factors(v)
  {
    Required(v) <= RowsPairs(rows)
  }

  ghost function Below(v: seq<nat>, k: nat): set<Pair> {
    set p | p in Required(v) && p.right < k
  }

  // --------------------------------------------- how many pairs are required

  function Sum(v: seq<nat>): nat {
    if v == [] then 0 else Sum(v[..|v| - 1]) + v[|v| - 1]
  }

  /** The sum over i < j < k of v_i * v_j. */
  function PairCount(v: seq<nat>, k: nat): nat
    requires k <= |v|
  {
    if k == 0 then 0 else PairCount(v, k - 1) + v[k - 1] * Sum(v[..k - 1])
  }

  ghost function Strip(i: nat, a: nat, k: nat, count: nat): set<Pair> {
    set b: nat | b < count :: Pair(i, a, k, b)
  }

  ghost function Block(i: nat, m: nat, k: nat, count: nat): set<Pair> {
    set a: nat, b: nat | a < m && b < count :: Pair(i, a, k, b)
  }

  ghost function Column(v: seq<nat>, n: nat, k: nat, count: nat): set<Pair>
    requires n <= |v|
  {
    set i: nat, a: nat, b: nat | i < n && a < v[i] && b < count :: Pair(i, a, k, b)
  }

  lemma {:induction false} StripSize(i: nat, a: nat, k: nat, count: nat)
    ensures |Strip(i, a, k, count)| == count
  {
    if count > 0 {
      StripSize(i, a, k, count - 1);
      assert Strip(i, a, k, count) == Strip(i, a, k, count - 1) + {Pair(i, a, k, count - 1)};
    }
  }

  lemma BlockSplit(i: nat, m: nat, k: nat, count: nat)
    ensures m == 0 ==> |Block(i, m, k, count)| == 0
    ensures m > 0 ==> |Block(i, m, k, count)| == |Block(i, m - 1, k, count)| + |Strip(i, m - 1, k, count)|
  {
    if m == 0 {
      assert Block(i, m, k, count) == {};
    } else {
      assert Block(i, m, k, count) == Block(i, m - 1, k, count) + Strip(i, m - 1, k, count);
      assert Block(i, m - 1, k, count) !! Strip(i, m - 1, k, count);
    }
  }

  lemma {:induction false} BlockSize(i: nat, m: nat, k: nat, count: nat)
    ensures |Block(i, m, k, count)| == m * count
  {
    hide Block, Strip;
    BlockSplit(i, m, k, count);
    if m > 0 {
      BlockSize(i, m - 1, k, count);
      StripSize(i, m - 1, k, count);
      Distribute(count, m - 1, 1);
    }
  }

  lemma Distribute(c: nat, a: nat, b: nat)
    ensures c * (a + b) == c * a + b * c
  {
  }

  lemma {:induction false} ColumnSize(v: seq<nat>, n: nat, k: nat, count: nat)
    requires n <= |v|
    ensures |Column(v, n, k, count)| == count * Sum(v[..n])
  {
    if n > 0 {
      ColumnSize(v, n - 1, k, count);
      BlockSize(n - 1, v[n - 1], k, count);
      assert Column(v, n, k, count) == Column(v, n - 1, k, count) + Block(n - 1, v[n - 1], k, count);
      assert Column(v, n - 1, k, count) !! Block(n - 1, v[n - 1], k, count);
      assert v[..n][..n - 1] == v[..n - 1];
      Distribute(count, Sum(v[..n - 1]), v[n - 1]);
    }
  }

  lemma {:induction false} BelowSize(v: seq<nat>, k: nat)
    requires Factors(v) && k <= |v|
    ensures |Below(v, k)| == PairCount(v, k)
  {
    if k > 0 {
      BelowSize(v, k - 1);
      BelowSplit(v, k - 1);
    } else {
      assert Below(v, 0) == {};
    }
  }

  lemma BelowSplit(v: seq<nat>, k: nat)
    requires Factors(v) && k < |v|
    ensures |Below(v, k + 1)| == |Below(v, k)| + |At(Required(v), k)|
    ensures |At(Required(v), k)| == v[k] * Sum(v[..k])
  {
    assert Below(v, k + 1) == Below(v, k) + At(Required(v), k);
    assert Below(v, k) !! At(Required(v), k);
    ColumnSize(v, k, k, v[k]);
    assert At(Required(v), k) == Column(v, k, k, v[k]);
  }

  /** The reported total is the sum over i < j of v_i * v_j. */
  lemma RequiredSize(v: seq<nat>)
    requires Factors(v)
    ensures |Required(v)| == PairCount(v, |v|)
  {
    assert Required(v) == Below(v, |v|);
    BelowSize(v, |v|);
  }

  // ------------------------------------------------- completeness and the bound

  lemma Subset<T>(a: set<T>, b: set<T>)
    requires a <= b
    ensures |a| <= |b|
  {
    assert b == a + (b - a);
  }

  lemma CandidateCovers(k: nat, p: Pair, uncovered: set<Pair>)
    requires p in uncovered && p.left < p.right == k
    ensures p !in uncovered - RowPairs(Candidate(k, p))
    ensures |At(uncovered - RowPairs(Candidate(k, p)), k)| < |At(uncovered, k)|
  {
    assert InRow(p, Candidate(k, p));
    Subset(At(uncovered - RowPairs(Candidate(k, p)), k), At(uncovered, k) - {p});
  }

  /** Each added row uses up a pair of the new factor, so the rows and the pairs
      still open never grow together, and no listed pair stays open below the cap. */
  lemma {:induction false} PatchSpends(k: nat, pairs: seq<Pair>, limit: nat, s: Sweep)
    requires forall p | p in pairs :: p.left < p.right == k
    ensures var t := Patch(k, pairs, limit, s);
      && |t.rows| + |At(t.uncovered, k)| <= |s.rows| + |At(s.uncovered, k)|
      && (|t.rows| < limit || |s.rows| + |At(s.uncovered, k)| <= limit ==>
            forall p | p in pairs :: p !in t.uncovered)
  {
    if pairs != [] {
      var front, p := pairs[..|pairs| - 1], pairs[|pairs| - 1];
      PatchSpends(k, front, limit, s);
      var t := Patch(k, front, limit, s);
      if p in t.uncovered {
        assert p in pairs && p in At(t.uncovered, k);
        CandidateCovers(k, p, t.uncovered);
      }
      assert forall q | q in pairs :: q in front || q == p;
    }
  }

  lemma StageSpends(v: seq<nat>, k: nat, rows: seq<Row>, limit: nat)
    requires Factors(v) && k < |v| && Shaped(v, k, rows) && Distinct(rows)
    requires Within(v, k, rows, limit)
    ensures Within(v, k + 1, Patched(v, k, rows, limit).rows, limit)
  {
    BelowSplit(v, k);
    var g := Grown(v, k, rows);
    var relevant := Relevant(k, g.uncovered);
    GrownShape(v, k, rows);
    Subset(At(g.uncovered, k), At(Required(v), k));
    RelevantMembers(k, g.uncovered);
    PatchSpends(k, relevant, limit, g);
    PatchAccounts(v, k, relevant, limit, g);
    ExtendedRowsCover(g.rows, rows);
    var t := Patched(v, k, rows, limit);
    RowsPairsWithin(g.rows, t.rows);
    if Below(v, k) <= RowsPairs(rows) && forall p | p in relevant :: p !in t.uncovered {
      forall p | p in Below(v, k + 1) ensures p in RowsPairs(t.rows) {
        if p.right == k && p in g.uncovered {
          assert p in At(g.uncovered, k);
        }
      }
    }
  }

  lemma ProductCovers(v: seq<nat>)
    requires Factors(v)
    ensures |ProductRows(v[0], v[1])| == |Below(v, 2)|
    ensures Below(v, 2) <= RowsPairs(ProductRows(v[0], v[1]))
  {
    var rows := ProductRows(v[0], v[1]);
    ProductShape(v, v[0]);
    BlockSize(0, v[0], 1, v[1]);
    assert Below(v, 2) == Block(0, v[0], 1, v[1]);
    forall p | p in Below(v, 2) ensures p in RowsPairs(rows) {
      RowsPairsMember(rows, p);
      assert [p.leftValue, p.rightValue] in rows;
    }
  }

  lemma ProductWithin(v: seq<nat>, limit: nat)
    requires Factors(v)
    ensures Within(v, 2, Take(ProductRows(v[0], v[1]), limit), limit)
  {
    ProductCovers(v);
  }

  /** The rows over the first k factors are few enough, and complete unless cut. */
  ghost predicate Within(v: seq<nat>, k: nat, rows: seq<Row>, limit: nat) {
    && |rows| <= |Below(v, k)|
    && (|rows| < limit || |Below(v, k)| <= limit ==> Below(v, k) <= RowsPairs(rows))
  }

  /** At most one row per required pair; and below the cap, or with a cap of at
      least the number of pairs, every pair of the first k factors is covered. */
  lemma {:induction false} CoveringComplete(v: seq<nat>, k: nat, limit: nat)
    requires Factors(v) && 2 <= k <= |v|
    ensures Within(v, k, Covering(v, k, limit), limit)
  {
    hide Patched, Within;
    if k == 2 {
      ProductWithin(v, limit);
    } else {
      CoveringComplete(v, k - 1, limit);
      CoveringShape(v, k - 1, limit);
      StageSpends(v, k - 1, Covering(v, k - 1, limit), limit);
    }
  }

  // --------------------------------------- exactly which caps give full coverage

  /** Every row covers some pair that no earlier row covers. */
  ghost predicate EachRowCounts(rows: seq<Row>) {
    forall n | 0 <= n < |rows| :: RowCounts(rows, n)
  }

  ghost predicate RowCounts(rows: seq<Row>, n: nat)
    requires n < |rows|
  {
    !(RowPairs(rows[n]) <= RowsPairs(rows[..n]))
  }

  lemma NewPair(rows: seq<Row>, n: nat, p: Pair)
    requires n < |rows| && InRow(p, rows[n])
    requires forall m | 0 <= m < n :: !InRow(p, rows[m])
    ensures RowCounts(rows, n)
  {
    RowsPairsMember(rows[..n], p);
  }

  lemma NewPairOf(rows: seq<Row>, n: nat) returns (p: Pair)
    requires n < |rows| && EachRowCounts(rows)
    ensures InRow(p, rows[n]) && p !in RowsPairs(rows[..n])
    ensures forall m | 0 <= m < n :: !InRow(p, rows[m])
  {
    assert RowCounts(rows, n);
    p :| p in RowPairs(rows[n]) && p !in RowsPairs(rows[..n]);
    RowsPairsMember(rows[..n], p);
    forall m | 0 <= m < n ensures !InRow(p, rows[m]) {
      assert rows[..n][m] == rows[m];
    }
  }

  lemma ProductRowsCount(v: seq<nat>, limit: nat)
    requires Factors(v)
    ensures EachRowCounts(Take(ProductRows(v[0], v[1]), limit))
  {
    var rows := Take(ProductRows(v[0], v[1]), limit);
    ProductShape(v, v[0]);
    forall n | 0 <= n < |rows| ensures RowCounts(rows, n) {
      var p := Pair(0, rows[n][0], 1, rows[n][1]);
      forall m | 0 <= m < n ensures !InRow(p, rows[m]) {
        assert rows[m] != rows[n] && RowFits(v, 2, rows[m]) && RowFits(v, 2, rows[n]);
      }
      NewPair(rows, n, p);
    }
  }

  lemma GrownRowsCount(grown: seq<Row>, rows: seq<Row>, k: nat)
    requires RowsExtend(grown, rows) && EachRowCounts(rows)
    requires forall n | 0 <= n < |rows| :: |rows[n]| == k
    ensures EachRowCounts(grown)
  {
    forall n | 0 <= n < |grown| ensures RowCounts(grown, n) {
      var p := NewPairOf(rows, n);
      forall m | 0 <= m <= n ensures InRow(p, grown[m]) == InRow(p, rows[m]) {
        assert RowExtends(grown[m], rows[m]);
      }
      NewPair(grown, n, p);
    }
  }

  lemma {:induction false} PatchedRowsCount(v: seq<nat>, k: nat, pairs: seq<Pair>, limit: nat, s: Sweep)
    requires Accurate(v, s) && EachRowCounts(s.rows)
    requires forall p | p in pairs :: p.left < p.right == k
    ensures EachRowCounts(Patch(k, pairs, limit, s).rows)
  {
    if pairs != [] {
      var front, p := pairs[..|pairs| - 1], pairs[|pairs| - 1];
      PatchedRowsCount(v, k, front, limit, s);
      PatchAccounts(v, k, front, limit, s);
      var rows := Patch(k, front, limit, s).rows;
      if p in Patch(k, front, limit, s).uncovered {
        assert p in pairs && InRow(p, Candidate(k, p)) && p !in RowsPairs(rows);
        RowCountsSnoc(rows, Candidate(k, p));
      }
    }
  }

  lemma RowCountsSnoc(rows: seq<Row>, row: Row)
    requires EachRowCounts(rows) && !(RowPairs(row) <= RowsPairs(rows))
    ensures EachRowCounts(rows + [row])
  {
    var all := rows + [row];
    forall n | 0 <= n < |all| ensures RowCounts(all, n) {
      assert all[..n] == if n < |rows| then rows[..n] else rows;
      assert n < |rows| ==> RowCounts(rows, n);
    }
  }

  lemma StageRowsCount(v: seq<nat>, k: nat, rows: seq<Row>, limit: nat)
    requires Factors(v) && k < |v| && Shaped(v, k, rows) && Distinct(rows) && EachRowCounts(rows)
    ensures EachRowCounts(Patched(v, k, rows, limit).rows)
  {
    GrownShape(v, k, rows);
    var g := Grown(v, k, rows);
    assert forall n | 0 <= n < |rows| :: RowFits(v, k, rows[n]);
    GrownRowsCount(g.rows, rows, k);
    RelevantMembers(k, g.uncovered);
    PatchedRowsCount(v, k, Relevant(k, g.uncovered), limit, g);
  }

  lemma {:induction false} CoveringRowsCount(v: seq<nat>, k: nat, limit: nat)
    requires Factors(v) && 2 <= k <= |v|
    ensures EachRowCounts(Covering(v, k, limit))
  {
    hide Patched, EachRowCounts;
    if k == 2 {
      ProductRowsCount(v, limit);
    } else {
      CoveringRowsCount(v, k - 1, limit);
      CoveringShape(v, k - 1, limit);
      StageRowsCount(v, k - 1, Covering(v, k - 1, limit), limit);
    }
  }

  /** The rows the generator produces when no cap interferes. */
  ghost function FullRows(v: seq<nat>): seq<Row>
    requires Factors(v)
  {
    Covering(v, |v|, |Required(v)|)
  }

  lemma AllBelow(v: seq<nat>)
    requires Factors(v)
    ensures Below(v, |v|) == Required(v)
  {
  }

  lemma CappedRows(v: seq<nat>, limit: nat)
    requires Factors(v)
    ensures Covering(v, |v|, limit) == Take(FullRows(v), limit)
  {
    var bound := |Required(v)|;
    AllBelow(v);
    if limit <= bound {
      CapTruncates(v, |v|, limit, bound);
    } else {
      CapTruncates(v, |v|, bound, limit);
      CoveringComplete(v, |v|, limit);
    }
  }

  /** Cutting rows off leaves some pair of the first row cut uncovered. */
  lemma PrefixIncomplete(v: seq<nat>, rows: seq<Row>, n: nat)
    requires Factors(v) && Shaped(v, |v|, rows) && EachRowCounts(rows) && n < |rows|
    ensures !Complete(v, rows[..n])
  {
    var p := NewPairOf(rows, n);
    assert RowFits(v, |v|, rows[n]);
    assert p in Required(v);
  }

  /** A capped run covers every pair exactly when the cap cut nothing off. */
  lemma CompleteIff(v: seq<nat>, limit: nat)
    requires Factors(v)
    ensures Complete(v, Covering(v, |v|, limit)) <==> |FullRows(v)| <= limit
  {
    CappedRows(v, limit);
    AllBelow(v);
    CoveringComplete(v, |v|, |Required(v)|);
    if limit < |FullRows(v)| {
      CoveringRowsCount(v, |v|, |Required(v)|);
      CoveringShape(v, |v|, |Required(v)|);
      PrefixIncomplete(v, FullRows(v), limit);
    }
  }

  /** A result shorter than the cap is complete, and so is any result whose cap is
      at least the sum over i < j of v_i * v_j; no result has more rows than that. */
  lemma CompleteBelowCap(v: seq<nat>, limit: nat)
    requires Factors(v)
    ensures |Covering(v, |v|, limit)| <= PairCount(v, |v|)
    ensures |Covering(v, |v|, limit)| < limit || PairCount(v, |v|) <= limit ==>
      Complete(v, Covering(v, |v|, limit))
  {
    RequiredSize(v);
    AllBelow(v);
    CoveringComplete(v, |v|, limit);
  }

  // ------------------------------------------------------------ greedy choice

  function GainSum(row: Row, count: nat, uncovered: set<Pair>): nat {
    if count == 0 then 0 else GainSum(row, count - 1, uncovered) + Gain(row, count - 1, uncovered)
  }

  /** The open pairs between this row's values and any value of the next factor. */
  ghost function Open(row: Row, count: nat, uncovered: set<Pair>): set<Pair> {
    set p | p in uncovered && p.left < |row| == p.right && row[p.left] == p.leftValue && p.rightValue < count
  }

  lemma {:induction false} GainSumCountsOpen(row: Row, count: nat, uncovered: set<Pair>)
    requires RowPairs(row) !! uncovered
    ensures GainSum(row, count, uncovered) == |Open(row, count, uncovered)|
  {
    hide Gain, Open;
    if count == 0 {
      OpenNone(row, uncovered);
    } else {
      GainSumCountsOpen(row, count - 1, uncovered);
      OpenSplit(row, count - 1, uncovered);
    }
  }

  lemma OpenNone(row: Row, uncovered: set<Pair>)
    ensures |Open(row, 0, uncovered)| == 0
  {
    assert Open(row, 0, uncovered) == {};
  }

  lemma OpenSplit(row: Row, value: nat, uncovered: set<Pair>)
    requires RowPairs(row) !! uncovered
    ensures |Open(row, value + 1, uncovered)| == |Open(row, value, uncovered)| + Gain(row, value, uncovered)
  {
    var gained := RowPairs(row + [value]) * uncovered;
    var here := set p | p in Open(row, value + 1, uncovered) && p.rightValue == value;
    forall p ensures p in gained <==> p in here {
      if p in gained && p.right < |row| { assert InRow(p, row); }
    }
    assert gained == here;
    assert Open(row, value + 1, uncovered) == Open(row, value, uncovered) + here;
    assert Open(row, value, uncovered) !! here;
  }

  lemma {:induction false} GainSumBound(row: Row, count: nat, uncovered: set<Pair>, most: nat)
    requires forall u | 0 <= u < count :: Gain(row, u, uncovered) <= most
    ensures GainSum(row, count, uncovered) <= count * most
  {
    if count > 0 {
      GainSumBound(row, count - 1, uncovered, most);
      assert count * most == (count - 1) * most + most;
    }
  }

  /** The chosen value covers at least the average share of the open pairs. */
  lemma GreedyGain(row: Row, count: nat, uncovered: set<Pair>)
    requires count >= 1 && RowPairs(row) !! uncovered
    ensures |Open(row, count, uncovered)| <= count * Gain(row, BestValue(row, count, uncovered), uncovered)
  {
    BestValueIsBest(row, count, uncovered);
    GainSumCountsOpen(row, count, uncovered);
    GainSumBound(row, count, uncovered, Gain(row, BestValue(row, count, uncovered), uncovered));
  }
}
