/** What the rows of each sweep are, in terms of the pairs alone: the laws a stage obeys, and
    that they leave only one list of rows. */
module PairwiseOrder {
  import opened Text
  import opened PairIds
  import opened Pairwise

  /** A pair of factor k that no row covers yet. */
  ghost predicate Open(v: seq<nat>, k: nat, rows: seq<Row>, p: Pair) {
    InRange(p, v) && p.right == k && forall n | 0 <= n < |rows| :: !InRow(p, rows[n])
  }

  /** An open pair whose id none of the others comes before. */
  ghost predicate LeastOpen(v: seq<nat>, k: nat, rows: seq<Row>, p: Pair) {
    Open(v, k, rows, p) && forall q | Open(v, k, rows, q) :: Lexicographic(PairId(p), PairId(q))
  }

  /** The row with both values of the pair and zero everywhere else. */
  ghost predicate RowOf(row: Row, k: nat, p: Pair) {
    && |row| == k + 1
    && (p.left <= k ==> row[p.left] == p.leftValue)
    && (p.right <= k ==> row[p.right] == p.rightValue)
    && forall i | 0 <= i <= k && i != p.left && i != p.right :: row[i] == 0
  }

  /** The open pairs a value adds to a row. */
  ghost function Adds(v: seq<nat>, k: nat, rows: seq<Row>, row: Row, value: nat): set<Pair>
    requires |v| >= 2
  {
    set p | p in Required(v) && Open(v, k, rows, p) && InRow(p, row + [value])
  }

  /** The smallest of the values that add most. */
  ghost predicate AddsMost(v: seq<nat>, k: nat, rows: seq<Row>, row: Row, value: nat)
    requires |v| >= 2 && k < |v|
  {
    && value < v[k]
    && (forall u: nat | u < v[k] :: |Adds(v, k, rows, row, u)| <= |Adds(v, k, rows, row, value)|)
    && forall u: nat | u < value :: |Adds(v, k, rows, row, u)| < |Adds(v, k, rows, row, value)|
  }

  /** Row n of a stage: an old row with the best value, then the least open pairs. */
  ghost predicate RowLaw(v: seq<nat>, k: nat, before: seq<Row>, after: seq<Row>, n: nat)
    requires |v| >= 2 && k < |v| && n < |after|
  {
    if n < |before| then
      |after[n]| >= 1
      && after[n][..|after[n]| - 1] == before[n]
      && AddsMost(v, k, after[..n], before[n], after[n][|after[n]| - 1])
    else exists p :: LeastOpen(v, k, after[..n], p) && RowOf(after[n], k, p)
  }

  /** One more factor: every row obeys its law, and the rows end at the cap or when no pair
      is open. */
  ghost predicate StageLaw(v: seq<nat>, k: nat, limit: nat, before: seq<Row>, after: seq<Row>)
    requires |v| >= 2 && k < |v|
  {
    && |before| <= |after|
    && (forall n: nat | n < |after| :: RowLaw(v, k, before, after, n))
    && (|after| < limit ==> forall p :: !Open(v, k, after, p))
    && (|before| < |after| ==> |after| <= limit)
  }

  /** The first stage: all values of two factors in order, as many as the cap allows. */
  ghost predicate FirstLaw(v: seq<nat>, limit: nat, rows: seq<Row>)
    requires |v| >= 2
  {
    && |rows| == (if limit <= v[0] * v[1] then limit else v[0] * v[1])
    && forall n: nat | n < |rows| :: v[1] > 0 && rows[n] == [n / v[1], n % v[1]]
  }

  // -------------------------------------------------------------- the first stage

  lemma {:induction false} ProductAt(m: nat, n: nat, i: nat)
    requires n >= 1 && i < m * n
    ensures |ProductRows(m, n)| == m * n && ProductRows(m, n)[i] == [i / n, i % n]
  {
    ProductSize(m, n);
    ProductSize(m - 1, n);
    assert (m - 1) * n + n == m * n;
    if i < (m - 1) * n {
      ProductAt(m - 1, n, i);
    } else {
      Quotient(m - 1, n, i - (m - 1) * n);
    }
  }

  lemma {:induction false} ProductSize(m: nat, n: nat)
    ensures |ProductRows(m, n)| == m * n
  {
    if m > 0 {
      ProductSize(m - 1, n);
      assert (m - 1) * n + n == m * n;
    }
  }

  lemma {:induction false} Quotient(q: nat, n: nat, r: nat)
    requires r < n
    ensures (q * n + r) / n == q && (q * n + r) % n == r
  {
    var x := q * n + r;
    assert x == n * (x / n) + x % n;
    if x / n > q {
      Times(q + 1, x / n, n);
    } else if x / n < q {
      Times(x / n + 1, q, n);
    }
  }

  lemma Times(a: nat, b: nat, n: nat)
    requires a <= b
    ensures a * n <= b * n
  {
  }

  lemma FirstStage(v: seq<nat>, limit: nat)
    requires Factors(v)
    ensures FirstLaw(v, limit, Covering(v, 2, limit))
  {
    ProductSize(v[0], v[1]);
    var rows := Covering(v, 2, limit);
    forall n: nat | n < |rows| ensures rows[n] == [n / v[1], n % v[1]] {
      ProductAt(v[0], v[1], n);
    }
  }

  // --------------------------------------------------------------- the old rows grow

  lemma WidthBounds(rows: seq<Row>, k: nat)
    requires forall n | 0 <= n < |rows| :: |rows[n]| == k
    ensures forall p | p in RowsPairs(rows) :: p.right < k
  {
    forall p | p in RowsPairs(rows) ensures p.right < k {
      RowsPairsMember(rows, p);
    }
  }

  /** What a value gains are the open pairs it adds. */
  lemma GainIsAdds(v: seq<nat>, k: nat, rows: seq<Row>, grown: seq<Row>, row: Row, value: nat)
    requires Factors(v) && k < |v| && |row| == k && row in rows && value < v[k]
    requires forall n | 0 <= n < |rows| :: |rows[n]| == k
    ensures Gain(row, value, Required(v) - RowsPairs(rows) - RowsPairs(grown)) == |Adds(v, k, grown, row, value)|
  {
    var uncovered := Required(v) - RowsPairs(rows) - RowsPairs(grown);
    WidthBounds(rows, k);
    forall p ensures p in NewlyCovered(row, value, uncovered) <==> p in Adds(v, k, grown, row, value) {
      RowsPairsMember(rows, p);
      RowsPairsMember(grown, p);
      if InRow(p, row + [value]) && p.right < k {
        assert InRow(p, row);
      }
    }
    assert NewlyCovered(row, value, uncovered) == Adds(v, k, grown, row, value);
  }

  lemma BestAddsMost(v: seq<nat>, k: nat, rows: seq<Row>, grown: seq<Row>, row: Row)
    requires Factors(v) && k < |v| && |row| == k && row in rows
    requires forall n | 0 <= n < |rows| :: |rows[n]| == k
    ensures AddsMost(v, k, grown, row, BestValue(row, v[k], Required(v) - RowsPairs(rows) - RowsPairs(grown)))
  {
    var uncovered := Required(v) - RowsPairs(rows) - RowsPairs(grown);
    BestValueIsBest(row, v[k], uncovered);
    hide Gain, Adds, BestValue, Required, RowsPairs;
    forall value: nat | value < v[k] ensures Gain(row, value, uncovered) == |Adds(v, k, grown, row, value)| {
      GainIsAdds(v, k, rows, grown, row, value);
    }
  }

  /** The n-th old row, grown, obeys its law. */
  lemma GrownRow(v: seq<nat>, k: nat, rows: seq<Row>, n: nat)
    requires Factors(v) && k < |v| && n < |rows| && forall m | 0 <= m < |rows| :: |rows[m]| == k
    ensures var grown := Grown(v, k, rows).rows;
      |grown| == |rows| && RowLaw(v, k, rows, grown, n)
  {
    var start := Required(v) - RowsPairs(rows);
    hide AddsMost, BestValue, Required, RowsPairs;
    GrowPrefix(rows, n, v[k], start);
    GrowPrefix(rows, n + 1, v[k], start);
    GrowAccounts(rows[..n], v[k], start);
    assert rows[..n + 1][..n] == rows[..n];
    var grown, before := Grown(v, k, rows).rows, Grow(rows[..n], v[k], start);
    BestAddsMost(v, k, rows, before.rows, rows[n]);
    var value := BestValue(rows[n], v[k], before.uncovered);
    assert grown[..n + 1] == before.rows + [rows[n] + [value]];
    assert grown[n] == grown[..n + 1][n] == rows[n] + [value];
    assert grown[..n] == before.rows;
  }

  // ------------------------------------------------------------- the rows added

  lemma RelevantAscends(k: nat, uncovered: set<Pair>, i: nat, j: nat)
    requires i <= j < |Relevant(k, uncovered)|
    ensures Lexicographic(PairId(Relevant(k, uncovered)[i]), PairId(Relevant(k, uncovered)[j]))
  {
    var marked := Marked(k, uncovered);
    IdsDistinguish(marked);
    Sorting.SortedIsSorted(marked, PairId);
    var ids := Relevant(k, uncovered);
    TextLeqTotal(PairId(ids[i]), PairId(ids[i]));
    TextLeqIff(PairId(ids[i]), PairId(ids[j]));
  }

  lemma CandidateIs(k: nat, p: Pair)
    requires p.left < p.right <= k
    ensures RowOf(Candidate(k, p), k, p) && InRow(p, Candidate(k, p))
  {
  }

  /** Below the cap, every pair visited is covered. */
  lemma {:induction false} VisitedAreCovered(k: nat, pairs: seq<Pair>, limit: nat, s: Sweep)
    requires forall p | p in pairs :: p.left < p.right <= k
    ensures var t := Patch(k, pairs, limit, s);
      |t.rows| < limit ==> forall p | p in pairs :: p !in t.uncovered
    decreases |pairs|
  {
    hide Candidate;
    if pairs != [] {
      VisitedAreCovered(k, pairs[..|pairs| - 1], limit, s);
      CandidateIs(k, pairs[|pairs| - 1]);
    }
  }

  /** All open pairs of the factor, in the order of their ids. */
  ghost predicate InIdOrder(k: nat, s: Sweep, pairs: seq<Pair>) {
    && (forall p :: p in pairs <==> p in s.uncovered && p.right == k)
    && forall i, j | 0 <= i <= j < |pairs| :: Lexicographic(PairId(pairs[i]), PairId(pairs[j]))
  }

  lemma OpenIff(v: seq<nat>, k: nat, s: Sweep, p: Pair)
    requires Accurate(v, s)
    ensures Open(v, k, s.rows, p) <==> p in s.uncovered && p.right == k
  {
    RowsPairsMember(s.rows, p);
  }

  /** The next pair that gets a row is the least open one. */
  lemma NextIsLeast(v: seq<nat>, k: nat, limit: nat, s: Sweep, pairs: seq<Pair>, m: nat)
    requires Factors(v) && k < |v| && Accurate(v, s) && InIdOrder(k, s, pairs) && m < |pairs|
    requires var t := Patch(k, pairs[..m], limit, s);
      pairs[m] in t.uncovered && |t.rows| < limit
    ensures LeastOpen(v, k, Patch(k, pairs[..m], limit, s).rows, pairs[m])
  {
    var t := Patch(k, pairs[..m], limit, s);
    PatchAccounts(v, k, pairs[..m], limit, s);
    forall p | p in pairs ensures p.left < p.right <= k {
      OpenIff(v, k, s, p);
    }
    VisitedAreCovered(k, pairs[..m], limit, s);
    hide Patch, Lexicographic, Accurate, PairId;
    assert pairs[m] in pairs;
    forall i | 0 <= i < m ensures pairs[i] !in t.uncovered {
      assert pairs[..m][i] in pairs[..m];
    }
    OpenIff(v, k, t, pairs[m]);
    forall q | Open(v, k, t.rows, q) ensures Lexicographic(PairId(pairs[m]), PairId(q)) {
      OpenIff(v, k, t, q);
      var i :| 0 <= i < |pairs| && pairs[i] == q;
    }
  }

  ghost predicate AddedLaw(v: seq<nat>, k: nat, rows: seq<Row>, n: nat)
    requires n < |rows|
  {
    exists p :: LeastOpen(v, k, rows[..n], p) && RowOf(rows[n], k, p)
  }

  ghost predicate AllAdded(v: seq<nat>, k: nat, from: nat, rows: seq<Row>) {
    forall n: nat | from <= n < |rows| :: AddedLaw(v, k, rows, n)
  }

  lemma AddedStays(v: seq<nat>, k: nat, rows: seq<Row>, more: seq<Row>, n: nat)
    requires n < |rows| <= |more| && more[..|rows|] == rows && AddedLaw(v, k, rows, n)
    ensures AddedLaw(v, k, more, n)
  {
    hide LeastOpen, RowOf;
    assert more[..n] == more[..|rows|][..n] && more[n] == more[..|rows|][n];
  }

  lemma AddedNow(v: seq<nat>, k: nat, rows: seq<Row>, row: Row, p: Pair)
    requires LeastOpen(v, k, rows, p) && RowOf(row, k, p)
    ensures AddedLaw(v, k, rows + [row], |rows|)
  {
    hide LeastOpen, RowOf;
    assert (rows + [row])[..|rows|] == rows;
  }

  lemma NoneAdded(v: seq<nat>, k: nat, rows: seq<Row>)
    ensures AllAdded(v, k, |rows|, rows)
  {
  }

  lemma OneMoreAdded(v: seq<nat>, k: nat, from: nat, rows: seq<Row>, row: Row, p: Pair)
    requires AllAdded(v, k, from, rows) && LeastOpen(v, k, rows, p) && RowOf(row, k, p)
    ensures AllAdded(v, k, from, rows + [row])
  {
    hide AddedLaw, LeastOpen, RowOf;
    AddedNow(v, k, rows, row, p);
    assert (rows + [row])[..|rows|] == rows;
    forall n: nat | from <= n < |rows| ensures AddedLaw(v, k, rows + [row], n) {
      AddedStays(v, k, rows, rows + [row], n);
    }
  }

  /** The added rows obey their law, one after the other. */
  lemma {:induction false} AddedRows(v: seq<nat>, k: nat, limit: nat, s: Sweep, pairs: seq<Pair>, m: nat)
    requires Factors(v) && k < |v| && Accurate(v, s) && InIdOrder(k, s, pairs) && m <= |pairs|
    ensures AllAdded(v, k, |s.rows|, Patch(k, pairs[..m], limit, s).rows)
    decreases m
  {
    hide AllAdded, LeastOpen, RowOf, Accurate, InIdOrder, Candidate, InRange;
    if m == 0 {
      assert pairs[..m] == [];
      NoneAdded(v, k, s.rows);
    } else {
      var p := pairs[m - 1];
      AddedRows(v, k, limit, s, pairs, m - 1);
      assert pairs[..m][..m - 1] == pairs[..m - 1] && pairs[..m][m - 1] == p;
      var t := Patch(k, pairs[..m - 1], limit, s);
      assert Patch(k, pairs[..m], limit, s) == PatchOne(k, p, limit, t);
      if p in t.uncovered && |t.rows| < limit {
        NextIsLeast(v, k, limit, s, pairs, m - 1);
        OrderedAre(v, k, s, pairs, m - 1);
        CandidateIs(k, p);
        OneMoreAdded(v, k, |s.rows|, t.rows, Candidate(k, p), p);
      }
    }
  }

  lemma OrderedAre(v: seq<nat>, k: nat, s: Sweep, pairs: seq<Pair>, m: nat)
    requires Accurate(v, s) && InIdOrder(k, s, pairs) && m < |pairs|
    ensures pairs[m].left < pairs[m].right == k
  {
    assert pairs[m] in pairs;
    OpenIff(v, k, s, pairs[m]);
  }

  lemma RelevantInOrder(v: seq<nat>, k: nat, s: Sweep)
    ensures InIdOrder(k, s, Relevant(k, s.uncovered))
  {
    var pairs := Relevant(k, s.uncovered);
    RelevantMembers(k, s.uncovered);
    hide Relevant, Lexicographic;
    forall i, j | 0 <= i <= j < |pairs| ensures Lexicographic(PairId(pairs[i]), PairId(pairs[j])) {
      RelevantAscends(k, s.uncovered, i, j);
    }
  }

  lemma NoneLeftOpen(v: seq<nat>, k: nat, limit: nat, s: Sweep, pairs: seq<Pair>)
    requires Accurate(v, s) && InIdOrder(k, s, pairs)
    ensures var rows := Patch(k, pairs, limit, s).rows;
      |rows| < limit ==> forall p :: !Open(v, k, rows, p)
  {
    var t := Patch(k, pairs, limit, s);
    PatchAccounts(v, k, pairs, limit, s);
    forall p | p in pairs ensures p.left < p.right <= k {
      OpenIff(v, k, s, p);
    }
    VisitedAreCovered(k, pairs, limit, s);
    hide Patch, Lexicographic, Accurate, PairId;
    if |t.rows| < limit {
      forall p ensures !Open(v, k, t.rows, p) {
        OpenIff(v, k, t, p);
      }
    }
  }

  /** Each stage obeys the laws. */
  lemma StageObeys(v: seq<nat>, k: nat, limit: nat)
    requires Factors(v) && 2 <= k < |v|
    ensures StageLaw(v, k, limit, Covering(v, k, limit), Covering(v, k + 1, limit))
  {
    hide Patched, Shaped, Distinct, StageLaw;
    var before := Covering(v, k, limit);
    CoveringShape(v, k, limit);
    RowWidths(v, k, before);
    PatchedObeys(v, k, limit, before);
  }

  lemma RowWidths(v: seq<nat>, k: nat, rows: seq<Row>)
    requires Shaped(v, k, rows)
    ensures forall n | 0 <= n < |rows| :: |rows[n]| == k
  {
    forall n | 0 <= n < |rows| ensures |rows[n]| == k {
      assert RowFits(v, k, rows[n]);
    }
  }

  lemma PatchedObeys(v: seq<nat>, k: nat, limit: nat, before: seq<Row>)
    requires Factors(v) && k < |v| && Shaped(v, k, before) && Distinct(before)
    requires forall n | 0 <= n < |before| :: |before[n]| == k
    ensures StageLaw(v, k, limit, before, Patched(v, k, before, limit).rows)
  {
    hide Relevant, Grown, Shaped, Distinct, Accurate, InIdOrder, RowLaw, AddedLaw, Open, RowsExtend;
    var g := Grown(v, k, before);
    GrownShape(v, k, before);
    var pairs := Relevant(k, g.uncovered);
    var after := Patch(k, pairs, limit, g).rows;
    GrownRows(v, k, before);
    RelevantInOrder(v, k, g);
    NoneLeftOpen(v, k, limit, g, pairs);
    AddedRows(v, k, limit, g, pairs, |pairs|);
    assert pairs[..|pairs|] == pairs;
    AddedAtMost(k, pairs, limit, g);
    hide Patch;
    forall n: nat | n < |after| ensures RowLaw(v, k, before, after, n) {
      if n < |before| {
        OldRowStays(v, k, before, g.rows, after, n);
      } else {
        NewRowStays(v, k, before, after, n);
      }
    }
  }

  lemma GrownRows(v: seq<nat>, k: nat, rows: seq<Row>)
    requires Factors(v) && k < |v| && forall m | 0 <= m < |rows| :: |rows[m]| == k
    ensures var grown := Grown(v, k, rows).rows;
      |grown| == |rows| && forall n: nat | n < |rows| :: RowLaw(v, k, rows, grown, n)
  {
    hide RowLaw;
    forall n: nat | n < |rows| ensures RowLaw(v, k, rows, Grown(v, k, rows).rows, n) {
      GrownRow(v, k, rows, n);
    }
  }

  lemma OldRowStays(v: seq<nat>, k: nat, before: seq<Row>, grown: seq<Row>, after: seq<Row>, n: nat)
    requires |v| >= 2 && k < |v| && n < |before| == |grown| <= |after| && after[..|grown|] == grown
    requires RowLaw(v, k, before, grown, n)
    ensures RowLaw(v, k, before, after, n)
  {
    hide AddsMost;
    assert after[n] == after[..|grown|][n] && after[..n] == after[..|grown|][..n];
  }

  lemma NewRowStays(v: seq<nat>, k: nat, before: seq<Row>, after: seq<Row>, n: nat)
    requires |v| >= 2 && k < |v| && |before| <= n < |after| && AddedLaw(v, k, after, n)
    ensures RowLaw(v, k, before, after, n)
  {
    hide LeastOpen, RowOf;
  }

  lemma {:induction false} AddedAtMost(k: nat, pairs: seq<Pair>, limit: nat, s: Sweep)
    ensures |Patch(k, pairs, limit, s).rows| > |s.rows| ==> |Patch(k, pairs, limit, s).rows| <= limit
    decreases |pairs|
  {
    if pairs != [] {
      AddedAtMost(k, pairs[..|pairs| - 1], limit, s);
    }
  }

  // ------------------------------------------------------ only one list obeys them

  lemma LeastIsOne(v: seq<nat>, k: nat, rows: seq<Row>, p: Pair, q: Pair)
    requires LeastOpen(v, k, rows, p) && LeastOpen(v, k, rows, q)
    ensures p == q
  {
    TextLeqIff(PairId(p), PairId(q));
    TextLeqIff(PairId(q), PairId(p));
    TextLeqTotal(PairId(p), PairId(q));
    assert Lexicographic(PairId(p), PairId(q)) && Lexicographic(PairId(q), PairId(p));
    hide Lexicographic, TextLeq, PairId, Open;
    PairIdRoundTrip(p);
    PairIdRoundTrip(q);
  }

  lemma RowIsOne(k: nat, p: Pair, a: Row, b: Row)
    requires RowOf(a, k, p) && RowOf(b, k, p)
    ensures a == b
  {
    assert forall i | 0 <= i <= k :: a[i] == b[i];
  }

  lemma BestIsOne(v: seq<nat>, k: nat, rows: seq<Row>, row: Row, a: nat, b: nat)
    requires |v| >= 2 && k < |v| && AddsMost(v, k, rows, row, a) && AddsMost(v, k, rows, row, b)
    ensures a == b
  {
    hide Adds;
    assert |Adds(v, k, rows, row, a)| <= |Adds(v, k, rows, row, b)| <= |Adds(v, k, rows, row, a)|;
  }

  lemma SameNext(v: seq<nat>, k: nat, before: seq<Row>, a: seq<Row>, b: seq<Row>, n: nat)
    requires |v| >= 2 && k < |v| && n < |a| && n < |b| && a[..n] == b[..n]
    requires RowLaw(v, k, before, a, n) && RowLaw(v, k, before, b, n)
    ensures a[n] == b[n]
  {
    hide AddsMost, LeastOpen, RowOf;
    if n < |before| {
      var x, y := a[n], b[n];
      BestIsOne(v, k, a[..n], before[n], x[|x| - 1], y[|y| - 1]);
      assert x == x[..|x| - 1] + [x[|x| - 1]] && y == y[..|y| - 1] + [y[|y| - 1]];
    } else {
      var p :| LeastOpen(v, k, a[..n], p) && RowOf(a[n], k, p);
      var q :| LeastOpen(v, k, b[..n], q) && RowOf(b[n], k, q);
      LeastIsOne(v, k, a[..n], p, q);
      RowIsOne(k, p, a[n], b[n]);
    }
  }

  lemma {:induction false} SameRows(v: seq<nat>, k: nat, limit: nat, before: seq<Row>, a: seq<Row>, b: seq<Row>, n: nat)
    requires |v| >= 2 && k < |v| && StageLaw(v, k, limit, before, a) && StageLaw(v, k, limit, before, b)
    requires n <= |a| && n <= |b|
    ensures a[..n] == b[..n]
  {
    hide RowLaw, Open;
    if n > 0 {
      SameRows(v, k, limit, before, a, b, n - 1);
      SameNext(v, k, before, a, b, n - 1);
      assert a[..n] == a[..n - 1] + [a[n - 1]] && b[..n] == b[..n - 1] + [b[n - 1]];
    }
  }

  lemma NoLonger(v: seq<nat>, k: nat, limit: nat, before: seq<Row>, a: seq<Row>, b: seq<Row>)
    requires |v| >= 2 && k < |v| && StageLaw(v, k, limit, before, a) && StageLaw(v, k, limit, before, b)
    ensures |a| >= |b|
  {
    hide RowLaw, Open, AddedLaw;
    var n := |a|;
    if n < |b| {
      SameRows(v, k, limit, before, a, b, n);
      assert RowLaw(v, k, before, b, n);
      assert a[..n] == a;
      NextWasOpen(v, k, before, b, n);
    }
  }

  lemma NextWasOpen(v: seq<nat>, k: nat, before: seq<Row>, rows: seq<Row>, n: nat)
    requires |v| >= 2 && k < |v| && |before| <= n < |rows| && RowLaw(v, k, before, rows, n)
    ensures exists p :: Open(v, k, rows[..n], p)
  {
    hide Open, RowOf;
    var p :| LeastOpen(v, k, rows[..n], p) && RowOf(rows[n], k, p);
  }

  /** The laws of a stage determine its rows. */
  lemma StageUnique(v: seq<nat>, k: nat, limit: nat, rows: seq<Row>)
    requires Factors(v) && 2 <= k < |v|
    ensures rows == Covering(v, k + 1, limit) <==> StageLaw(v, k, limit, Covering(v, k, limit), rows)
  {
    hide StageLaw, Covering;
    var before, after := Covering(v, k, limit), Covering(v, k + 1, limit);
    StageObeys(v, k, limit);
    if StageLaw(v, k, limit, before, rows) {
      NoLonger(v, k, limit, before, rows, after);
      NoLonger(v, k, limit, before, after, rows);
      SameRows(v, k, limit, before, rows, after, |rows|);
      assert rows[..|rows|] == rows && after[..|rows|] == after;
    }
  }

  /** And those of the first stage. */
  lemma FirstUnique(v: seq<nat>, limit: nat, rows: seq<Row>)
    requires Factors(v)
    ensures rows == Covering(v, 2, limit) <==> FirstLaw(v, limit, rows)
  {
    FirstStage(v, limit);
    hide Covering;
    var first := Covering(v, 2, limit);
    if FirstLaw(v, limit, rows) {
      forall n: nat | n < |rows| ensures rows[n] == first[n] {
      }
    }
  }
}
