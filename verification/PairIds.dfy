/** The textual pair ids of the pairwise generator: rendering, parsing, the
    substring test that selects the pairs of one factor, and the order in which
    `sorted` visits them. */
module PairIds {
  import opened Wrappers
  import opened Text
  import Sorting

  /** A pair of factor values; the source writes it `left:leftValue|right:rightValue`. */
  datatype Pair = Pair(left: nat, leftValue: nat, right: nat, rightValue: nat)

  predicate IsDigit(c: char) { '0' <= c <= '9' }

  predicate AllDigits(s: string) { forall c | c in s :: IsDigit(c) }

  function Digits(n: nat): (s: string)
    ensures |s| > 0 && AllDigits(s)
  {
    if n < 10 then ['0' + n as char] else Digits(n / 10) + ['0' + (n % 10) as char]
  }

  function DigitsValue(s: string): nat
    requires AllDigits(s)
  {
    if s == [] then 0
    else
      assert IsDigit(s[|s| - 1]);
      DigitsValue(s[..|s| - 1]) * 10 + (s[|s| - 1] - '0') as nat
  }

  lemma {:induction false} DigitsRoundTrip(n: nat)
    ensures DigitsValue(Digits(n)) == n
  {
    if n >= 10 {
      DigitsRoundTrip(n / 10);
      assert Digits(n)[..|Digits(n)| - 1] == Digits(n / 10);
    } else {
      assert Digits(n)[..0] == [];
    }
  }

  function PairId(p: Pair): string {
    Digits(p.left) + ":" + Digits(p.leftValue) + "|" + Digits(p.right) + ":" + Digits(p.rightValue)
  }

  function ParseNumber(s: string): Option<nat> {
    if s != [] && AllDigits(s) then Some(DigitsValue(s)) else None
  }

  function ParseSide(s: string): Option<(nat, nat)> {
    var (factor, value) :- SplitAt(s, ':');
    var f :- ParseNumber(factor);
    var v :- ParseNumber(value);
    Some((f, v))
  }

  function ParsePairId(s: string): Option<Pair> {
    var (leftSide, rightSide) :- SplitAt(s, '|');
    var l :- ParseSide(leftSide);
    var r :- ParseSide(rightSide);
    Some(Pair(l.0, l.1, r.0, r.1))
  }

  lemma ParseSideOfRendered(factor: nat, value: nat)
    ensures ParseSide(Digits(factor) + ":" + Digits(value)) == Some((factor, value))
  {
    SplitAtFirst(Digits(factor), ':', Digits(value));
    DigitsRoundTrip(factor);
    DigitsRoundTrip(value);
  }

  /** Parsing inverts rendering, so distinct pairs never share an id. */
  lemma PairIdRoundTrip(p: Pair)
    ensures ParsePairId(PairId(p)) == Some(p)
  {
    var leftSide := Digits(p.left) + ":" + Digits(p.leftValue);
    var rightSide := Digits(p.right) + ":" + Digits(p.rightValue);
    assert PairId(p) == leftSide + ['|'] + rightSide;
    SplitAtFirst(leftSide, '|', rightSide);
    ParseSideOfRendered(p.left, p.leftValue);
    ParseSideOfRendered(p.right, p.rightValue);
  }

  function RightMark(factor: nat): string { "|" + Digits(factor) + ":" }

  /** A mark beginning with the bar can only occur at the bar. */
  lemma MarkAtBar(before: string, after: string, mark: string)
    requires '|' !in before && '|' !in after
    ensures Contains(before + "|" + after, "|" + mark) <==> StartsAt(after, 0, mark)
  {
    var s, part := before + "|" + after, "|" + mark;
    if StartsAt(after, 0, mark) {
      assert s[|before|..|before| + |part|] == part;
      assert StartsAt(s, |before|, part);
    }
    if Contains(s, part) {
      var at :| 0 <= at <= |s| && StartsAt(s, at, part);
      assert s[at] == s[at..at + |part|][0] == '|';
      assert at == |before|;
      assert after[..|mark|] == s[at..at + |part|][1..] == mark;
    }
  }

  /** A side that begins with `factor:` is a side of that factor. */
  lemma SideOfFactor(factor: nat, other: nat, value: nat)
    requires StartsAt(Digits(other) + ":" + Digits(value), 0, Digits(factor) + ":")
    ensures other == factor
  {
    hide Digits, DigitsValue;
    var side := Digits(other) + ":" + Digits(value);
    var mark := Digits(factor) + ":";
    assert side == Digits(factor) + [':'] + side[|mark|..];
    SplitAtFirst(Digits(factor), ':', side[|mark|..]);
    SplitAtFirst(Digits(other), ':', Digits(value));
    DigitsRoundTrip(factor);
    DigitsRoundTrip(other);
  }

  /** `"|k:" in pair` holds exactly for the pairs whose right factor is k. */
  lemma MarkSelectsRightFactor(p: Pair, factor: nat)
    ensures Contains(PairId(p), RightMark(factor)) <==> p.right == factor
  {
    var leftSide := Digits(p.left) + ":" + Digits(p.leftValue);
    var rightSide := Digits(p.right) + ":" + Digits(p.rightValue);
    var mark := Digits(factor) + ":";
    assert PairId(p) == leftSide + "|" + rightSide;
    assert RightMark(factor) == "|" + mark;
    MarkAtBar(leftSide, rightSide, mark);
    if p.right == factor {
      assert rightSide[..|mark|] == mark;
    } else if StartsAt(rightSide, 0, mark) {
      SideOfFactor(factor, p.right, p.rightValue);
    }
  }

  // ---------------------------------------------------------------- ordering

  lemma IdsDistinguish(s: set<Pair>)
    ensures Sorting.Distinguishes(s, PairId)
  {
    forall p, q | p in s && q in s && PairId(p) == PairId(q) ensures p == q {
      PairIdRoundTrip(p);
      PairIdRoundTrip(q);
    }
  }

  /** `sorted(pairs)`: the set in increasing order of its ids. */
  function Sorted(s: set<Pair>): seq<Pair> {
    IdsDistinguish(s);
    Sorting.Sorted(s, PairId)
  }

  lemma SortedMembers(s: set<Pair>, p: Pair)
    ensures p in Sorted(s) <==> p in s
  {
    IdsDistinguish(s);
    Sorting.SortedMembers(s, PairId, p);
  }
}
