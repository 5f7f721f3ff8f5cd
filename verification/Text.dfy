/** Strings: letter case, for the ASCII letters of HTTP methods and header names, and
    the order `sorted` puts strings in. */
module Text {
  import opened Wrappers

  function LowerChar(c: char): char { if 'A' <= c <= 'Z' then ((c as int) + 32) as char else c }

  function UpperChar(c: char): char { if 'a' <= c <= 'z' then ((c as int) - 32) as char else c }

  function Lower(s: string): string { seq(|s|, i requires 0 <= i < |s| => LowerChar(s[i])) }

  function Upper(s: string): string { seq(|s|, i requires 0 <= i < |s| => UpperChar(s[i])) }

  const CAPITALS := "ABCDEFGHIJKLMNOPQRSTUVWXYZ"
  const SMALLS := "abcdefghijklmnopqrstuvwxyz"

  lemma LetterAt(i: nat)
    requires i < 26
    ensures CAPITALS[i] as int == 'A' as int + i && SMALLS[i] as int == 'a' as int + i
  {
  }

  /** The letters are paired in order of the alphabet; no other character changes. */
  lemma LettersPaired(c: char, i: nat)
    ensures i < 26 ==> LowerChar(CAPITALS[i]) == SMALLS[i] && UpperChar(SMALLS[i]) == CAPITALS[i]
    ensures c !in CAPITALS ==> LowerChar(c) == c
    ensures c !in SMALLS ==> UpperChar(c) == c
  {
    if i < 26 {
      LetterAt(i);
    }
    if 'A' <= c <= 'Z' {
      LetterAt(c as int - 'A' as int);
    }
    if 'a' <= c <= 'z' {
      LetterAt(c as int - 'a' as int);
    }
  }

  lemma UpperUpper(s: string)
    ensures Upper(Upper(s)) == Upper(s)
  {
  }

  /** Python's `<=` on strings: code points compared left to right, prefixes first. */
  predicate TextLeq(a: string, b: string) {
    if a == [] then true
    else if b == [] then false
    else if a[0] != b[0] then a[0] < b[0]
    else TextLeq(a[1..], b[1..])
  }

  /** They agree before place i, where a ends or has the smaller character. */
  ghost predicate DiffersAt(a: string, b: string, i: nat) {
    i <= |a| && i <= |b| && a[..i] == b[..i] && (i == |a| || (i < |b| && a[i] < b[i]))
  }

  ghost predicate Lexicographic(a: string, b: string) { exists i: nat :: DiffersAt(a, b, i) }

  ghost predicate TextBefore(a: string, b: string) { a != b && Lexicographic(a, b) }

  lemma DiffersBehind(a: string, b: string, i: nat)
    requires a != [] && b != [] && a[0] == b[0]
    ensures DiffersAt(a, b, i + 1) <==> DiffersAt(a[1..], b[1..], i)
  {
    if i < |a| && i < |b| {
      assert a[..i + 1] == [a[0]] + a[1..][..i] && b[..i + 1] == [b[0]] + b[1..][..i];
      assert a[1..][..i] == a[..i + 1][1..] && b[1..][..i] == b[..i + 1][1..];
    }
  }

  lemma DiffersFirst(a: string, b: string, i: nat)
    requires a != [] && b != [] && DiffersAt(a, b, i)
    ensures if i == 0 then a[0] < b[0] else a[0] == b[0]
  {
    if i > 0 {
      assert a[0] == a[..i][0] == b[..i][0] == b[0];
    }
  }

  lemma {:induction false} TextLeqIff(a: string, b: string)
    ensures TextLeq(a, b) <==> Lexicographic(a, b)
  {
    hide DiffersAt;
    if a == [] || b == [] || a[0] < b[0] {
      NoneBefore(a, b);
    }
    if a != [] && b != [] {
      TextLeqIff(a[1..], b[1..]);
      if a[0] == b[0] && Lexicographic(a[1..], b[1..]) {
        var i: nat :| DiffersAt(a[1..], b[1..], i);
        DiffersBehind(a, b, i);
      }
      if Lexicographic(a, b) {
        var i: nat :| DiffersAt(a, b, i);
        DiffersFirst(a, b, i);
        if i > 0 {
          DiffersBehind(a, b, i - 1);
        }
      }
    }
  }

  lemma NoneBefore(a: string, b: string)
    ensures a == [] || (b != [] && a[0] < b[0]) ==> DiffersAt(a, b, 0)
    ensures a != [] && b == [] ==> forall i: nat :: !DiffersAt(a, b, i)
  {
  }

  lemma {:induction false} TextLeqTotal(a: string, b: string)
    ensures TextLeq(a, b) || TextLeq(b, a)
    ensures TextLeq(a, b) && TextLeq(b, a) ==> a == b
  {
    if a != [] && b != [] && a[0] == b[0] {
      TextLeqTotal(a[1..], b[1..]);
      assert a == [a[0]] + a[1..] && b == [b[0]] + b[1..];
    }
  }

  lemma {:induction false} TextLeqTransitive(a: string, b: string, c: string)
    requires TextLeq(a, b) && TextLeq(b, c)
    ensures TextLeq(a, c)
  {
    if a != [] && b != [] && c != [] && a[0] == b[0] == c[0] {
      TextLeqTransitive(a[1..], b[1..], c[1..]);
    }
  }

  /** Splits at the first occurrence of `c`; None when `c` does not occur. */
  function SplitAt(s: string, c: char): Option<(string, string)> {
    if s == [] then None
    else if s[0] == c then Some(([], s[1..]))
    else
      match SplitAt(s[1..], c)
      case None => None
      case Some((before, after)) => Some(([s[0]] + before, after))
  }

  lemma {:induction false} SplitAtFirst(before: string, c: char, after: string)
    requires c !in before
    ensures SplitAt(before + [c] + after, c) == Some((before, after))
  {
    var s := before + [c] + after;
    if before == [] {
      assert s[1..] == after;
    } else {
      assert s[1..] == before[1..] + [c] + after;
      SplitAtFirst(before[1..], c, after);
      assert [before[0]] + before[1..] == before;
    }
  }

  // ------------------------------------------------------------------ substrings

  predicate StartsAt(s: string, at: nat, part: string) {
    at + |part| <= |s| && s[at..at + |part|] == part
  }

  predicate Contains(s: string, part: string) {
    exists at | 0 <= at <= |s| :: StartsAt(s, at, part)
  }

  lemma SliceBehind(s: string, i: nat, j: nat)
    requires i <= j < |s|
    ensures s[1..][i..j] == s[i + 1..j + 1]
  {
    assert forall k | 0 <= k < j - i :: s[1..][i..j][k] == s[i + 1..j + 1][k];
  }

  /** An occurrence is at the start or in the rest. */
  lemma ContainsStep(s: string, part: string)
    requires s != []
    ensures Contains(s, part) <==> StartsAt(s, 0, part) || Contains(s[1..], part)
  {
    if Contains(s, part) {
      var at :| 0 <= at <= |s| && StartsAt(s, at, part);
      if at > 0 {
        SliceBehind(s, at - 1, at - 1 + |part|);
        assert StartsAt(s[1..], at - 1, part);
      }
    }
    if Contains(s[1..], part) {
      var at :| 0 <= at <= |s| - 1 && StartsAt(s[1..], at, part);
      SliceBehind(s, at, at + |part|);
      assert StartsAt(s, at + 1, part);
    }
  }

  /** `str.replace`: leftmost occurrences first, none overlapping. */
  function Replace(s: string, part: string, instead: string): string
    requires part != []
    decreases |s|
  {
    if s == [] then []
    else if StartsAt(s, 0, part) then instead + Replace(s[|part|..], part, instead)
    else [s[0]] + Replace(s[1..], part, instead)
  }

  /** Text in which no occurrence begins is passed over. */
  lemma {:induction false} ReplaceSkips(before: string, after: string, part: string, instead: string)
    requires part != [] && forall at | 0 <= at < |before| :: !StartsAt(before + after, at, part)
    ensures Replace(before + after, part, instead) == before + Replace(after, part, instead)
    decreases |before|
  {
    var s := before + after;
    if before == [] {
      assert s == after;
    } else {
      assert s[1..] == before[1..] + after;
      forall at | 0 <= at < |before| - 1 ensures !StartsAt(before[1..] + after, at, part) {
        assert !StartsAt(s, at + 1, part);
        assert at + 1 + |part| <= |s| ==> s[1..][at..at + |part|] == s[at + 1..at + 1 + |part|];
      }
      ReplaceSkips(before[1..], after, part, instead);
      assert !StartsAt(s, 0, part);
    }
  }
}
