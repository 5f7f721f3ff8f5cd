/** `sorted` on a set, in increasing order of a textual key that tells its members apart. */
module Sorting {
  import opened Text

  ghost predicate Distinguishes<T(!new)>(s: set<T>, key: T -> string) {
    forall a, b | a in s && b in s && key(a) == key(b) :: a == b
  }

  /** Nothing in the set comes before m. */
  predicate IsLeast<T(!new)>(s: set<T>, key: T -> string, m: T) {
    m in s && forall q | q in s :: TextLeq(key(m), key(q))
  }

  lemma LeastOfTwo<T(!new)>(s: set<T>, key: T -> string, x: T, m: T)
    requires x in s && IsLeast(s - {x}, key, m)
    ensures IsLeast(s, key, if TextLeq(key(x), key(m)) then x else m)
  {
    hide TextLeq;
    TextLeqTotal(key(x), key(x));
    TextLeqTotal(key(x), key(m));
    var least := if TextLeq(key(x), key(m)) then x else m;
    forall q | q in s ensures TextLeq(key(least), key(q)) {
      if q != x && least == x {
        TextLeqTransitive(key(x), key(m), key(q));
      }
    }
  }

  lemma LeastOfOne<T(!new)>(s: set<T>, key: T -> string, x: T)
    requires x in s && s - {x} == {}
    ensures IsLeast(s, key, x)
  {
    hide TextLeq;
    TextLeqTotal(key(x), key(x));
    forall q | q in s ensures q == x { assert q !in s - {x}; }
  }

  lemma {:induction false} LeastExists<T(!new)>(s: set<T>, key: T -> string)
    requires s != {}
    ensures exists m :: IsLeast(s, key, m)
  {
    hide IsLeast, TextLeq;
    var x :| x in s;
    if s - {x} == {} {
      LeastOfOne(s, key, x);
    } else {
      LeastExists(s - {x}, key);
      var m :| IsLeast(s - {x}, key, m);
      LeastOfTwo(s, key, x, m);
    }
  }

  lemma LeastIsOne<T(!new)>(s: set<T>, key: T -> string, a: T, b: T)
    requires Distinguishes(s, key) && IsLeast(s, key, a) && IsLeast(s, key, b)
    ensures a == b
  {
    hide TextLeq;
    TextLeqTotal(key(a), key(b));
  }

  function Least<T(!new)>(s: set<T>, key: T -> string): (m: T)
    requires s != {} && Distinguishes(s, key)
    ensures IsLeast(s, key, m)
  {
    LeastExists(s, key);
    assert forall a, b | IsLeast(s, key, a) && IsLeast(s, key, b) :: a == b by {
      hide IsLeast, TextLeq;
      forall a, b | IsLeast(s, key, a) && IsLeast(s, key, b) ensures a == b { LeastIsOne(s, key, a, b); }
    }
    var m :| m in s && IsLeast(s, key, m);
    m
  }

  function Sorted<T(!new)>(s: set<T>, key: T -> string): seq<T>
    requires Distinguishes(s, key)
  {
    if s == {} then [] else [Least(s, key)] + Sorted(s - {Least(s, key)}, key)
  }

  lemma {:induction false} SortedMembers<T(!new)>(s: set<T>, key: T -> string, x: T)
    requires Distinguishes(s, key)
    ensures x in Sorted(s, key) <==> x in s
  {
    if s != {} {
      SortedMembers(s - {Least(s, key)}, key, x);
    }
  }

  /** Strictly increasing, so no member comes twice. */
  lemma {:induction false} SortedIsSorted<T(!new)>(s: set<T>, key: T -> string)
    requires Distinguishes(s, key)
    ensures forall i, j | 0 <= i < j < |Sorted(s, key)| ::
      Sorted(s, key)[i] != Sorted(s, key)[j] && TextLeq(key(Sorted(s, key)[i]), key(Sorted(s, key)[j]))
  {
    hide TextLeq;
    if s != {} {
      var rest := s - {Least(s, key)};
      SortedIsSorted(rest, key);
      forall x | x in Sorted(rest, key) ensures x != Least(s, key) && TextLeq(key(Least(s, key)), key(x)) {
        SortedMembers(rest, key, x);
      }
    }
  }

  function SortedTexts(s: set<string>): seq<string> { Sorted(s, (t: string) => t) }

  lemma SortedTextsMembers(s: set<string>)
    ensures forall t :: t in SortedTexts(s) <==> t in s
  {
    forall t ensures t in SortedTexts(s) <==> t in s {
      SortedMembers(s, (t: string) => t, t);
    }
  }

  /** `sorted` lists every member once, each before the next in code point order. */
  lemma SortedTextsAscend(s: set<string>)
    ensures forall i, j | 0 <= i < j < |SortedTexts(s)| :: TextBefore(SortedTexts(s)[i], SortedTexts(s)[j])
    ensures forall t :: t in SortedTexts(s) <==> t in s
  {
    SortedTextsMembers(s);
    SortedIsSorted(s, (t: string) => t);
    hide Sorted, TextLeq, Lexicographic;
    forall i, j | 0 <= i < j < |SortedTexts(s)| ensures TextBefore(SortedTexts(s)[i], SortedTexts(s)[j]) {
      TextLeqIff(SortedTexts(s)[i], SortedTexts(s)[j]);
    }
  }
}
