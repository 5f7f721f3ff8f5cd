/** Literals replaced by `${name}` placeholders in a text, and placeholders by values. */
module Placeholders {
  import opened Text

  type Values = map<string, string>

  function Mark(name: string): string { "${" + name + "}" }

  /** One parameter after the other: its literal becomes its placeholder. */
  function Parameterised(s: string, order: seq<string>, values: Values): string
    requires forall n | n in order :: n in values && values[n] != []
  {
    if order == [] then s else
      var n := order[|order| - 1];
      Replace(Parameterised(s, order[..|order| - 1], values), values[n], Mark(n))
  }

  /** One parameter after the other: its placeholder becomes its value. */
  function Rendered(s: string, order: seq<string>, values: Values): string
    requires forall n | n in order :: n in values
  {
    if order == [] then s else
      var n := order[|order| - 1];
      Replace(Rendered(s, order[..|order| - 1], values), Mark(n), values[n])
  }

  method Parameterise(s: string, order: seq<string>, values: Values) returns (r: string)
    requires forall n | n in order :: n in values && values[n] != []
    ensures r == Parameterised(s, order, values)
  {
    r := s;
    for i := 0 to |order|
      invariant r == Parameterised(s, order[..i], values)
    {
      assert order[..i + 1][..i] == order[..i];
      r := Replace(r, values[order[i]], Mark(order[i]));
    }
    assert order[..|order|] == order;
  }

  method Render(s: string, order: seq<string>, values: Values) returns (r: string)
    requires forall n | n in order :: n in values
    ensures r == Rendered(s, order, values)
  {
    r := s;
    for i := 0 to |order|
      invariant r == Rendered(s, order[..i], values)
    {
      assert order[..i + 1][..i] == order[..i];
      r := Replace(r, Mark(order[i]), values[order[i]]);
    }
    assert order[..|order|] == order;
  }

  /** What a caller can check of the parameters' characters: no literal is empty or has a
      character of a placeholder, and no name has a `$` or a `}`. */
  ghost predicate Clean(values: Values) {
    && (forall n | n in values :: '$' !in n && '}' !in n)
    && (forall n | n in values :: values[n] != [] && '$' !in values[n] && '{' !in values[n] && '}' !in values[n])
  }

  /** And no literal occurs in a name. */
  ghost predicate Safe(values: Values) {
    Clean(values) && forall n, m | n in values && m in values :: !Contains(m, values[n])
  }

  /** No placeholder of a parameter in the text itself. */
  ghost predicate Unmarked(s: string, values: Values) { forall n | n in values :: !Contains(s, Mark(n)) }

  // ---------------------------------------------------------------- texts with holes

  datatype Token = Char(c: char) | Hole(name: string)

  type Tokens = seq<Token>

  function Flat(t: Token): string {
    match t
    case Char(c) => [c]
    case Hole(n) => Mark(n)
  }

  function Flatten(ts: Tokens): string {
    if ts == [] then [] else Flat(ts[0]) + Flatten(ts[1..])
  }

  function Meant(t: Token, values: Values): string {
    match t
    case Char(c) => [c]
    case Hole(n) => if n in values then values[n] else []
  }

  /** The text with every hole filled with its value. */
  function Expand(ts: Tokens, values: Values): string {
    if ts == [] then [] else Meant(ts[0], values) + Expand(ts[1..], values)
  }

  function Chars(s: string): Tokens {
    seq(|s|, i requires 0 <= i < |s| => Char(s[i]))
  }

  ghost predicate HolesIn(ts: Tokens, names: set<string>) {
    forall t | t in ts && t.Hole? :: t.name in names
  }

  predicate StartsWithChars(ts: Tokens, s: string) { |s| <= |ts| && ts[..|s|] == Chars(s) }

  function Dig(ts: Tokens, literal: string, name: string): Tokens
    requires literal != []
  {
    if ts == [] then []
    else if StartsWithChars(ts, literal) then [Hole(name)] + Dig(ts[|literal|..], literal, name)
    else [ts[0]] + Dig(ts[1..], literal, name)
  }

  function Fill(ts: Tokens, name: string, value: string): Tokens {
    if ts == [] then []
    else (if ts[0] == Hole(name) then Chars(value) else [ts[0]]) + Fill(ts[1..], name, value)
  }

  lemma {:induction false} FlattenAppend(a: Tokens, b: Tokens)
    ensures Flatten(a + b) == Flatten(a) + Flatten(b)
    decreases |a|
  {
    if a == [] {
      assert a + b == b;
    } else {
      assert (a + b)[1..] == a[1..] + b;
      FlattenAppend(a[1..], b);
    }
  }

  lemma {:induction false} ExpandAppend(a: Tokens, b: Tokens, values: Values)
    ensures Expand(a + b, values) == Expand(a, values) + Expand(b, values)
    decreases |a|
  {
    if a == [] {
      assert a + b == b;
    } else {
      assert (a + b)[1..] == a[1..] + b;
      ExpandAppend(a[1..], b, values);
    }
  }

  lemma {:induction false} CharsAreThemselves(s: string, values: Values)
    ensures Flatten(Chars(s)) == s && Expand(Chars(s), values) == s
    decreases |s|
  {
    if s != [] {
      assert Chars(s)[1..] == Chars(s[1..]);
      CharsAreThemselves(s[1..], values);
    }
  }

  /** A text without `$` at the start of a flattened list is a run of characters. */
  lemma {:induction false} PlainPrefix(ts: Tokens, s: string)
    requires '$' !in s
    ensures StartsAt(Flatten(ts), 0, s) <==> StartsWithChars(ts, s)
    decreases |s|
  {
    if s != [] && ts != [] {
      var flat := Flatten(ts);
      assert s[0] in s;
      OneMoreToken(ts, s);
      if ts[0].Char? {
        PlainPrefix(ts[1..], s[1..]);
        assert flat[1..] == Flatten(ts[1..]);
      } else {
        assert flat[0] == '$';
      }
    }
  }

  lemma OneMoreToken(ts: Tokens, s: string)
    requires ts != [] && s != []
    ensures StartsWithChars(ts, s) <==> ts[0] == Char(s[0]) && StartsWithChars(ts[1..], s[1..])
  {
    assert Chars(s) == [Char(s[0])] + Chars(s[1..]);
    if ts[0] == Char(s[0]) && StartsWithChars(ts[1..], s[1..]) {
      assert ts[..|s|] == [ts[0]] + ts[1..][..|s| - 1];
    }
    if StartsWithChars(ts, s) {
      assert ts[..|s|][0] == Chars(s)[0] && ts[1..][..|s| - 1] == ts[..|s|][1..] == Chars(s)[1..];
    }
  }

  /** A run of characters expands to itself, in front of the rest. */
  lemma RunExpands(ts: Tokens, s: string, values: Values)
    requires StartsWithChars(ts, s)
    ensures Flatten(ts) == s + Flatten(ts[|s|..]) && Expand(ts, values) == s + Expand(ts[|s|..], values)
  {
    assert ts == Chars(s) + ts[|s|..];
    FlattenAppend(Chars(s), ts[|s|..]);
    ExpandAppend(Chars(s), ts[|s|..], values);
    CharsAreThemselves(s, values);
  }

  // ------------------------------------------------------- one parameter at a time

  /** A literal that begins inside a placeholder lies inside its name. */
  lemma LiteralInName(n: string, after: string, literal: string, at: nat)
    requires literal != [] && '$' !in literal && '{' !in literal && '}' !in literal
    requires at < |Mark(n)| && StartsAt(Mark(n) + after, at, literal)
    ensures Contains(n, literal)
  {
    var s := Mark(n) + after;
    assert forall i | at <= i < at + |literal| :: s[i] == s[at..at + |literal|][i - at] && literal[i - at] in literal;
    assert s[0] == '$' && s[1] == '{' && s[2 + |n|] == '}';
    assert 2 <= at && at + |literal| <= 2 + |n|;
    assert n[at - 2..at - 2 + |literal|] == s[at..at + |literal|];
    assert StartsAt(n, at - 2, literal);
  }

  lemma NoLiteralInMark(n: string, after: string, literal: string)
    requires literal != [] && '$' !in literal && '{' !in literal && '}' !in literal && !Contains(n, literal)
    ensures forall at | 0 <= at < |Mark(n)| :: !StartsAt(Mark(n) + after, at, literal)
  {
    hide Contains, StartsAt, Mark;
    forall at | 0 <= at < |Mark(n)| ensures !StartsAt(Mark(n) + after, at, literal) {
      if StartsAt(Mark(n) + after, at, literal) {
        LiteralInName(n, after, literal, at);
      }
    }
  }

  /** A placeholder that begins inside another is that placeholder. */
  lemma MarkInMark(m: string, n: string, after: string, at: nat)
    requires '$' !in m && '}' !in m && '}' !in n
    requires at < |Mark(m)| && StartsAt(Mark(m) + after, at, Mark(n))
    ensures m == n
  {
    var s, mark := Mark(m) + after, Mark(n);
    assert s[at] == mark[0] == '$';
    assert forall i | 2 <= i < 2 + |m| :: s[i] == m[i - 2] && m[i - 2] in m;
    assert at == 0;
    assert forall i | 2 <= i < 2 + |n| :: s[i] == s[..|mark|][i] == mark[i] == n[i - 2] && n[i - 2] in n;
    assert s[2 + |m|] == '}' && s[2 + |n|] == s[..|mark|][2 + |n|] == '}';
    assert |m| == |n|;
    assert forall i | 0 <= i < |m| :: m[i] == s[2 + i] == n[i];
  }

  lemma OtherMark(m: string, n: string, after: string)
    requires m != n && '$' !in m && '}' !in m && '}' !in n
    ensures forall at | 0 <= at < |Mark(m)| :: !StartsAt(Mark(m) + after, at, Mark(n))
  {
    hide StartsAt, Mark;
    forall at | 0 <= at < |Mark(m)| ensures !StartsAt(Mark(m) + after, at, Mark(n)) {
      if StartsAt(Mark(m) + after, at, Mark(n)) {
        MarkInMark(m, n, after, at);
      }
    }
  }

  lemma FlattenCons(ts: Tokens, values: Values)
    requires ts != []
    ensures Flatten(ts) == Flat(ts[0]) + Flatten(ts[1..]) && Flatten(ts) != []
    ensures Expand(ts, values) == Meant(ts[0], values) + Expand(ts[1..], values)
  {
  }

  lemma ReplaceFirst(part: string, rest: string, instead: string)
    requires part != []
    ensures Replace(part + rest, part, instead) == instead + Replace(rest, part, instead)
  {
    assert (part + rest)[..|part|] == part && (part + rest)[|part|..] == rest;
    assert StartsAt(part + rest, 0, part);
  }

  /** Replacing a literal in the text is digging holes in the list. */
  lemma {:induction false} DigReplaces(ts: Tokens, name: string, values: Values, names: set<string>)
    requires Clean(values) && name in values && HolesIn(ts, names)
    requires forall m | m in names :: !Contains(m, values[name])
    ensures Replace(Flatten(ts), values[name], Mark(name)) == Flatten(Dig(ts, values[name], name))
    ensures Expand(Dig(ts, values[name], name), values) == Expand(ts, values)
    ensures HolesIn(Dig(ts, values[name], name), names + {name})
    decreases |ts|
  {
    hide Flatten, Expand, Contains, StartsAt, Mark;
    var literal := values[name];
    if ts == [] {
      NoTokens(values);
    } else {
      FlattenCons(ts, values);
      PlainPrefix(ts, literal);
      if StartsWithChars(ts, literal) {
        RunExpands(ts, literal, values);
        ReplaceFirst(literal, Flatten(ts[|literal|..]), Mark(name));
        DigReplaces(ts[|literal|..], name, values, names);
        FlattenCons(Dig(ts, literal, name), values);
      } else {
        DigReplaces(ts[1..], name, values, names);
        FlattenCons(Dig(ts, literal, name), values);
        if ts[0].Hole? {
          assert ts[0] in ts;
          NoLiteralInMark(ts[0].name, Flatten(ts[1..]), literal);
          ReplaceSkips(Mark(ts[0].name), Flatten(ts[1..]), literal, Mark(name));
        } else {
          assert Flatten(ts)[1..] == Flatten(ts[1..]);
        }
      }
    }
  }

  lemma NoTokens(values: Values)
    ensures Flatten([]) == [] && Expand([], values) == []
  {
  }

  /** A placeholder beginning with a character of the text itself is a run of characters. */
  lemma MarkIsRun(ts: Tokens, name: string)
    requires ts != [] && ts[0].Char? && '$' !in name && StartsAt(Flatten(ts), 0, Mark(name))
    ensures StartsWithChars(ts, Mark(name))
  {
    FlattenCons(ts, map[]);
    hide Flatten;
    var mark := Mark(name);
    assert mark[1..] == "{" + name + "}";
    assert Flatten(ts)[..|mark|] == mark && Flatten(ts)[1..] == Flatten(ts[1..]);
    assert Flatten(ts[1..])[..|mark| - 1] == mark[1..];
    PlainPrefix(ts[1..], mark[1..]);
    assert Flatten(ts)[0] == mark[0];
    OneMoreToken(ts, mark);
  }

  /** It is part of what the text means. */
  lemma CharBeginsMark(ts: Tokens, name: string, values: Values)
    requires ts != [] && ts[0].Char? && '$' !in name && StartsAt(Flatten(ts), 0, Mark(name))
    ensures Contains(Expand(ts, values), Mark(name))
  {
    MarkIsRun(ts, name);
    hide Flatten, Expand, Mark;
    RunExpands(ts, Mark(name), values);
    assert StartsAt(Expand(ts, values), 0, Mark(name));
  }

  lemma CharStartsNoMark(ts: Tokens, name: string, values: Values)
    requires ts != [] && ts[0].Char? && name in values && Clean(values) && Unmarked(Expand(ts, values), values)
    ensures !StartsAt(Flatten(ts), 0, Mark(name))
  {
    hide StartsAt, Contains, Flatten, Expand, Mark;
    if StartsAt(Flatten(ts), 0, Mark(name)) {
      CharBeginsMark(ts, name, values);
    }
  }

  lemma ContainsSuffix(before: string, after: string, part: string)
    requires Contains(after, part)
    ensures Contains(before + after, part)
  {
    var at :| 0 <= at <= |after| && StartsAt(after, at, part);
    assert (before + after)[|before| + at..|before| + at + |part|] == after[at..at + |part|];
    assert StartsAt(before + after, |before| + at, part);
  }

  lemma UnmarkedSuffix(before: string, after: string, values: Values)
    requires Unmarked(before + after, values)
    ensures Unmarked(after, values)
  {
    forall n | n in values ensures !Contains(after, Mark(n)) {
      if Contains(after, Mark(n)) { ContainsSuffix(before, after, Mark(n)); }
    }
  }

  /** Replacing a placeholder in the text is filling holes in the list. */
  lemma {:induction false} FillReplaces(ts: Tokens, name: string, values: Values, names: set<string>)
    requires Clean(values) && name in values && names <= values.Keys && HolesIn(ts, names)
    requires Unmarked(Expand(ts, values), values)
    ensures Replace(Flatten(ts), Mark(name), values[name]) == Flatten(Fill(ts, name, values[name]))
    ensures Expand(Fill(ts, name, values[name]), values) == Expand(ts, values)
    ensures HolesIn(Fill(ts, name, values[name]), names - {name})
    decreases |ts|
  {
    hide Flatten, Expand, Contains, StartsAt, Unmarked;
    var value := values[name];
    if ts == [] {
      NoTokens(values);
    } else {
      var rest := ts[1..];
      FlattenCons(ts, values);
      UnmarkedSuffix(Meant(ts[0], values), Expand(rest, values), values);
      FillReplaces(rest, name, values, names);
      if ts[0].Char? {
        CharStartsNoMark(ts, name, values);
        assert Flatten(ts)[1..] == Flatten(rest);
        FlattenCons([ts[0]] + Fill(rest, name, value), values);
      } else if ts[0].name == name {
        ReplaceFirst(Mark(name), Flatten(rest), value);
        FlattenAppend(Chars(value), Fill(rest, name, value));
        ExpandAppend(Chars(value), Fill(rest, name, value), values);
        CharsAreThemselves(value, values);
      } else {
        assert ts[0] in ts;
        OtherMark(ts[0].name, name, Flatten(rest));
        ReplaceSkips(Mark(ts[0].name), Flatten(rest), Mark(name), value);
        FlattenCons([ts[0]] + Fill(rest, name, value), values);
      }
    }
  }

  // -------------------------------------------------------------- the whole round trip

  ghost function Digged(ts: Tokens, order: seq<string>, values: Values): Tokens
    requires forall n | n in order :: n in values && values[n] != []
  {
    if order == [] then ts else
      var n := order[|order| - 1];
      Dig(Digged(ts, order[..|order| - 1], values), values[n], n)
  }

  lemma {:induction false} DiggedParameterises(ts: Tokens, order: seq<string>, values: Values)
    requires Safe(values) && HolesIn(ts, values.Keys) && forall n | n in order :: n in values
    ensures var dug := Digged(ts, order, values);
      && Parameterised(Flatten(ts), order, values) == Flatten(dug)
      && Expand(dug, values) == Expand(ts, values) && HolesIn(dug, values.Keys)
    decreases |order|
  {
    hide Flatten, Expand, HolesIn, Contains, Replace, Dig;
    NonEmptyLiterals(values);
    if order != [] {
      var front, n := order[..|order| - 1], order[|order| - 1];
      DiggedParameterises(ts, front, values);
      DigReplaces(Digged(ts, front, values), n, values, values.Keys);
      assert values.Keys + {n} == values.Keys;
    }
  }

  lemma NonEmptyLiterals(values: Values)
    requires Clean(values)
    ensures forall n | n in values :: values[n] != []
  {
  }

  ghost function Names(order: seq<string>): set<string> { set n | n in order }

  ghost function Filled(ts: Tokens, order: seq<string>, values: Values): Tokens
    requires forall n | n in order :: n in values
  {
    if order == [] then ts else
      var n := order[|order| - 1];
      Fill(Filled(ts, order[..|order| - 1], values), n, values[n])
  }

  lemma {:induction false} FilledRenders(ts: Tokens, order: seq<string>, values: Values)
    requires Clean(values) && HolesIn(ts, values.Keys) && (forall n | n in order :: n in values)
    requires Unmarked(Expand(ts, values), values)
    ensures var full := Filled(ts, order, values);
      && Rendered(Flatten(ts), order, values) == Flatten(full)
      && Expand(full, values) == Expand(ts, values) && HolesIn(full, values.Keys - Names(order))
    decreases |order|
  {
    hide Flatten, Expand, HolesIn, Clean, Replace, Fill, Unmarked;
    if order == [] {
      assert values.Keys - Names([]) == values.Keys;
    } else {
      var front, n := order[..|order| - 1], order[|order| - 1];
      FilledRenders(ts, front, values);
      FillReplaces(Filled(ts, front, values), n, values, values.Keys - Names(front));
      assert values.Keys - Names(front) - {n} == values.Keys - Names(order);
    }
  }

  lemma {:induction false} NoHoles(ts: Tokens, values: Values)
    requires HolesIn(ts, {})
    ensures Flatten(ts) == Expand(ts, values)
    decreases |ts|
  {
    if ts != [] {
      assert ts[0] in ts;
      NoHoles(ts[1..], values);
    }
  }

  /** The text read with its own placeholders of parameters as holes. */
  ghost function Tokenize(s: string, values: Values): Tokens
    decreases |s|
  {
    if s == [] then []
    else if exists n | n in values :: StartsAt(s, 0, Mark(n)) then
      var n :| n in values && StartsAt(s, 0, Mark(n));
      [Hole(n)] + Tokenize(s[|Mark(n)|..], values)
    else [Char(s[0])] + Tokenize(s[1..], values)
  }

  lemma {:induction false} TokenizeFlat(s: string, values: Values)
    ensures Flatten(Tokenize(s, values)) == s && HolesIn(Tokenize(s, values), values.Keys)
    decreases |s|
  {
    hide Mark;
    if s != [] {
      var ts := Tokenize(s, values);
      if exists n | n in values :: StartsAt(s, 0, Mark(n)) {
        var n := ts[0].name;
        TokenizeFlat(s[|Mark(n)|..], values);
        assert s == Mark(n) + s[|Mark(n)|..];
      } else {
        TokenizeFlat(s[1..], values);
      }
    }
  }

  /** The end of a placeholder can only be read from characters of the text itself. */
  lemma {:induction false} MarkEnd(ts: Tokens, n: string, k: nat, values: Values)
    requires Safe(values) && HolesIn(ts, values.Keys) && n in values && k <= |n| + 2
    requires StartsAt(Expand(ts, values), 0, ("{" + n + "}")[k..])
    ensures StartsWithChars(ts, ("{" + n + "}")[k..])
    decreases |n| + 2 - k
  {
    var mark := "{" + n + "}";
    var w, text := mark[k..], Expand(ts, values);
    if k < |n| + 2 {
      assert ts != [];
      if ts[0].Char? {
        OneMoreToken(ts, w);
        assert text[1..] == Expand(ts[1..], values) && w[1..] == mark[k + 1..];
        MarkEnd(ts[1..], n, k + 1, values);
      } else {
        assert ts[0] in ts;
        ValueInMark(text, n, k, values[ts[0].name]);
        assert false;
      }
    }
  }

  lemma ValueInMark(text: string, n: string, k: nat, value: string)
    requires k < |n| + 2 && StartsAt(text, 0, ("{" + n + "}")[k..])
    requires |value| <= |text| && text[..|value|] == value
    requires value != [] && '{' !in value && '}' !in value
    ensures Contains(n, value)
  {
    var mark := "{" + n + "}";
    var w := mark[k..];
    assert forall i | 0 <= i < |w| :: text[i] == text[..|w|][i] == mark[k + i];
    assert forall i | 0 <= i < |value| :: text[i] == text[..|value|][i] == value[i] && value[i] in value;
    assert text[|w| - 1] == '}' && text[0] == mark[k] && mark[0] == '{';
    assert |value| < |w| && k >= 1;
    assert n[k - 1..k - 1 + |value|] == text[..|value|];
    assert StartsAt(n, k - 1, value);
  }

  lemma ContainsPast(before: string, after: string, part: string)
    requires part != [] && part[0] !in before && Contains(before + after, part)
    ensures Contains(after, part)
  {
    var s := before + after;
    var at :| 0 <= at <= |s| && StartsAt(s, at, part);
    assert s[at] == part[0];
    assert at >= |before|;
    assert after[at - |before|..at - |before| + |part|] == s[at..at + |part|];
    assert StartsAt(after, at - |before|, part);
  }

  /** Once its own placeholders are filled, the text has none. */
  lemma {:induction false} TokenizeUnmarked(s: string, values: Values)
    requires Safe(values)
    ensures Unmarked(Expand(Tokenize(s, values), values), values)
    decreases |s|
  {
    if s != [] {
      var ts := Tokenize(s, values);
      TokenizeFlat(s, values);
      if exists n | n in values :: StartsAt(s, 0, Mark(n)) {
        var m := ts[0].name;
        TokenizeUnmarked(s[|Mark(m)|..], values);
        forall n | n in values ensures !Contains(Expand(ts, values), Mark(n)) {
          if Contains(Expand(ts, values), Mark(n)) {
            ContainsPast(values[m], Expand(ts[1..], values), Mark(n));
          }
        }
      } else {
        TokenizeUnmarked(s[1..], values);
        forall n | n in values ensures !Contains(Expand(ts, values), Mark(n)) {
          if Contains(Expand(ts, values), Mark(n)) {
            MeantMarkIsOwn(s, ts, n, values);
          }
        }
      }
    }
  }

  lemma MeantMarkIsOwn(s: string, ts: Tokens, n: string, values: Values)
    requires Safe(values) && ts != [] && ts[0].Char? && Flatten(ts) == s && HolesIn(ts, values.Keys) && n in values
    requires Contains(Expand(ts, values), Mark(n)) && Unmarked(Expand(ts[1..], values), values)
    ensures StartsAt(s, 0, Mark(n))
  {
    hide Safe, Contains;
    var text, mark := Expand(ts, values), Mark(n);
    ContainsStep(text, mark);
    assert text[1..] == Expand(ts[1..], values);
    assert mark[1..] == ("{" + n + "}")[0..];
    MarkEnd(ts[1..], n, 0, values);
    OneMoreToken(ts, mark);
    RunExpands(ts, mark, values);
  }

  /** Parameterising a text and rendering it with the same literals, in any orders, gives
      the text with its own placeholders filled in. */
  lemma TextRoundTrip(s: string, there: seq<string>, back: seq<string>, values: Values)
    requires Safe(values) && Names(there) == values.Keys == Names(back)
    requires (forall n | n in there :: n in values && values[n] != []) && forall n | n in back :: n in values
    ensures Rendered(Parameterised(s, there, values), back, values) == Expand(Tokenize(s, values), values)
  {
    hide Clean, Contains, Expand, Flatten, HolesIn, Unmarked;
    var ts := Tokenize(s, values);
    TokenizeFlat(s, values);
    TokenizeUnmarked(s, values);
    DiggedParameterises(ts, there, values);
    var dug := Digged(ts, there, values);
    FilledRenders(dug, back, values);
    assert values.Keys - Names(back) == {};
    NoHoles(Filled(dug, back, values), values);
  }

  lemma {:induction false} UnmarkedTokens(s: string, values: Values)
    requires Unmarked(s, values)
    ensures Expand(Tokenize(s, values), values) == s
    decreases |s|
  {
    if s != [] {
      forall n | n in values ensures !StartsAt(s, 0, Mark(n)) && !Contains(s[1..], Mark(n)) {
        ContainsStep(s, Mark(n));
      }
      UnmarkedTokens(s[1..], values);
    }
  }

  /** The round trip returns the text exactly when it has no placeholder of a parameter. */
  lemma TextRoundTripIff(s: string, there: seq<string>, back: seq<string>, values: Values)
    requires Safe(values) && Names(there) == values.Keys == Names(back)
    requires (forall n | n in there :: n in values && values[n] != []) && forall n | n in back :: n in values
    ensures Rendered(Parameterised(s, there, values), back, values) == s <==> Unmarked(s, values)
  {
    TextRoundTrip(s, there, back, values);
    TokenizeUnmarked(s, values);
    if Unmarked(s, values) {
      UnmarkedTokens(s, values);
    }
  }

  // ----------------------------------------------- a literal in a parameter's name

  lemma ReplaceNone(s: string, part: string, instead: string)
    requires part != [] && forall at | 0 <= at < |s| :: !StartsAt(s, at, part)
    ensures Replace(s, part, instead) == s
  {
    assert s + [] == s;
    ReplaceSkips(s, [], part, instead);
  }

  lemma ReplaceAbsent(s: string, part: string, instead: string)
    requires part != [] && !Contains(s, part)
    ensures Replace(s, part, instead) == s
  {
    ReplaceNone(s, part, instead);
  }

  lemma ContainsFits(s: string, part: string)
    requires Contains(s, part)
    ensures |part| <= |s|
  {
  }

  lemma OtherMarkAbsent(n: string, m: string)
    requires n != m && '$' !in n && '}' !in n && '}' !in m
    ensures !Contains(Mark(n), Mark(m))
  {
    OtherMark(n, m, []);
    assert Mark(n) + [] == Mark(n);
  }

  /** A literal that occurs in a text leaves a hole in it. */
  lemma {:induction false} DugHole(s: string, literal: string, m: string)
    requires literal != [] && Contains(s, literal)
    ensures Hole(m) in Dig(Chars(s), literal, m)
    decreases |s|
  {
    ContainsFits(s, literal);
    if !StartsWithChars(Chars(s), literal) {
      assert Chars(s)[..|literal|] == Chars(s[..|literal|]);
      ContainsStep(s, literal);
      assert Chars(s)[1..] == Chars(s[1..]);
      DugHole(s[1..], literal, m);
    }
  }

  lemma {:induction false} ExpandsLong(ts: Tokens, values: Values)
    requires Clean(values) && HolesIn(ts, values.Keys)
    ensures |ts| <= |Expand(ts, values)|
    decreases |ts|
  {
    if ts != [] {
      assert ts[0] in ts;
      ExpandsLong(ts[1..], values);
    }
  }

  /** What means less than a placeholder does not contain it. */
  lemma {:induction false} ShortHasNoMark(ts: Tokens, n: string, m: string, x: string, values: Values)
    requires n != m && '$' !in n && '}' !in n && '$' !in m && '}' !in m
    requires HolesIn(ts, {m}) && |Expand(ts, values)| < |Mark(n)|
    ensures Replace(Flatten(ts), Mark(n), x) == Flatten(ts)
    decreases |ts|
  {
    hide Flatten, Expand, Contains, StartsAt, Mark;
    if ts == [] {
      NoTokens(values);
    } else {
      FlattenCons(ts, values);
      MeantLength(ts, values);
      ShortHasNoMark(ts[1..], n, m, x, values);
      if ts[0].Char? {
        if StartsAt(Flatten(ts), 0, Mark(n)) {
          CharBeginsMark(ts, n, values);
          ContainsFits(Expand(ts, values), Mark(n));
        }
        assert Flatten(ts)[1..] == Flatten(ts[1..]);
      } else {
        assert ts[0] in ts;
        OtherMark(m, n, Flatten(ts[1..]));
        ReplaceSkips(Mark(m), Flatten(ts[1..]), Mark(n), x);
      }
    }
  }

  lemma MeantLength(ts: Tokens, values: Values)
    requires ts != []
    ensures |Expand(ts[1..], values)| <= |Expand(ts, values)|
  {
  }

  /** Digging a literal out of a placeholder's name leaves a hole behind a `$`. */
  lemma MarkDug(n: string, m: string, y: string)
    requires '$' !in n && '}' !in n && Contains(n, y) && y != [] && Clean(map[m := y])
    ensures var dug := Dig(Chars(Mark(n)), y, m);
      && dug != [] && dug[0] == Char('$') && Hole(m) in dug && HolesIn(dug, {m})
      && Expand(dug, map[m := y]) == Mark(n)
  {
    var values := map[m := y];
    assert m in values && values[m] == y;
    CharsAreThemselves(Mark(n), values);
    CharsHaveNoHoles(Mark(n), {});
    ContainsPrefix(n, "}", y);
    ContainsSuffix("${", n + "}", y);
    assert Mark(n) == "${" + (n + "}");
    hide Flatten, Expand, Contains;
    DigReplaces(Chars(Mark(n)), m, values, {});
    assert {} + {m} == {m};
    DugHole(Mark(n), y, m);
    FirstKept(Mark(n), y, m);
  }

  /** Once its name has a hole, a placeholder cannot be found any more. */
  lemma MarkLost(n: string, m: string, x: string, y: string)
    requires n != m && '$' !in n && '}' !in n && Contains(n, y) && y != [] && Clean(map[m := y])
    ensures var dug := Dig(Chars(Mark(n)), y, m);
      Replace(Flatten(dug), Mark(n), x) == Flatten(dug)
  {
    var values := map[m := y];
    assert m in values && values[m] == y;
    MarkDug(n, m, y);
    hide Dig, Mark, Flatten, Expand, Contains, StartsAt;
    var dug := Dig(Chars(Mark(n)), y, m);
    FlattenCons(dug, values);
    HolesAfter(dug, 1, {m});
    ShortHasNoMark(dug[1..], n, m, x, values);
    assert Hole(m) !in Chars(Mark(n));
    if StartsAt(Flatten(dug), 0, Mark(n)) {
      WholeMark(dug, n, values);
    }
    assert Flatten(dug)[1..] == Flatten(dug[1..]);
  }

  lemma ContainsPrefix(before: string, after: string, part: string)
    requires Contains(before, part)
    ensures Contains(before + after, part)
  {
    var at :| 0 <= at <= |before| && StartsAt(before, at, part);
    assert (before + after)[at..at + |part|] == before[at..at + |part|];
    assert StartsAt(before + after, at, part);
  }

  lemma FirstKept(s: string, literal: string, m: string)
    requires s != [] && literal != [] && s[0] !in literal
    ensures Dig(Chars(s), literal, m) != [] && Dig(Chars(s), literal, m)[0] == Char(s[0])
  {
    assert Chars(literal)[0] == Char(literal[0]) && literal[0] in literal;
    assert |literal| <= |s| ==> Chars(s)[..|literal|][0] == Char(s[0]);
  }

  lemma HolesAfter(ts: Tokens, n: nat, names: set<string>)
    requires HolesIn(ts, names) && n <= |ts|
    ensures HolesIn(ts[n..], names)
  {
  }

  /** A list that means a placeholder and begins with its characters is its characters. */
  lemma WholeMark(ts: Tokens, n: string, values: Values)
    requires Clean(values) && HolesIn(ts, values.Keys) && '$' !in n
    requires ts != [] && ts[0].Char? && Expand(ts, values) == Mark(n) && StartsAt(Flatten(ts), 0, Mark(n))
    ensures ts == Chars(Mark(n))
  {
    MarkIsRun(ts, n);
    hide Flatten, Expand, Mark, Clean;
    var mark := Mark(n);
    RunExpands(ts, mark, values);
    HolesAfter(ts, |mark|, values.Keys);
    ExpandsLong(ts[|mark|..], values);
    assert ts == ts[..|mark|] + ts[|mark|..];
  }

  lemma TwoParameters(s: string, n: string, m: string, values: Values)
    requires n in values && m in values && values[n] != [] && values[m] != []
    ensures Parameterised(s, [n, m], values) == Replace(Replace(s, values[n], Mark(n)), values[m], Mark(m))
    ensures Rendered(s, [n, m], values) == Replace(Replace(s, Mark(n), values[n]), Mark(m), values[m])
  {
    hide Replace;
    var both, one := [n, m], [n];
    assert both[..|both| - 1] == one && one[..|one| - 1] == [];
    assert Parameterised(s, one[..|one| - 1], values) == s && Rendered(s, one[..|one| - 1], values) == s;
    assert Parameterised(s, one, values) == Replace(s, values[n], Mark(n));
    assert Rendered(s, one, values) == Replace(s, Mark(n), values[n]);
  }

  /** The text a parameter's own name becomes, and back. */
  lemma NameReturns(n: string, m: string, y: string)
    requires n != m && '$' !in n && '}' !in n && y != [] && Clean(map[m := y])
    ensures var dug := Flatten(Dig(Chars(Mark(n)), y, m));
      Replace(Mark(n), y, Mark(m)) == dug && Replace(dug, Mark(m), y) == Mark(n)
  {
    var one := map[m := y];
    assert m in one && one[m] == y;
    hide Replace, Clean, Dig, Mark, Flatten, Contains;
    PlainOf(one, m);
    CharsAreThemselves(Mark(n), one);
    CharsHaveNoHoles(Mark(n), {});
    DigReplaces(Chars(Mark(n)), m, one, {});
    assert {} + {m} == {m};
    OtherMarkAbsent(n, m);
    FillReplaces(Dig(Chars(Mark(n)), y, m), m, one, {m});
    assert {m} - {m} == {};
    NoHoles(Fill(Dig(Chars(Mark(n)), y, m), m, y), one);
  }

  /** If the literal of one parameter occurs in the name of another, the order of the
      parameters decides what comes back for the other's literal: the literal itself when
      the one comes first, a placeholder when it comes last. */
  lemma LiteralInNameBreaks(n: string, x: string, m: string, y: string)
    requires n != m && '$' !in n && '}' !in n && y != [] && Clean(map[m := y])
    requires x != [] && '$' !in x && Contains(n, y)
    ensures var values := map[n := x, m := y];
      && Rendered(Parameterised(x, [n, m], values), [n, m], values) == Mark(n) != x
      && (!Contains(x, y) ==> Rendered(Parameterised(x, [m, n], values), [m, n], values) == x)
  {
    hide Replace, Clean, Dig, Mark, Flatten, Contains, Parameterised, Rendered;
    var values := map[n := x, m := y];
    assert values[n] == x && values[m] == y;
    MarkBegins(n);
    ReplaceFirst(x, [], Mark(n));
    ReplaceFirst(Mark(n), [], x);
    assert x + [] == x && Mark(n) + [] == Mark(n);
    ReplaceNothing(x, Mark(n), x);
    assert x[0] in x;
    TwoParameters(x, n, m, values);
    NameReturns(n, m, y);
    MarkLost(n, m, x, y);
    TwoParameters(Flatten(Dig(Chars(Mark(n)), y, m)), n, m, values);
    if !Contains(x, y) {
      TwoParameters(x, m, n, values);
      TwoParameters(Mark(n), m, n, values);
      ReplaceAbsent(x, y, Mark(m));
      PlainOf(map[m := y], m);
      MarkBegins(m);
      OtherMarkAbsent(n, m);
      ReplaceAbsent(Mark(n), Mark(m), y);
    }
  }

  lemma PlainOf(values: Values, m: string)
    requires Clean(values) && m in values
    ensures '$' !in m && '}' !in m && values[m] != []
  {
  }

  lemma ReplaceNothing(part: string, a: string, b: string)
    requires part != [] && a != []
    ensures Replace([], part, a) == [] && Replace([], a, b) == []
  {
  }

  lemma MarkBegins(n: string)
    ensures Mark(n) != [] && Mark(n)[0] == '$'
  {
  }

  lemma CharsHaveNoHoles(s: string, names: set<string>)
    ensures HolesIn(Chars(s), names)
  {
  }
}
