/** Which orders of parameters bring every text back. A replacement is one pass, so a name
    may well contain its own literal, or that of a parameter before it. */
module ParameterOrder {
  import opened Wrappers
  import opened Text
  import opened Placeholders

  ghost predicate Known(order: seq<string>, values: Values) { forall n | n in order :: n in values }

  ghost predicate Distinct(order: seq<string>) { forall i, j | 0 <= i < j < |order| :: order[i] != order[j] }

  /** No earlier literal occurs in this one; any other is never found, and its parameter
      leaves no placeholder in the text. */
  ghost predicate Live(order: seq<string>, values: Values, i: nat)
    requires i < |order| && Known(order, values)
  {
    forall k | 0 <= k < i :: !Contains(values[order[i]], values[order[k]])
  }

  /** No literal occurs in the name of a live parameter before it. */
  ghost predicate InOrder(order: seq<string>, values: Values)
    requires Known(order, values)
  {
    forall i, j | 0 <= i < j < |order| && Live(order, values, i) :: !Contains(order[i], values[order[j]])
  }

  // -------------------------------------------------------- in order, texts come back

  ghost function LiveNames(order: seq<string>, values: Values): set<string>
    requires Known(order, values)
  {
    set i | 0 <= i < |order| && Live(order, values, i) :: order[i]
  }

  /** Nowhere in the list is the literal a run of characters. */
  predicate RunFree(ts: Tokens, literal: string) {
    !StartsWithChars(ts, literal) && (ts == [] || RunFree(ts[1..], literal))
  }

  lemma {:induction false} RunFreeAfter(ts: Tokens, n: nat, literal: string)
    requires RunFree(ts, literal) && n <= |ts|
    ensures RunFree(ts[n..], literal)
    decreases n
  {
    if n > 0 {
      RunFreeAfter(ts[1..], n - 1, literal);
      assert ts[1..][n - 1..] == ts[n..];
    } else {
      assert ts[0..] == ts;
    }
  }

  lemma {:induction false} DugStarts(ts: Tokens, literal: string, name: string, w: string)
    requires literal != [] && StartsWithChars(Dig(ts, literal, name), w)
    ensures StartsWithChars(ts, w)
    decreases |ts|
  {
    if w == [] {
      assert ts[..0] == Chars(w);
    } else {
      OneMoreToken(Dig(ts, literal, name), w);
      DugStarts(ts[1..], literal, name, w[1..]);
      OneMoreToken(ts, w);
    }
  }

  /** Digging makes no new run of characters. */
  lemma {:induction false} DugStaysFree(ts: Tokens, literal: string, name: string, w: string)
    requires literal != [] && RunFree(ts, w)
    ensures RunFree(Dig(ts, literal, name), w)
    decreases |ts|
  {
    if StartsWithChars(Dig(ts, literal, name), w) {
      DugStarts(ts, literal, name, w);
    }
    if ts != [] {
      if StartsWithChars(ts, literal) {
        RunFreeAfter(ts, |literal|, w);
        DugStaysFree(ts[|literal|..], literal, name, w);
      } else {
        DugStaysFree(ts[1..], literal, name, w);
      }
    }
  }

  /** After digging for a literal it is gone. */
  lemma {:induction false} DugIsFree(ts: Tokens, literal: string, name: string)
    requires literal != []
    ensures RunFree(Dig(ts, literal, name), literal)
    decreases |ts|
  {
    var dug := Dig(ts, literal, name);
    if ts != [] {
      if StartsWithChars(ts, literal) {
        DugIsFree(ts[|literal|..], literal, name);
        OneMoreToken(dug, literal);
      } else {
        DugIsFree(ts[1..], literal, name);
        if StartsWithChars(dug, literal) {
          DugStarts(ts, literal, name, literal);
        }
      }
    }
  }

  lemma {:induction false} LongerHasPart(ts: Tokens, part: string, whole: string)
    requires StartsWithChars(ts, whole) && Contains(whole, part)
    ensures !RunFree(ts, part)
    decreases |whole|
  {
    if StartsAt(whole, 0, part) {
      assert ts[..|part|] == ts[..|whole|][..|part|] == Chars(whole)[..|part|] == Chars(whole[..|part|]);
    } else {
      ContainsStep(whole, part);
      OneMoreToken(ts, whole);
      LongerHasPart(ts[1..], part, whole[1..]);
    }
  }

  /** A literal with a part that is gone is not found. */
  lemma {:induction false} DigsNothing(ts: Tokens, part: string, whole: string, name: string)
    requires RunFree(ts, part) && Contains(whole, part) && whole != []
    ensures Dig(ts, whole, name) == ts
    decreases |ts|
  {
    if StartsWithChars(ts, whole) {
      LongerHasPart(ts, part, whole);
    }
    if ts != [] {
      DigsNothing(ts[1..], part, whole, name);
    }
  }

  lemma LiveFront(order: seq<string>, values: Values)
    requires Known(order, values) && order != []
    ensures var n := |order| - 1;
      && Known(order[..n], values) && (InOrder(order, values) ==> InOrder(order[..n], values))
      && LiveNames(order, values)
           == LiveNames(order[..n], values) + if Live(order, values, n) then {order[n]} else {}
  {
    hide Contains;
    var n := |order| - 1;
    assert forall i | 0 <= i < n :: Live(order[..n], values, i) <==> Live(order, values, i);
  }

  lemma BeforeIsFine(order: seq<string>, values: Values, n: string)
    requires Known(order + [n], values) && InOrder(order + [n], values)
    ensures Known(order, values) && forall m | m in LiveNames(order, values) :: !Contains(m, values[n])
  {
    hide Contains;
    forall m | m in LiveNames(order, values) ensures !Contains(m, values[n]) {
      var i :| 0 <= i < |order| && Live(order, values, i) && order[i] == m;
      assert Live(order + [n], values, i);
      assert (order + [n])[i] == m && (order + [n])[|order|] == n;
    }
  }

  ghost predicate AllGone(ts: Tokens, order: seq<string>, values: Values)
    requires Known(order, values)
  {
    forall k | 0 <= k < |order| :: RunFree(ts, values[order[k]])
  }

  /** Parameters in order: what is dug still means the text, holes are of live parameters
      only, and no literal is left. */
  lemma {:induction false} DugInOrder(s: string, order: seq<string>, values: Values)
    requires Clean(values) && Known(order, values) && InOrder(order, values)
    requires forall n | n in order :: values[n] != []
    ensures var dug := Digged(Chars(s), order, values);
      && Parameterised(s, order, values) == Flatten(dug) && Expand(dug, values) == s
      && HolesIn(dug, LiveNames(order, values)) && AllGone(dug, order, values)
    decreases |order|
  {
    hide Clean, Live, InOrder, LiveNames, Flatten, Expand, Contains, Dig, Replace, HolesIn, RunFree, Chars;
    if order == [] {
      CharsAreThemselves(s, values);
      CharsHaveNoHoles(s, LiveNames(order, values));
    } else {
      var front, n := order[..|order| - 1], order[|order| - 1];
      assert front + [n] == order;
      LiveFront(order, values);
      DugInOrder(s, front, values);
      BeforeIsFine(front, values, n);
      OneMoreDug(Digged(Chars(s), front, values), front, n, values);
    }
  }

  lemma OneMoreDug(ts: Tokens, front: seq<string>, n: string, values: Values)
    requires Clean(values) && Known(front, values) && n in values && values[n] != []
    requires HolesIn(ts, LiveNames(front, values)) && AllGone(ts, front, values)
    requires forall m | m in LiveNames(front, values) :: !Contains(m, values[n])
    ensures Known(front + [n], values)
    ensures var dug := Dig(ts, values[n], n);
      && Replace(Flatten(ts), values[n], Mark(n)) == Flatten(dug) && Expand(dug, values) == Expand(ts, values)
      && HolesIn(dug, LiveNames(front + [n], values)) && AllGone(dug, front + [n], values)
  {
    hide Clean, LiveNames, Flatten, Expand, Contains, Dig, Replace, HolesIn, RunFree, Live;
    var order, dug := front + [n], Dig(ts, values[n], n);
    assert order[..|order| - 1] == front;
    LiveFront(order, values);
    DigReplaces(ts, n, values, LiveNames(front, values));
    DugIsFree(ts, values[n], n);
    forall k | 0 <= k < |order| ensures RunFree(dug, values[order[k]]) {
      if k < |front| {
        assert order[k] == front[k];
        DugStaysFree(ts, values[n], n, values[front[k]]);
      }
    }
    if !Live(order, values, |front|) {
      assert LiveNames(order, values) == LiveNames(front, values);
      DeadDigsNothing(ts, front, n, values);
    }
  }

  lemma DeadDigsNothing(ts: Tokens, front: seq<string>, n: string, values: Values)
    requires Known(front + [n], values) && !Live(front + [n], values, |front|) && values[n] != []
    requires Known(front, values) && AllGone(ts, front, values)
    ensures Dig(ts, values[n], n) == ts
  {
    hide Contains, Dig, RunFree;
    var order := front + [n];
    var k :| 0 <= k < |front| && Contains(values[order[|front|]], values[order[k]]);
    assert order[k] == front[k];
    DigsNothing(ts, values[front[k]], values[n], n);
  }

  ghost predicate Returns(s: string, there: seq<string>, back: seq<string>, values: Values)
    requires Known(there, values) && Known(back, values) && forall n | n in there :: values[n] != []
  {
    Rendered(Parameterised(s, there, values), back, values) == s
  }

  /** In order, a text without placeholders of the parameters comes back, in whatever order
      it is rendered. */
  lemma UnmarkedReturns(s: string, there: seq<string>, back: seq<string>, values: Values)
    requires Clean(values) && Known(there, values) && InOrder(there, values)
    requires Known(back, values) && Names(back) == values.Keys && Unmarked(s, values)
    requires forall n | n in there :: values[n] != []
    ensures Returns(s, there, back, values)
  {
    hide Clean, InOrder, Live, Unmarked, Flatten, Expand, HolesIn, Contains;
    DugInOrder(s, there, values);
    var dug := Digged(Chars(s), there, values);
    LiveAreKnown(dug, there, values);
    FilledRenders(dug, back, values);
    assert values.Keys - Names(back) == {};
    NoHoles(Filled(dug, back, values), values);
  }

  lemma LiveAreKnown(ts: Tokens, order: seq<string>, values: Values)
    requires Known(order, values) && HolesIn(ts, LiveNames(order, values))
    ensures HolesIn(ts, values.Keys)
  {
  }

  // ---------------------------------------------- out of order, some text is lost

  function Say(stack: seq<string>, text: string): (said: seq<string>)
    requires stack != []
    ensures |said| == |stack|
  {
    stack[|stack| - 1 := stack[|stack| - 1] + text]
  }

  /** The name of the placeholder that is open at the start of the text, once all the
      placeholders inside it are read as their values. */
  function OpenName(u: string, stack: seq<string>, values: Values): Option<string>
    requires stack != []
    decreases |u|
  {
    var n := |stack| - 1;
    if u == [] then None
    else if u[0] == '}' then
      if n == 0 then Some(stack[0])
      else OpenName(u[1..], Say(stack[..n], if stack[n] in values then values[stack[n]] else []), values)
    else if |u| >= 2 && u[0] == '$' && u[1] == '{' then OpenName(u[2..], stack + [[]], values)
    else OpenName(u[1..], Say(stack, [u[0]]), values)
  }

  lemma {:induction false} NameSays(y: string, w: string, stack: seq<string>, values: Values)
    requires stack != [] && '$' !in y && '}' !in y
    ensures OpenName(y + w, stack, values) == OpenName(w, Say(stack, y), values)
    decreases |y|
  {
    if y == [] {
      assert y + w == w && stack[|stack| - 1] + y == stack[|stack| - 1];
      assert Say(stack, y) == stack;
    } else {
      var top := stack[|stack| - 1];
      assert (y + w)[0] == y[0] && (y + w)[1..] == y[1..] + w;
      NameSays(y[1..], w, Say(stack, [y[0]]), values);
      assert top + y == top + [y[0]] + y[1..];
      assert Say(Say(stack, [y[0]]), y[1..]) == Say(stack, y);
    }
  }

  lemma NameReads(k: string, w: string, stack: seq<string>, values: Values)
    requires stack != [] && k in values && '$' !in k && '}' !in k
    ensures OpenName(Mark(k) + w, stack, values) == OpenName(w, Say(stack, values[k]), values)
  {
    var rest := k + ("}" + w);
    assert Mark(k) + w == "${" + rest && ("${" + rest)[2..] == rest;
    assert OpenName("${" + rest, stack, values) == OpenName(rest, stack + [[]], values);
    NameSays(k, "}" + w, stack + [[]], values);
    assert [] + k == k;
    assert Say(stack + [[]], k) == stack + [k];
    assert ("}" + w)[1..] == w && (stack + [k])[..|stack|] == stack;
  }

  /** A parameter's literal and its placeholder, in one direction or the other. */
  ghost predicate Swap(part: string, instead: string, k: string, values: Values) {
    k in values && ((part == values[k] && instead == Mark(k)) || (part == Mark(k) && instead == values[k]))
  }

  lemma SwapSays(part: string, instead: string, k: string, values: Values, w: string, v: string, stack: seq<string>)
    requires Clean(values) && Swap(part, instead, k, values) && stack != []
    ensures OpenName(part + w, stack, values) == OpenName(w, Say(stack, values[k]), values)
    ensures OpenName(instead + v, stack, values) == OpenName(v, Say(stack, values[k]), values)
  {
    hide OpenName, Mark;
    NameSays(values[k], w, stack, values);
    NameSays(values[k], v, stack, values);
    NameReads(k, w, stack, values);
    NameReads(k, v, stack, values);
  }

  lemma SwapBegins(part: string, instead: string, k: string, values: Values)
    requires Clean(values) && Swap(part, instead, k, values)
    ensures part != [] && instead != [] && part[0] != '{' && instead[0] != '{'
  {
    assert values[k][0] in values[k];
  }

  lemma ReplaceHead(u: string, part: string, instead: string)
    requires u != [] && part != [] && !StartsAt(u, 0, part)
    ensures Replace(u, part, instead) == [u[0]] + Replace(u[1..], part, instead)
  {
  }

  lemma ReplaceMatch(u: string, part: string, instead: string)
    requires part != [] && StartsAt(u, 0, part)
    ensures u == part + u[|part|..] && Replace(u, part, instead) == instead + Replace(u[|part|..], part, instead)
  {
  }

  lemma BraceStays(u: string, part: string, instead: string)
    requires part != [] && instead != [] && part[0] != '{' && instead[0] != '{'
    ensures var r := Replace(u, part, instead);
      && ((r != [] && r[0] == '{') <==> (u != [] && u[0] == '{'))
      && (u != [] && u[0] == '{' ==> r == ['{'] + Replace(u[1..], part, instead))
  {
  }

  /** Neither replacement changes the name that is open. */
  lemma {:induction false} NameKept(u: string, part: string, instead: string, k: string, values: Values,
                                    stack: seq<string>)
    requires Clean(values) && Swap(part, instead, k, values) && stack != []
    ensures part != [] && OpenName(Replace(u, part, instead), stack, values) == OpenName(u, stack, values)
    decreases |u|
  {
    SwapBegins(part, instead, k, values);
    hide Clean, Swap, StartsAt, Replace, Say;
    var r := Replace(u, part, instead);
    if u == [] {
      NothingReplaced(part, instead);
    } else if StartsAt(u, 0, part) {
      ReplaceMatch(u, part, instead);
      var rest := u[|part|..];
      SwapSays(part, instead, k, values, rest, Replace(rest, part, instead), stack);
      NameKept(rest, part, instead, k, values, Say(stack, values[k]));
    } else {
      ReplaceHead(u, part, instead);
      assert r[1..] == Replace(u[1..], part, instead);
      BraceStays(u[1..], part, instead);
      if u[0] == '}' {
        var n := |stack| - 1;
        if n > 0 {
          NameKept(u[1..], part, instead, k, values,
            Say(stack[..n], if stack[n] in values then values[stack[n]] else []));
        }
      } else if |u| >= 2 && u[0] == '$' && u[1] == '{' {
        assert u[1..][1..] == u[2..] && r[2..] == Replace(u[2..], part, instead);
        NameKept(u[2..], part, instead, k, values, stack + [[]]);
      } else {
        NameKept(u[1..], part, instead, k, values, Say(stack, [u[0]]));
      }
    }
  }

  lemma NothingReplaced(part: string, instead: string)
    requires part != []
    ensures Replace([], part, instead) == []
  {
  }

  /** The text begins with a placeholder that means the parameter n. */
  ghost predicate Opens(t: string, n: string, values: Values) {
    |t| >= 2 && t[..2] == "${" && OpenName(t[2..], [[]], values) == Some(n)
  }

  lemma MarkOpens(n: string, w: string, values: Values)
    requires '$' !in n && '}' !in n
    ensures Opens(Mark(n) + w, n, values)
  {
    var rest := n + ("}" + w);
    assert Mark(n) + w == "${" + rest && ("${" + rest)[2..] == rest;
    NameSays(n, "}" + w, [[]], values);
    assert [] + n == n;
    assert Say([[]], n) == [n];
  }

  /** It is no placeholder of another parameter. */
  lemma OpensOnly(t: string, n: string, k: string, values: Values)
    requires Opens(t, n, values) && k != n && '$' !in k && '}' !in k
    ensures !StartsAt(t, 0, Mark(k))
  {
    hide OpenName;
    if StartsAt(t, 0, Mark(k)) {
      var w := t[|Mark(k)|..];
      assert t == Mark(k) + w;
      MarkOpens(k, w, values);
    }
  }

  lemma HeadStays(t: string, part: string, instead: string)
    requires |t| >= 2 && t[..2] == "${" && part != [] && part[0] != '{' && !StartsAt(t, 0, part)
    ensures Replace(t, part, instead) == "${" + Replace(t[2..], part, instead)
  {
    assert t[0] == t[..2][0] && t[1] == t[..2][1];
    assert t[1..][0] == '{' && t[1..][1..] == t[2..];
    ReplaceHead(t, part, instead);
    assert !StartsAt(t[1..], 0, part);
    ReplaceHead(t[1..], part, instead);
  }

  lemma SwapOpens(t: string, n: string, part: string, instead: string, k: string, values: Values)
    requires Clean(values) && Swap(part, instead, k, values) && Opens(t, n, values) && !StartsAt(t, 0, part)
    ensures part != []
    ensures var r := Replace(t, part, instead);
      Opens(r, n, values) && r[2..] == Replace(t[2..], part, instead)
  {
    SwapBegins(part, instead, k, values);
    hide Clean, Swap, OpenName, Replace, StartsAt;
    HeadStays(t, part, instead);
    NameKept(t[2..], part, instead, k, values, [[]]);
    assert ("${" + Replace(t[2..], part, instead))[2..] == Replace(t[2..], part, instead);
  }

  /** Before the open placeholder ends, another begins in it. */
  predicate Broken(u: string) { u != [] && (u[0] == '$' || (u[0] != '}' && Broken(u[1..]))) }

  lemma {:induction false} BrokenIsNoName(u: string, k: string)
    requires Broken(u) && '$' !in k && '}' !in k
    ensures !StartsAt(u, 0, k + "}")
    decreases |u|
  {
    var mark := k + "}";
    if StartsAt(u, 0, mark) {
      assert u[0] == u[..|mark|][0] == mark[0];
      if k != [] {
        assert k[0] in k;
        assert u[1..][..|mark| - 1] == u[..|mark|][1..] == mark[1..] == k[1..] + "}";
        BrokenIsNoName(u[1..], k[1..]);
      }
    }
  }

  lemma BrokenIsNoMark(t: string, k: string)
    requires |t| >= 2 && t[..2] == "${" && Broken(t[2..]) && '$' !in k && '}' !in k
    ensures !StartsAt(t, 0, Mark(k))
  {
    var mark := Mark(k);
    if StartsAt(t, 0, mark) {
      assert t[2..][..|mark| - 2] == t[..|mark|][2..] == mark[2..] == k + "}";
      BrokenIsNoName(t[2..], k);
    }
  }

  lemma {:induction false} BrokenStays(u: string, y: string, m: string)
    requires Broken(u) && y != []
    ensures Broken(Replace(u, y, Mark(m)))
    decreases |u|
  {
    if StartsAt(u, 0, y) {
      ReplaceMatch(u, y, Mark(m));
    } else {
      ReplaceHead(u, y, Mark(m));
      if u[0] != '$' {
        BrokenStays(u[1..], y, m);
      }
    }
  }

  lemma StartsStays(n: string, w: string, y: string)
    ensures StartsAt(n, 0, y) ==> StartsAt(n + w, 0, y)
  {
    if StartsAt(n, 0, y) {
      assert (n + w)[..|y|] == n[..|y|];
    }
  }

  lemma StartsWithFirst(t: string, part: string)
    requires part != [] && StartsAt(t, 0, part)
    ensures t != [] && t[0] == part[0]
  {
    assert t[0] == t[..|part|][0];
  }

  lemma {:induction false} NameBreaks(n: string, y: string, m: string)
    requires Contains(n, y) && y != [] && '}' !in n
    ensures Broken(Replace(n + "}", y, Mark(m)))
    decreases |n|
  {
    var u := n + "}";
    if StartsAt(u, 0, y) {
      ReplaceMatch(u, y, Mark(m));
    } else {
      ReplaceHead(u, y, Mark(m));
      StartsStays(n, "}", y);
      ContainsFits(n, y);
      ContainsStep(n, y);
      assert u[1..] == n[1..] + "}" && n[0] in n;
      NameBreaks(n[1..], y, m);
    }
  }

  // ------------------------------------------------------------ the text that is lost

  lemma {:induction false} Untouched(x: string, order: seq<string>, values: Values)
    requires forall n | n in order :: n in values && values[n] != [] && !Contains(x, values[n])
    ensures Parameterised(x, order, values) == x
    decreases |order|
  {
    hide Replace, Contains;
    if order != [] {
      Untouched(x, order[..|order| - 1], values);
      var n := order[|order| - 1];
      ReplaceAbsent(x, values[n], Mark(n));
    }
  }

  lemma {:induction false} ParameterisedAppend(x: string, a: seq<string>, b: seq<string>, values: Values)
    requires forall n | n in a + b :: n in values && values[n] != []
    ensures (forall n | n in a :: n in a + b) && forall n | n in b :: n in a + b
    ensures Parameterised(x, a + b, values) == Parameterised(Parameterised(x, a, values), b, values)
    decreases |b|
  {
    hide Replace;
    if b == [] {
      assert a + b == a;
    } else {
      var front := b[..|b| - 1];
      assert (a + b)[..|a + b| - 1] == a + front;
      ParameterisedAppend(x, a, front, values);
    }
  }

  lemma {:induction false} RenderedAppend(x: string, a: seq<string>, b: seq<string>, values: Values)
    requires forall n | n in a + b :: n in values
    ensures (forall n | n in a :: n in a + b) && forall n | n in b :: n in a + b
    ensures Rendered(x, a + b, values) == Rendered(Rendered(x, a, values), b, values)
    decreases |b|
  {
    hide Replace;
    if b == [] {
      assert a + b == a;
    } else {
      var front := b[..|b| - 1];
      assert (a + b)[..|a + b| - 1] == a + front;
      RenderedAppend(x, a, front, values);
    }
  }

  lemma PlainName(k: string, values: Values)
    requires Clean(values) && k in values
    ensures '$' !in k && '}' !in k && values[k] != []
    ensures '$' !in values[k] && '{' !in values[k] && '}' !in values[k] && values[k][0] != '$'
  {
    assert values[k][0] in values[k];
  }

  lemma LiteralStartsNoMark(t: string, k: string, values: Values)
    requires Clean(values) && k in values && |t| >= 2 && t[..2] == "${"
    ensures !StartsAt(t, 0, values[k])
  {
    PlainName(k, values);
    assert t[0] == t[..2][0];
    if StartsAt(t, 0, values[k]) {
      StartsWithFirst(t, values[k]);
    }
  }

  /** Later parameters: the placeholder of n stays open, and breaks for good as soon as
      one of their literals occurs in its name. */
  lemma {:induction false} BreaksOpen(n: string, order: seq<string>, values: Values)
    requires Clean(values) && Known(order, values) && '$' !in n && '}' !in n
    requires forall k | k in order :: values[k] != []
    ensures var t := Parameterised(Mark(n), order, values);
      && Opens(t, n, values) && (t == Mark(n) || Broken(t[2..]))
      && ((exists j | 0 <= j < |order| :: Contains(n, values[order[j]])) ==> Broken(t[2..]))
    decreases |order|
  {
    hide Clean, Contains, Opens, Broken, Mark, Replace;
    if order == [] {
      MarkOpens(n, [], values);
      assert Mark(n) + [] == Mark(n);
    } else {
      var front, k := order[..|order| - 1], order[|order| - 1];
      BreaksOpen(n, front, values);
      BreaksOnce(Parameterised(Mark(n), front, values), n, k, values);
      assert forall j | 0 <= j < |front| :: front[j] == order[j];
    }
  }

  lemma BreaksOnce(t: string, n: string, k: string, values: Values)
    requires Clean(values) && k in values && '$' !in n && '}' !in n && values[k] != []
    requires Opens(t, n, values) && (t == Mark(n) || Broken(t[2..]))
    ensures var r := Replace(t, values[k], Mark(k));
      && Opens(r, n, values) && (r == Mark(n) || Broken(r[2..]))
      && (Broken(t[2..]) || Contains(n, values[k]) ==> Broken(r[2..]))
  {
    PlainName(k, values);
    LiteralStartsNoMark(t, k, values);
    hide Clean, OpenName, Contains, StartsAt, Broken, Replace;
    SwapOpens(t, n, values[k], Mark(k), k, values);
    if Broken(t[2..]) {
      BrokenStays(t[2..], values[k], k);
    } else if Contains(n, values[k]) {
      assert Mark(n)[2..] == n + "}";
      NameBreaks(n, values[k], k);
    } else {
      NoLiteralInMark(n, [], values[k]);
      assert Mark(n) + [] == Mark(n);
      ReplaceNone(Mark(n), values[k], Mark(k));
    }
  }

  /** Rendering the others never closes it. */
  lemma {:induction false} StaysOpen(t: string, n: string, order: seq<string>, values: Values)
    requires Clean(values) && Known(order, values) && n !in order && Opens(t, n, values)
    ensures Opens(Rendered(t, order, values), n, values)
    decreases |order|
  {
    hide Clean, Opens, Mark, Replace;
    if order != [] {
      var front, k := order[..|order| - 1], order[|order| - 1];
      StaysOpen(t, n, front, values);
      PlainName(k, values);
      var now := Rendered(t, front, values);
      OpensOnly(now, n, k, values);
      SwapOpens(now, n, Mark(k), values[k], k, values);
    }
  }

  /** What the literal of a live parameter becomes: its placeholder, broken if a later
      literal occurs in the name. */
  lemma LiteralBecomes(there: seq<string>, values: Values, i: nat, j: nat)
    requires Clean(values) && Known(there, values) && i < j < |there| && Live(there, values, i)
    requires forall n | n in there :: values[n] != []
    requires Contains(there[i], values[there[j]])
    ensures var t := Parameterised(values[there[i]], there, values);
      Opens(t, there[i], values) && Broken(t[2..])
  {
    hide Clean, Contains, Opens, Broken, Replace, Live, Mark, Parameterised;
    var n := there[i];
    var x := values[n];
    PlainName(n, values);
    var before, later := there[..i], there[i + 1..];
    assert there == before + ([n] + later);
    EarlierMiss(there, values, i);
    Untouched(x, before, values);
    OneParameter(x, n, values);
    ParameterisedAppend(x, before, [n] + later, values);
    ParameterisedAppend(x, [n], later, values);
    BreaksOpen(n, later, values);
    assert later[j - i - 1] == there[j];
  }

  /** The literal of a live parameter, sent through parameters of which a later one has
      its literal in the name: rendered with that parameter first, it does not come back. */
  lemma LiteralLost(there: seq<string>, values: Values, i: nat, j: nat, others: seq<string>)
    requires Clean(values) && Known(there, values) && i < j < |there| && Live(there, values, i)
    requires forall n | n in there :: values[n] != []
    requires Contains(there[i], values[there[j]])
    requires Known(others, values) && there[i] !in others
    ensures Known([there[i]] + others, values)
    ensures !Returns(values[there[i]], there, [there[i]] + others, values)
  {
    LiteralBecomes(there, values, i, j);
    var n := there[i];
    PlainName(n, values);
    hide Clean, Contains, Opens, Broken, Replace, Live, Mark, Parameterised, Rendered;
    var t := Parameterised(values[n], there, values);
    FirstMisses(t, n, values);
    RenderedAppend(t, [n], others, values);
    StaysOpen(Rendered(t, [n], values), n, others, values);
    OpensWithDollar(Rendered(t, [n] + others, values), n, values);
  }

  lemma EarlierMiss(there: seq<string>, values: Values, i: nat)
    requires Known(there, values) && i < |there| && Live(there, values, i)
    ensures forall n | n in there[..i] :: !Contains(values[there[i]], values[n])
  {
    hide Contains;
    forall n | n in there[..i] ensures !Contains(values[there[i]], values[n]) {
      var k :| 0 <= k < i && there[k] == n;
    }
  }

  lemma OneParameter(x: string, n: string, values: Values)
    requires n in values && values[n] == x != []
    ensures Parameterised(x, [n], values) == Mark(n)
  {
    var one := [n];
    assert one[..0] == [];
    assert Parameterised(x, one[..|one| - 1], values) == x;
    ReplaceFirst(x, [], Mark(n));
    assert x + [] == x && Mark(n) + [] == Mark(n);
    assert Replace([], x, Mark(n)) == [];
  }

  lemma FirstMisses(t: string, n: string, values: Values)
    requires Clean(values) && n in values && Opens(t, n, values) && Broken(t[2..])
    ensures Opens(Rendered(t, [n], values), n, values)
  {
    PlainName(n, values);
    BrokenIsNoMark(t, n);
    hide Clean, OpenName, Broken, Mark, Replace;
    SwapOpens(t, n, Mark(n), values[n], n, values);
    var one := [n];
    assert one[..0] == [];
    assert Rendered(t, one[..|one| - 1], values) == t;
  }

  lemma OpensWithDollar(t: string, n: string, values: Values)
    requires Opens(t, n, values)
    ensures t != [] && t[0] == '$'
  {
    assert t[0] == t[..2][0];
  }

  // ------------------------------------------------------------ the exact condition

  ghost predicate AllReturn(there: seq<string>, values: Values)
    requires Known(there, values) && forall n | n in there :: values[n] != []
  {
    forall s, back | Unmarked(s, values) && Known(back, values) && Distinct(back) && Names(back) == values.Keys ::
      Returns(s, there, back, values)
  }

  lemma ContainsFirst(x: string, part: string)
    requires part != [] && Contains(x, part)
    ensures part[0] in x
  {
    var at :| 0 <= at <= |x| && StartsAt(x, at, part);
    assert x[at] == x[at..at + |part|][0];
  }

  lemma LiteralUnmarked(x: string, values: Values)
    requires '$' !in x
    ensures Unmarked(x, values)
  {
    forall n | n in values ensures !Contains(x, Mark(n)) {
      if Contains(x, Mark(n)) {
        ContainsFirst(x, Mark(n));
      }
    }
  }

  /** The other parameters, in their order. */
  lemma OthersOf(there: seq<string>, i: nat)
    requires Distinct(there) && i < |there|
    ensures var others := there[..i] + there[i + 1..];
      && there[i] !in others && Distinct([there[i]] + others) && Names([there[i]] + others) == Names(there)
  {
    var others := there[..i] + there[i + 1..];
    assert forall k | 0 <= k < |others| :: others[k] == there[if k < i then k else k + 1];
    assert there == there[..i] + [there[i]] + there[i + 1..];
  }

  lemma OutOfOrderLoses(there: seq<string>, values: Values, i: nat, j: nat)
    requires Clean(values) && Distinct(there) && Names(there) == values.Keys && Known(there, values)
    requires forall n | n in there :: values[n] != []
    requires i < j < |there| && Live(there, values, i) && Contains(there[i], values[there[j]])
    ensures !AllReturn(there, values)
  {
    PlainName(there[i], values);
    LiteralUnmarked(values[there[i]], values);
    hide Clean, Unmarked, Contains, Live, Returns, Distinct, Names;
    var others := there[..i] + there[i + 1..];
    OthersOf(there, i);
    assert forall n | n in others :: n in there;
    LiteralLost(there, values, i, j, others);
  }

  /** For parameters without placeholder characters: every text without placeholders of
      theirs comes back in every order of rendering, exactly when they are in order. */
  lemma AllReturnIff(there: seq<string>, values: Values)
    requires Clean(values) && Distinct(there) && Names(there) == values.Keys
    ensures Known(there, values) && forall n | n in there :: values[n] != []
    ensures AllReturn(there, values) <==> InOrder(there, values)
  {
    NonEmptyLiterals(values);
    assert forall n | n in there :: n in Names(there);
    if InOrder(there, values) {
      hide Clean, Unmarked, Contains, Live, Returns, InOrder;
      forall s, back | Unmarked(s, values) && Known(back, values) && Distinct(back) && Names(back) == values.Keys
        ensures Returns(s, there, back, values)
      {
        UnmarkedReturns(s, there, back, values);
      }
    } else {
      hide Clean, Unmarked, Contains, Live, Returns, AllReturn, Distinct, Names;
      var i: nat, j: nat :| i < j < |there| && Live(there, values, i) && Contains(there[i], values[there[j]]);
      OutOfOrderLoses(there, values, i, j);
    }
  }

  /** Of two parameters only the literal of the second and the name of the first matter. */
  lemma TwoReturnIff(n: string, m: string, values: Values)
    requires Clean(values) && n != m && values.Keys == {n, m}
    ensures Known([n, m], values) && values[n] != [] && values[m] != []
    ensures AllReturn([n, m], values) <==> !Contains(n, values[m])
  {
    hide Contains, Clean, AllReturn;
    var there := [n, m];
    assert Names(there) == {n, m};
    AllReturnIff(there, values);
    assert Live(there, values, 0);
    assert there[0] == n && there[1] == m;
  }
}
