/** What a comparison without breaking changes promises to callers of the old revision. */
module Evolution {
  import opened Wrappers
  import opened Json
  import opened Text
  import opened RuntimeModel
  import opened RuntimeSemantics
  import opened Scenario
  import opened Planner
  import opened Comparison

  /** The same states, handler names, requests and targets along two paths. */
  ghost predicate SameHops(a: Path, b: Path) {
    && |a| == |b|
    && forall i | 0 <= i < |a| :: a[i].state == b[i].state && Keeps(a[i].handler, b[i].handler)
  }

  /** Every walk of the old definition has a walk of the new one with the same hops. */
  ghost predicate WalksKept(before: Definition, after: Definition) {
    forall path: Path, target | Walk(before, path, target) :: HasCopy(after, path, target)
  }

  ghost predicate HasCopy(after: Definition, path: Path, target: string) {
    exists kept: Path :: Walk(after, kept, target) && SameHops(path, kept)
  }

  /** The part of the graph that can be walked is kept: the same start, and for every
      handler that moves, in every reachable state, one that asks and moves alike. */
  ghost predicate GraphKept(before: Definition, after: Definition) {
    && after.initialState == before.initialState
    && forall s, h | Reachable(before, s) && h in HandlersOf(before, s) && h.newState.Some? :: HasPartner(after, s, h)
  }

  ghost predicate HasPartner(after: Definition, s: string, h: Handler) {
    exists g | g in HandlersOf(after, s) :: Keeps(h, g)
  }

  lemma ExtendsKeepsGraph(before: Definition, after: Definition)
    requires Extends(before, after)
    ensures GraphKept(before, after)
  {
    hide Keeps, HandlersOf, StateNames;
    forall s, h | Reachable(before, s) && h in HandlersOf(before, s) && h.newState.Some?
      ensures HasPartner(after, s, h)
    {
      HandlerDeclares(before, s, h);
      assert HandlersKept(HandlersOf(before, s), HandlersOf(after, s));
    }
  }

  lemma SameHopsSnoc(a: Path, b: Path, state: string, h: Handler, g: Handler)
    requires a != [] && SameHops(a[..|a| - 1], b) && a[|a| - 1] == Hop(state, h) && Keeps(h, g)
    ensures SameHops(a, b + [Hop(state, g)])
  {
    hide Keeps;
    var front := a[..|a| - 1];
    assert forall i | 0 <= i < |front| :: a[i] == front[i];
  }

  lemma {:induction false} WalkPreserved(before: Definition, after: Definition, path: Path,
                                         target: string) returns (kept: Path)
    requires GraphKept(before, after) && Walk(before, path, target)
    ensures Walk(after, kept, target) && SameHops(path, kept)
    decreases |path|
  {
    hide Keeps, HandlersOf, SameHops;
    if path == [] {
      NoHops();
      kept := [];
    } else {
      var last := path[|path| - 1];
      var front := WalkPreserved(before, after, path[..|path| - 1], last.state);
      assert Reachable(before, last.state) && HasPartner(after, last.state, last.handler);
      var g :| g in HandlersOf(after, last.state) && Keeps(last.handler, g);
      KeepsTarget(last.handler, g);
      WalkSnoc(after, front, g, last.state, target);
      SameHopsSnoc(path, front, last.state, last.handler, g);
      kept := front + [Hop(last.state, g)];
    }
  }

  lemma NoHops()
    ensures SameHops([], [])
  {
  }

  lemma KeepsTarget(h: Handler, g: Handler)
    requires Keeps(h, g)
    ensures g.newState == h.newState
  {
  }

  /** The last hop of a copied walk is a partner of the last hop copied. */
  lemma CopyEndsInPartner(before: Definition, after: Definition, walk: Path, s: string, h: Handler, kept: Path,
                          target: string)
    requires SameHops(walk + [Hop(s, h)], kept) && Walk(after, kept, target)
    ensures HasPartner(after, s, h)
  {
    hide Keeps, HandlersOf;
    var n := |walk|;
    assert (walk + [Hop(s, h)])[n] == Hop(s, h);
    assert kept[n].state == s && Keeps(h, kept[n].handler) && kept[n].handler in HandlersOf(after, s);
  }

  /** All walks are kept exactly when the graph that can be walked is. */
  lemma WalksKeptIff(before: Definition, after: Definition)
    ensures WalksKept(before, after) <==> GraphKept(before, after)
  {
    hide Keeps, HandlersOf, SameHops;
    if WalksKept(before, after) {
      assert Walk(before, [], before.initialState);
      assert HasCopy(after, [], before.initialState);
      var start: Path :| Walk(after, start, before.initialState) && SameHops([], start);
      SameHopsLength([], start);
      forall s, h | Reachable(before, s) && h in HandlersOf(before, s) && h.newState.Some?
        ensures HasPartner(after, s, h)
      {
        var walk: Path :| Walk(before, walk, s);
        WalkSnoc(before, walk, h, s, h.newState.value);
        assert HasCopy(after, walk + [Hop(s, h)], h.newState.value);
        var kept: Path :| Walk(after, kept, h.newState.value) && SameHops(walk + [Hop(s, h)], kept);
        CopyEndsInPartner(before, after, walk, s, h, kept, h.newState.value);
      }
    }
    if GraphKept(before, after) {
      forall path: Path, target | Walk(before, path, target) ensures HasCopy(after, path, target) {
        var kept := WalkPreserved(before, after, path, target);
      }
    }
  }

  lemma SameHopsLength(a: Path, b: Path)
    requires SameHops(a, b)
    ensures |a| == |b|
  {
  }

  lemma HandlerDeclares(d: Definition, state: string, h: Handler)
    requires h in HandlersOf(d, state)
    ensures state in StateNames(d)
  {
  }

  lemma KeepsTransitive(f: Handler, g: Handler, h: Handler)
    requires Keeps(f, g) && Keeps(g, h)
    ensures Keeps(f, h)
  {
  }

  lemma ExtendsTransitive(a: Definition, b: Definition, c: Definition)
    requires Extends(a, b) && Extends(b, c)
    ensures Extends(a, c)
  {
    hide HandlersOf, StateNames, Keeps;
    forall s | s in StateNames(a) ensures HandlersKept(HandlersOf(a, s), HandlersOf(c, s)) {
      assert HandlersKept(HandlersOf(a, s), HandlersOf(b, s)) && HandlersKept(HandlersOf(b, s), HandlersOf(c, s));
      forall f | f in HandlersOf(a, s) ensures exists h | h in HandlersOf(c, s) :: Keeps(f, h) {
        var g :| g in HandlersOf(b, s) && Keeps(f, g);
        var h :| h in HandlersOf(c, s) && Keeps(g, h);
        KeepsTransitive(f, g, h);
      }
    }
  }

  lemma ExtendsReflexive(d: Definition)
    ensures Extends(d, d)
  {
    forall s, h | s in StateNames(d) && h in HandlersOf(d, s) ensures exists g | g in HandlersOf(d, s) :: Keeps(h, g) {
      assert Keeps(h, h);
    }
  }

  /** No step of a revision history reports a breaking change. */
  ghost predicate NonBreakingChain(history: seq<Definition>) {
    && (forall i | 0 <= i < |history| :: WellFormed(history[i]))
    && forall i | 0 < i < |history| :: BreakingCount(Changes(history[i - 1], history[i])) == 0
  }

  lemma {:induction false} ChainExtends(history: seq<Definition>, first: nat, last: nat)
    requires NonBreakingChain(history) && first <= last < |history|
    ensures Extends(history[first], history[last])
    decreases last
  {
    hide Extends, WellFormed, Changes, BreakingCount;
    if first == last {
      ExtendsReflexive(history[first]);
    } else {
      ChainExtends(history, first, last - 1);
      NonBreakingIff(history[last - 1], history[last]);
      ExtendsTransitive(history[first], history[last - 1], history[last]);
    }
  }

  /** Along a history of non-breaking revisions every walk stays a walk, so what was
      reachable stays reachable, at no greater distance. */
  lemma HistoryPreservesWalks(history: seq<Definition>, first: nat, last: nat, path: Path, target: string)
    requires NonBreakingChain(history) && first <= last < |history|
    requires Shortest(history[first], path, target)
    ensures exists kept: Path :: Walk(history[last], kept, target) && SameHops(path, kept)
    ensures forall best: Path | Shortest(history[last], best, target) :: |best| <= |path|
  {
    ChainExtends(history, first, last);
    ExtendsKeepsGraph(history[first], history[last]);
    var kept := WalkPreserved(history[first], history[last], path, target);
  }

  /** The comparison does not even report a breaking change between two revisions taken
      further apart. */
  lemma ChainComparesNonBreaking(history: seq<Definition>, first: nat, last: nat)
    requires NonBreakingChain(history) && first <= last < |history|
    ensures BreakingCount(Changes(history[first], history[last])) == 0
  {
    ChainExtends(history, first, last);
    NonBreakingIff(history[first], history[last]);
  }

  // ---------------------------------------------------------------- two examples

  /** A state that tells `/x` with any body apart from `/x` with one body, or does not. */
  function Shadowed(catchAllFirst: bool): Definition {
    var url := Url("/x", map[]);
    var reply := HandlerResponse(200, map[], Null, 0, None);
    var exact := Handler("exact", HandlerRequest("POST", "/x", url, map[], [], Number(1)), reply, Some("done"));
    var catchAll := Handler("other", HandlerRequest("POST", "/x", url, map[], [], Null), reply, Some("start"));
    var handlers := if catchAllFirst then [catchAll, exact] else [exact];
    Definition(
      "shadow", "shadow", "start",
      [State("start", handlers, None, []), State("done", [catchAll], None, [])],
      None)
  }

  lemma ShadowedWellFormed(first: bool)
    ensures WellFormed(Shadowed(first))
  {
    var d := Shadowed(first);
    assert HandlerTotal(d.states) <= 200 by {
      assert HandlerTotal(d.states[..1]) == HandlerTotal(d.states[..1][..0]) + |d.states[0].handlers|;
    }
    assert StateNames(d) == {"start", "done"} by {
      assert d.states[0].name == "start" && d.states[1].name == "done";
    }
    assert StateWellFormed(d.states[0], StateNames(d)) && StateWellFormed(d.states[1], StateNames(d));
  }

  lemma ShadowedExtends()
    ensures Extends(Shadowed(false), Shadowed(true))
  {
    var before, after := Shadowed(false), Shadowed(true);
    assert Keeps(before.states[0].handlers[0], after.states[0].handlers[1]);
    assert Keeps(before.states[1].handlers[0], after.states[1].handlers[0]);
    assert StateNames(before) == {"start", "done"} by {
      assert before.states[0].name == "start" && before.states[1].name == "done";
    }
    assert StateNames(after) == {"start", "done"} by {
      assert after.states[0].name == "start" && after.states[1].name == "done";
    }
  }

  /** One state that leads to another, or one that only stays. */
  function Shrinking(moves: bool, description: string): Definition {
    var request := HandlerRequest("POST", "/x", Url("/x", map[]), map[], [], Null);
    var reply := HandlerResponse(200, map[], Null, 0, None);
    var go := Handler("go", request, reply, if moves then Some("done") else None);
    var stay := Handler("stay", request, reply, None);
    Definition("shrink", description, "start", [State("start", [go], None, []), State("done", [stay], None, [])], None)
  }

  lemma ShrinkingHandlers(moves: bool, description: string)
    ensures var d := Shrinking(moves, description);
      && WellFormed(d) && StateNames(d) == {"start", "done"}
      && HandlersOf(d, "start") == d.states[0].handlers && HandlersOf(d, "done") == d.states[1].handlers
  {
    var d := Shrinking(moves, description);
    assert d.states[..1] == [d.states[0]];
    assert HandlerTotal(d.states) <= 200 by {
      assert HandlerTotal(d.states[..1]) == HandlerTotal(d.states[..1][..0]) + |d.states[0].handlers|;
    }
    assert StateNames(d) == {"start", "done"} by {
      assert d.states[0].name == "start" && d.states[1].name == "done";
    }
    assert StateWellFormed(d.states[0], StateNames(d)) && StateWellFormed(d.states[1], StateNames(d));
  }

  lemma {:induction false} ShrunkStays(description: string, path: Path, target: string)
    requires Walk(Shrinking(false, description), path, target)
    ensures target == "start"
  {
    if path != [] {
      ShrinkingHandlers(false, description);
      var last := path[|path| - 1];
      HandlerDeclares(Shrinking(false, description), last.state, last.handler);
    }
  }

  lemma ShrinkingBreaks()
    ensures !Extends(Shrinking(true, "a"), Shrinking(false, "a"))
  {
    hide Asked;
    ShrinkingHandlers(true, "a");
    ShrinkingHandlers(false, "a");
    var go := Shrinking(true, "a").states[0].handlers[0];
    assert forall g | g in Shrinking(false, "a").states[0].handlers :: !Keeps(go, g);
    assert go in HandlersOf(Shrinking(true, "a"), "start");
    assert !HandlersKept(HandlersOf(Shrinking(true, "a"), "start"), HandlersOf(Shrinking(false, "a"), "start"));
  }

  lemma RenamedExtends(d: Definition, description: string)
    ensures Extends(d, d.(description := description))
  {
    ExtendsReflexive(d);
    assert StateNames(d.(description := description)) == StateNames(d);
  }

  lemma DoneReachable()
    ensures Reachable(Shrinking(true, "a"), "done") && !Reachable(Shrinking(false, "b"), "done")
  {
    ShrinkingHandlers(true, "a");
    WalkSnoc(Shrinking(true, "a"), [], Shrinking(true, "a").states[0].handlers[0], "start", "done");
    hide Shrinking;
    if Reachable(Shrinking(false, "b"), "done") {
      var path: Path :| Walk(Shrinking(false, "b"), path, "done");
      ShrunkStays("b", path, "done");
      assert false;
    }
  }

  /** Comparing each revision with the one before it says nothing across a breaking one:
      the last of three compares clean, and a state the first could reach is lost. */
  lemma SkippedRevisionBreaks()
    ensures var first, second, third := Shrinking(true, "a"), Shrinking(false, "a"), Shrinking(false, "b");
      && WellFormed(first) && WellFormed(second) && WellFormed(third)
      && BreakingCount(Changes(first, second)) > 0 && BreakingCount(Changes(second, third)) == 0
      && Reachable(first, "done") && !Reachable(third, "done")
  {
    ShrinkingHandlers(true, "a");
    ShrinkingHandlers(false, "a");
    ShrinkingHandlers(false, "b");
    RenamedExtends(Shrinking(false, "a"), "b");
    ShrinkingBreaks();
    DoneReachable();
    assert Shrinking(false, "b") == Shrinking(false, "a").(description := "b");
    hide Shrinking, WellFormed, Extends, Reachable, Changes, BreakingCount;
    NonBreakingIff(Shrinking(false, "a"), Shrinking(false, "b"));
    NonBreakingIff(Shrinking(true, "a"), Shrinking(false, "a"));
  }
}
