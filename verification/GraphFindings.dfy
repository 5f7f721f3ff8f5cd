/** What the graph diagnostics list: every finding once, state by state in the order of
    the definition. */
module GraphFindings {
  import opened Wrappers
  import opened Scenario
  import opened Planner
  import opened Diagnostics

  /** The state, and within it first its reachability, then its exits, then its handlers. */
  datatype Place = Place(state: nat, rank: nat)

  /** The diagnostic belongs at this place. */
  ghost predicate Finding(states: seq<State>, reachable: set<string>, at: Place, x: Diagnostic) {
    at.state < |states| && FindingIn(states[at.state], reachable, at.rank, x)
  }

  ghost predicate FindingIn(s: State, reachable: set<string>, k: nat, x: Diagnostic) {
    match x
    case UnreachableState(name) => k == 0 && name == s.name && name !in reachable
    case TerminalState(name) => k == 1 && name == s.name && forall h | h in s.handlers :: h.newState == None
    case SelfTransition(name, handler) =>
      && 2 <= k < |s.handlers| + 2
      && name == s.name && handler == s.handlers[k - 2].name && s.handlers[k - 2].newState == Some(s.name)
  }

  predicate Earlier(p: Place, q: Place) { p.state < q.state || (p.state == q.state && p.rank < q.rank) }

  /** The findings at these places, in order, and there are no others. */
  ghost predicate Lists(states: seq<State>, reachable: set<string>, found: seq<Diagnostic>, places: seq<Place>) {
    && |places| == |found|
    && (forall a | 0 <= a < |found| :: Finding(states, reachable, places[a], found[a]))
    && (forall a, b | 0 <= a < b < |places| :: Earlier(places[a], places[b]))
    && (forall p, x | Finding(states, reachable, p, x) :: p in places)
  }

  // -------------------------------------------------------------------- one state

  /** The same for the first n handlers of one state. */
  ghost predicate ListsLoops(s: State, n: nat, found: seq<Diagnostic>, places: seq<nat>)
    requires n <= |s.handlers|
  {
    && |places| == |found|
    && (forall a | 0 <= a < |found| :: 2 <= places[a] < n + 2 && FindingIn(s, {}, places[a], found[a]))
    && (forall a, b | 0 <= a < b < |places| :: places[a] < places[b])
    && (forall j | 0 <= j < n && s.handlers[j].newState == Some(s.name) :: j + 2 in places)
  }

  lemma {:induction false} LoopsListed(s: State, n: nat) returns (places: seq<nat>)
    requires n <= |s.handlers|
    ensures ListsLoops(s, n, SelfTransitions(s.name, s.handlers[..n]), places)
    decreases n
  {
    if n == 0 {
      places := [];
    } else {
      places := LoopsListed(s, n - 1);
      assert s.handlers[..n][..n - 1] == s.handlers[..n - 1];
      if s.handlers[n - 1].newState == Some(s.name) {
        places := places + [n + 1];
      }
    }
  }

  ghost predicate ListsState(s: State, reachable: set<string>, found: seq<Diagnostic>, places: seq<nat>) {
    && |places| == |found|
    && (forall a | 0 <= a < |found| :: FindingIn(s, reachable, places[a], found[a]))
    && (forall a, b | 0 <= a < b < |places| :: places[a] < places[b])
    && (forall k: nat, x | FindingIn(s, reachable, k, x) :: k in places)
  }

  /** Places that hold everything found up to a rank, none beyond it. */
  ghost predicate ListsBelow(s: State, reachable: set<string>, n: nat, found: seq<Diagnostic>, places: seq<nat>) {
    && |places| == |found|
    && (forall a | 0 <= a < |found| :: places[a] < n && FindingIn(s, reachable, places[a], found[a]))
    && (forall a, b | 0 <= a < b < |places| :: places[a] < places[b])
    && (forall k: nat, x | k < n && FindingIn(s, reachable, k, x) :: k in places)
  }

  lemma HeadListed(s: State, reachable: set<string>) returns (places: seq<nat>)
    ensures ListsBelow(s, reachable, 2,
      (if s.name in reachable then [] else [UnreachableState(s.name)])
      + (if Terminal(s.handlers) then [TerminalState(s.name)] else []), places)
  {
    places := (if s.name in reachable then [] else [0]) + (if Terminal(s.handlers) then [1] else []);
  }

  /** Places from two on for the loops, behind those below. */
  lemma Joined(s: State, reachable: set<string>, found: seq<Diagnostic>, more: seq<Diagnostic>, head: seq<nat>,
               loops: seq<nat>)
    requires ListsBelow(s, reachable, 2, found, head) && ListsLoops(s, |s.handlers|, more, loops)
    ensures ListsState(s, reachable, found + more, head + loops)
  {
    hide FindingIn;
    var places, list := head + loops, found + more;
    forall a | 0 <= a < |list| ensures FindingIn(s, reachable, places[a], list[a]) {
      if a < |found| {
        assert FindingIn(s, reachable, head[a], found[a]);
      } else {
        LoopFinding(s, reachable, loops[a - |found|], more[a - |found|]);
      }
    }
    forall k: nat, x | FindingIn(s, reachable, k, x) ensures k in places {
      if k < 2 {
        assert k in head;
      } else {
        LoopPlace(s, reachable, more, loops, k, x);
      }
    }
  }

  lemma LoopPlace(s: State, reachable: set<string>, more: seq<Diagnostic>, loops: seq<nat>, k: nat, x: Diagnostic)
    requires ListsLoops(s, |s.handlers|, more, loops)
    requires k >= 2 && FindingIn(s, reachable, k, x)
    ensures k in loops
  {
    assert k - 2 + 2 in loops;
  }

  /** Loops do not depend on what can be reached. */
  lemma LoopFinding(s: State, reachable: set<string>, k: nat, x: Diagnostic)
    requires k >= 2 && FindingIn(s, {}, k, x)
    ensures FindingIn(s, reachable, k, x)
  {
  }

  lemma StateListed(s: State, reachable: set<string>) returns (places: seq<nat>)
    ensures ListsState(s, reachable, StateDiagnostics(s, reachable), places)
  {
    hide SelfTransitions, Terminal, ListsBelow, ListsLoops, ListsState;
    var head := HeadListed(s, reachable);
    var loops := LoopsListed(s, |s.handlers|);
    assert s.handlers[..|s.handlers|] == s.handlers;
    var below := (if s.name in reachable then [] else [UnreachableState(s.name)])
      + (if Terminal(s.handlers) then [TerminalState(s.name)] else []);
    Joined(s, reachable, below, SelfTransitions(s.name, s.handlers), head, loops);
    places := head + loops;
  }

  // ------------------------------------------------------------------- all states

  function Behind(n: nat, here: seq<nat>): (places: seq<Place>)
    ensures |places| == |here|
  {
    seq(|here|, a requires 0 <= a < |here| => Place(n, here[a]))
  }

  lemma OneMoreState(states: seq<State>, last: State, reachable: set<string>, found: seq<Diagnostic>,
                     front: seq<Place>, more: seq<Diagnostic>, here: seq<nat>)
    requires Lists(states, reachable, found, front) && ListsState(last, reachable, more, here)
    ensures Lists(states + [last], reachable, found + more, front + Behind(|states|, here))
  {
    hide FindingIn;
    var n, all := |states|, states + [last];
    var places, list := front + Behind(n, here), found + more;
    assert all[n] == last;
    forall a | 0 <= a < |list| ensures Finding(all, reachable, places[a], list[a]) {
      if a < |found| {
        assert Finding(states, reachable, front[a], found[a]);
      }
    }
    forall p, x | Finding(all, reachable, p, x) ensures p in places {
      if p.state < n {
        assert Finding(states, reachable, p, x);
      } else {
        var a :| 0 <= a < |here| && here[a] == p.rank;
        assert places[|front| + a] == p;
      }
    }
    forall a, b | 0 <= a < b < |places| ensures Earlier(places[a], places[b]) {
      if a < |front| {
        assert Finding(states, reachable, front[a], found[a]);
      }
    }
  }

  lemma NothingListed(reachable: set<string>)
    ensures Lists([], reachable, [], [])
  {
  }

  /** The diagnostics of a definition are its findings, in order, each once. */
  lemma {:induction false} FindingsListed(states: seq<State>, reachable: set<string>) returns (places: seq<Place>)
    ensures Lists(states, reachable, AllDiagnostics(states, reachable), places)
    decreases |states|
  {
    hide Lists, ListsState, StateDiagnostics;
    if states == [] {
      places := [];
      NothingListed(reachable);
    } else {
      var n := |states| - 1;
      var front := FindingsListed(states[..n], reachable);
      var here := StateListed(states[n], reachable);
      OneMoreState(states[..n], states[n], reachable, AllDiagnostics(states[..n], reachable), front,
        StateDiagnostics(states[n], reachable), here);
      assert states[..n] + [states[n]] == states;
      places := front + Behind(n, here);
    }
  }

  lemma {:induction false} OrderedOnce(a: seq<Place>, b: seq<Place>)
    requires forall i, j | 0 <= i < j < |a| :: Earlier(a[i], a[j])
    requires forall i, j | 0 <= i < j < |b| :: Earlier(b[i], b[j])
    requires forall p :: p in a <==> p in b
    ensures a == b
    decreases |a|
  {
    if |a| > 0 {
      assert a[0] in b;
    }
    if |b| > 0 {
      assert b[0] in a;
    }
    if a != [] {
      var front, before := a[..|a| - 1], b[..|b| - 1];
      var p, q := a[|a| - 1], b[|b| - 1];
      assert p in b && q in a;
      assert p == q;
      forall x ensures x in front <==> x in before {
        assert x in a <==> x in front || x == p;
        assert x in b <==> x in before || x == q;
      }
      OrderedOnce(front, before);
      assert a == front + [p] && b == before + [q];
    }
  }

  /** A list is that of the diagnostics exactly when it names every finding once, in order. */
  lemma FindingsIff(states: seq<State>, reachable: set<string>, found: seq<Diagnostic>)
    ensures found == AllDiagnostics(states, reachable) <==> exists places :: Lists(states, reachable, found, places)
  {
    hide AllDiagnostics;
    var all := AllDiagnostics(states, reachable);
    var theirs := FindingsListed(states, reachable);
    if places :| Lists(states, reachable, found, places) {
      forall p ensures p in places <==> p in theirs {
        if p in places {
          var a :| 0 <= a < |places| && places[a] == p;
          assert Finding(states, reachable, p, found[a]);
        }
        if p in theirs {
          var a :| 0 <= a < |theirs| && theirs[a] == p;
          assert Finding(states, reachable, p, all[a]);
        }
      }
      OrderedOnce(places, theirs);
      assert found == all;
    }
  }
}
