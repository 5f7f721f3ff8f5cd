/** The search of the scenario validation planner: shortest handler paths to every state
    that can be reached. */
module Planner {
  import opened Wrappers
  import opened Scenario

  /** One step of a replay: the state it starts in and the handler it triggers. */
  datatype Hop = Hop(state: string, handler: Handler)

  type Path = seq<Hop>

  // ------------------------------------------------------------ walks of a definition

  /** A sequence of handlers leading from the initial state to `target`. */
  predicate Walk(d: Definition, path: Path, target: string) {
    if path == [] then target == d.initialState else
      var last := path[|path| - 1];
      && last.handler in HandlersOf(d, last.state)
      && last.handler.newState == Some(target)
      && Walk(d, path[..|path| - 1], last.state)
  }

  ghost predicate Reachable(d: Definition, state: string) {
    exists path: Path :: Walk(d, path, state)
  }

  ghost predicate Shortest(d: Definition, path: Path, target: string) {
    && Walk(d, path, target)
    && forall other: Path | Walk(d, other, target) :: |path| <= |other|
  }

  lemma WalkSnoc(d: Definition, path: Path, h: Handler, from: string, to: string)
    requires Walk(d, path, from) && h in HandlersOf(d, from) && h.newState == Some(to)
    ensures Walk(d, path + [Hop(from, h)], to)
  {
    assert (path + [Hop(from, h)])[..|path|] == path;
  }

  lemma {:induction false} WalkTargetsDeclared(d: Definition, path: Path, target: string)
    requires WellFormed(d) && Walk(d, path, target)
    ensures target in StateNames(d)
    decreases |path|
  {
    if path != [] {
      WalkTargetsDeclared(d, path[..|path| - 1], path[|path| - 1].state);
      HandlerTargets(d, path[|path| - 1].state, path[|path| - 1].handler);
    }
  }

  lemma HandlerTargets(d: Definition, state: string, h: Handler)
    requires WellFormed(d) && h in HandlersOf(d, state)
    ensures h.newState.Some? ==> h.newState.value in StateNames(d)
  {
    var k := StateIndex(d.states, state).value;
    assert StateWellFormed(d.states[k], StateNames(d));
  }

  // ------------------------------------------------------- breadth-first invariants

  /** Every handler of a state leads to a discovered state at most one hop further. */
  ghost predicate Expanded(d: Definition, paths: map<string, Path>, state: string)
    requires state in paths
  {
    ExpandedUpTo(d, paths, state, |HandlersOf(d, state)|)
  }

  ghost predicate ExpandedUpTo(d: Definition, paths: map<string, Path>, state: string, n: nat)
    requires state in paths && n <= |HandlersOf(d, state)|
  {
    forall i | 0 <= i < n :: Followed(paths, HandlersOf(d, state)[i].newState, |paths[state]|)
  }

  ghost predicate Followed(paths: map<string, Path>, target: Option<string>, distance: nat) {
    target.Some? ==> target.value in paths && |paths[target.value]| <= distance + 1
  }

  /** The discovered paths are shortest walks to declared states. */
  ghost predicate Sound(d: Definition, paths: map<string, Path>) {
    && d.initialState in paths
    && paths.Keys <= StateNames(d)
    && forall s | s in paths :: Shortest(d, paths[s], s)
  }

  /** A queue of discovered states, nearest first, spanning at most two distances. */
  ghost predicate Queue(paths: map<string, Path>, queue: seq<string>) {
    && (forall i | 0 <= i < |queue| :: queue[i] in paths)
    && (forall i, j | 0 <= i < j < |queue| ::
          |paths[queue[i]]| <= |paths[queue[j]]| <= |paths[queue[0]]| + 1)
  }

  /** Everything discovered outside the queue is expanded. */
  ghost predicate Settled(d: Definition, paths: map<string, Path>, queue: seq<string>) {
    forall s | s in paths && s !in queue :: Expanded(d, paths, s)
  }

  /** Every walk no longer than the current level ends in a discovered state. */
  lemma {:induction false} ShortWalksDiscovered(d: Definition, paths: map<string, Path>, level: nat, walk: Path,
                                                target: string)
    requires Sound(d, paths)
    requires forall s | s in paths && |paths[s]| < level :: Expanded(d, paths, s)
    requires Walk(d, walk, target) && |walk| <= level
    ensures target in paths
    decreases |walk|
  {
    if walk != [] {
      var front, last := walk[..|walk| - 1], walk[|walk| - 1];
      ShortWalksDiscovered(d, paths, level, front, last.state);
      assert Shortest(d, paths[last.state], last.state);
      assert Expanded(d, paths, last.state);
      var i :| 0 <= i < |HandlersOf(d, last.state)| && HandlersOf(d, last.state)[i] == last.handler;
      assert Followed(paths, HandlersOf(d, last.state)[i].newState, |paths[last.state]|);
    }
  }

  /** A newly found state gets a shortest path. */
  lemma NewPathShortest(d: Definition, paths: map<string, Path>, from: string, h: Handler, to: string)
    requires Sound(d, paths) && from in paths && to !in paths
    requires forall s | s in paths && |paths[s]| < |paths[from]| :: Expanded(d, paths, s)
    requires h in HandlersOf(d, from) && h.newState == Some(to)
    ensures Shortest(d, paths[from] + [Hop(from, h)], to)
  {
    assert Shortest(d, paths[from], from);
    WalkSnoc(d, paths[from], h, from, to);
    forall other: Path | Walk(d, other, to) ensures |paths[from]| + 1 <= |other| {
      if |other| <= |paths[from]| {
        ShortWalksDiscovered(d, paths, |paths[from]|, other, to);
      }
    }
  }

  lemma {:induction false} AllDiscovered(d: Definition, paths: map<string, Path>, walk: Path, target: string)
    requires Sound(d, paths) && forall s | s in paths :: Expanded(d, paths, s)
    requires Walk(d, walk, target)
    ensures target in paths
  {
    ShortWalksDiscovered(d, paths, |walk|, walk, target);
  }

  lemma DiscoveryKeepsExpanded(d: Definition, paths: map<string, Path>, to: string, path: Path, s: string, n: nat)
    requires to !in paths && s in paths && n <= |HandlersOf(d, s)| && ExpandedUpTo(d, paths, s, n)
    ensures ExpandedUpTo(d, paths[to := path], s, n)
  {
    var more := paths[to := path];
    forall i | 0 <= i < n ensures Followed(more, HandlersOf(d, s)[i].newState, |more[s]|) {
      assert Followed(paths, HandlersOf(d, s)[i].newState, |paths[s]|);
    }
  }

  /** Everything nearer than the head of the queue has left the queue. */
  lemma NearerExpanded(d: Definition, paths: map<string, Path>, queue: seq<string>, s: string)
    requires queue != [] && Queue(paths, queue) && Settled(d, paths, queue)
    requires s in paths && |paths[s]| < |paths[queue[0]]|
    ensures Expanded(d, paths, s)
  {
    hide Expanded;
    HeadNearest(paths, queue);
  }

  lemma HeadNearest(paths: map<string, Path>, queue: seq<string>)
    requires queue != [] && Queue(paths, queue)
    ensures forall s | s in queue :: s in paths && |paths[queue[0]]| <= |paths[s]|
  {
    forall s | s in queue ensures |paths[queue[0]]| <= |paths[s]| {
      var j :| 0 <= j < |queue| && queue[j] == s;
      assert j == 0 || |paths[queue[0]]| <= |paths[queue[j]]|;
    }
  }

  lemma DiscoverySettles(d: Definition, paths: map<string, Path>, queue: seq<string>, to: string, path: Path)
    requires Settled(d, paths, queue) && to !in paths
    ensures Settled(d, paths[to := path], queue + [to])
  {
    var more := paths[to := path];
    forall s | s in more && s !in queue + [to] ensures Expanded(d, more, s) {
      assert s !in queue && Expanded(d, paths, s);
      DiscoveryKeepsExpanded(d, paths, to, path, s, |HandlersOf(d, s)|);
    }
  }

  lemma DiscoverySound(d: Definition, paths: map<string, Path>, to: string, path: Path)
    requires Sound(d, paths) && to !in paths && Shortest(d, path, to) && to in StateNames(d)
    ensures Sound(d, paths[to := path])
  {
    hide Shortest;
  }

  lemma OneMoreFollowed(d: Definition, paths: map<string, Path>, state: string, n: nat)
    requires state in paths && n < |HandlersOf(d, state)| && ExpandedUpTo(d, paths, state, n)
    requires Followed(paths, HandlersOf(d, state)[n].newState, |paths[state]|)
    ensures ExpandedUpTo(d, paths, state, n + 1)
  {
    hide Followed;
  }

  /** Discovering one state through a handler of the dequeued one. */
  lemma Discovery(d: Definition, paths: map<string, Path>, state: string, pending: seq<string>, n: nat, to: string)
    requires WellFormed(d) && Sound(d, paths) && Queue(paths, [state] + pending) && Settled(d, paths, [state] + pending)
    requires state in paths && n < |HandlersOf(d, state)| && ExpandedUpTo(d, paths, state, n)
    requires to !in paths && HandlersOf(d, state)[n].newState == Some(to)
    ensures var more := paths[to := paths[state] + [Hop(state, HandlersOf(d, state)[n])]];
      && Sound(d, more) && Queue(more, [state] + pending + [to]) && Settled(d, more, [state] + pending + [to])
      && ExpandedUpTo(d, more, state, n + 1)
      && more.Keys == paths.Keys + {to} && to in StateNames(d)
  {
    hide Queue, Settled, Sound, Expanded, ExpandedUpTo, Shortest, HandlersOf, WellFormed;
    var h := HandlersOf(d, state)[n];
    var path := paths[state] + [Hop(state, h)];
    var more := paths[to := path];
    assert ([state] + pending)[0] == state;
    forall s | s in paths && |paths[s]| < |paths[state]| ensures Expanded(d, paths, s) {
      NearerExpanded(d, paths, [state] + pending, s);
    }
    NewPathShortest(d, paths, state, h, to);
    HandlerTargets(d, state, h);
    DiscoverySound(d, paths, to, path);
    DiscoveryKeepsExpanded(d, paths, to, path, state, n);
    OneMoreFollowed(d, more, state, n);
    DiscoveryQueues(paths, [state] + pending, to, path);
    DiscoverySettles(d, paths, [state] + pending, to, path);
  }

  lemma DiscoveryQueues(paths: map<string, Path>, queue: seq<string>, to: string, path: Path)
    requires queue != [] && Queue(paths, queue) && to !in paths && |path| == |paths[queue[0]]| + 1
    ensures Queue(paths[to := path], queue + [to])
  {
    assert forall i | 0 <= i < |queue| :: |paths[queue[0]]| <= |paths[queue[i]]| <= |paths[queue[0]]| + 1;
  }

  /** The states not discovered yet, and those still queued. */
  ghost function Remaining(d: Definition, paths: map<string, Path>, pending: seq<string>): nat {
    |StateNames(d) - paths.Keys| + |pending|
  }

  /** Follows the handlers of one dequeued state. */
  method Expand(d: Definition, paths: map<string, Path>, pending: seq<string>, state: string)
    returns (morePaths: map<string, Path>, morePending: seq<string>)
    requires WellFormed(d) && Sound(d, paths) && Queue(paths, [state] + pending) && Settled(d, paths, [state] + pending)
    ensures Sound(d, morePaths) && Queue(morePaths, morePending) && Settled(d, morePaths, morePending)
    ensures Remaining(d, morePaths, morePending) == Remaining(d, paths, pending)
  {
    hide Sound, Queue, Settled, ExpandedUpTo, HandlersOf, WellFormed, Followed;
    morePaths, morePending := paths, pending;
    var handlers := HandlersOf(d, state);
    HeadDiscovered(paths, state, pending);
    NothingFollowed(d, paths, state);
    for n := 0 to |handlers|
      invariant Sound(d, morePaths) && state in morePaths
      invariant Queue(morePaths, [state] + morePending) && Settled(d, morePaths, [state] + morePending)
      invariant ExpandedUpTo(d, morePaths, state, n)
      invariant Remaining(d, morePaths, morePending) == Remaining(d, paths, pending)
    {
      var target := handlers[n].newState;
      if target.Some? && target.value !in morePaths {
        Discovery(d, morePaths, state, morePending, n, target.value);
        assert [state] + morePending + [target.value] == [state] + (morePending + [target.value]);
        ghost var before := morePaths;
        morePaths := morePaths[target.value := morePaths[state] + [Hop(state, handlers[n])]];
        morePending := morePending + [target.value];
        assert StateNames(d) - before.Keys == (StateNames(d) - morePaths.Keys) + {target.value};
      } else {
        AlreadyFollowed(d, morePaths, state, morePending, n);
      }
    }
    HeadSettles(d, morePaths, state, morePending);
  }

  lemma HeadDiscovered(paths: map<string, Path>, state: string, pending: seq<string>)
    requires Queue(paths, [state] + pending)
    ensures state in paths
  {
    assert ([state] + pending)[0] == state;
  }

  lemma NothingFollowed(d: Definition, paths: map<string, Path>, state: string)
    requires state in paths
    ensures ExpandedUpTo(d, paths, state, 0)
  {
  }

  /** A handler without a target, or back to a discovered state, adds nothing: the
      target is no further than one hop beyond the nearest queued state. */
  lemma AlreadyFollowed(d: Definition, paths: map<string, Path>, state: string, pending: seq<string>, n: nat)
    requires WellFormed(d) && Sound(d, paths) && Queue(paths, [state] + pending)
    requires state in paths && n < |HandlersOf(d, state)| && ExpandedUpTo(d, paths, state, n)
    requires HandlersOf(d, state)[n].newState.Some? ==> HandlersOf(d, state)[n].newState.value in paths
    ensures ExpandedUpTo(d, paths, state, n + 1)
  {
    hide Sound, Queue, WellFormed, HandlersOf, Followed;
    KnownFollowed(d, paths, state, HandlersOf(d, state)[n]);
    OneMoreFollowed(d, paths, state, n);
  }

  /** A discovered target is at most one hop further. */
  lemma KnownFollowed(d: Definition, paths: map<string, Path>, state: string, h: Handler)
    requires Sound(d, paths) && state in paths && h in HandlersOf(d, state)
    requires h.newState.Some? ==> h.newState.value in paths
    ensures Followed(paths, h.newState, |paths[state]|)
  {
    hide HandlersOf;
    if h.newState.Some? {
      assert Shortest(d, paths[state], state) && Shortest(d, paths[h.newState.value], h.newState.value);
      WalkSnoc(d, paths[state], h, state, h.newState.value);
      assert |paths[h.newState.value]| <= |paths[state] + [Hop(state, h)]|;
    }
  }

  lemma HeadSettles(d: Definition, paths: map<string, Path>, state: string, pending: seq<string>)
    requires state in paths && Queue(paths, [state] + pending) && Settled(d, paths, [state] + pending)
    requires ExpandedUpTo(d, paths, state, |HandlersOf(d, state)|)
    ensures Queue(paths, pending) && Settled(d, paths, pending)
  {
    var queue := [state] + pending;
    QueueTail(paths, queue);
    assert queue[1..] == pending;
    assert Expanded(d, paths, state);
    hide Queue, Expanded;
    assert forall s | s !in pending && s != state :: s !in queue;
  }

  lemma QueueTail(paths: map<string, Path>, queue: seq<string>)
    requires queue != [] && Queue(paths, queue)
    ensures Queue(paths, queue[1..])
  {
    var tail := queue[1..];
    assert forall i | 0 <= i < |tail| :: tail[i] == queue[i + 1];
  }

  /** The breadth-first loop, until nothing is pending. */
  method Search(d: Definition) returns (paths: map<string, Path>)
    requires WellFormed(d)
    ensures Sound(d, paths) && Settled(d, paths, [])
  {
    paths := map[d.initialState := []];
    var pending := [d.initialState];
    hide Queue, Settled, WellFormed, Shortest, Expanded, Sound, Walk, Reachable, Remaining, StateNames;
    StartQueued(d, paths);
    while pending != []
      invariant Sound(d, paths) && Queue(paths, pending) && Settled(d, paths, pending)
      decreases Remaining(d, paths, pending)
    {
      var state := pending[0];
      assert pending == [state] + pending[1..];
      RemainingPops(d, paths, pending);
      paths, pending := Expand(d, paths, pending[1..], state);
    }
  }

  lemma RemainingPops(d: Definition, paths: map<string, Path>, pending: seq<string>)
    requires pending != []
    ensures Remaining(d, paths, pending[1..]) < Remaining(d, paths, pending)
  {
  }

  /** The keys are exactly the states handlers can reach, each with a shortest walk. */
  method ShortestPaths(d: Definition) returns (paths: map<string, Path>)
    requires WellFormed(d)
    ensures forall s :: s in paths <==> Reachable(d, s)
    ensures forall s | s in paths :: Shortest(d, paths[s], s)
    ensures paths.Keys <= StateNames(d)
  {
    hide Settled, WellFormed, Shortest, Sound, Reachable;
    paths := Search(d);
    EverythingFound(d, paths);
  }

  lemma StartQueued(d: Definition, paths: map<string, Path>)
    requires WellFormed(d) && paths == map[d.initialState := []]
    ensures Sound(d, paths) && Queue(paths, [d.initialState]) && Settled(d, paths, [d.initialState])
  {
  }

  lemma EverythingFound(d: Definition, paths: map<string, Path>)
    requires Sound(d, paths) && Settled(d, paths, [])
    ensures forall s :: s in paths <==> Reachable(d, s)
    ensures forall s | s in paths :: Shortest(d, paths[s], s)
    ensures paths.Keys <= StateNames(d)
  {
    forall s ensures s in paths <==> Reachable(d, s) {
      if s in paths {
        assert Shortest(d, paths[s], s);
      }
      if walk: Path :| Walk(d, walk, s) {
        AllDiscovered(d, paths, walk, s);
      }
    }
  }
}
