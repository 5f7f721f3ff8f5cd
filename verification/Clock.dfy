/** The virtual clock: following the timeouts that elapsed time has made due. */
module Clock {
  import opened Wrappers
  import opened Scenario

  function TimeoutOf(d: Definition, state: string): Option<Timeout> {
    match StateIndex(d.states, state)
    case None => None
    case Some(i) => d.states[i].timeout
  }

  predicate Due(d: Definition, state: string, elapsed: nat) {
    TimeoutOf(d, state).Some? && 1 <= TimeoutOf(d, state).value.ms <= elapsed
  }

  /** The states timeouts lead through, without any limit, and the time left over. */
  function TimeoutWalk(d: Definition, state: string, elapsed: nat): (seq<string>, nat)
    decreases elapsed
  {
    if Due(d, state, elapsed) then
      var timeout := TimeoutOf(d, state).value;
      var (rest, remainder) := TimeoutWalk(d, timeout.target, elapsed - timeout.ms);
      ([timeout.target] + rest, remainder)
    else ([], elapsed)
  }

  function Last(state: string, walk: seq<string>): string {
    if walk == [] then state else walk[|walk| - 1]
  }

  datatype Tick =
    | Ticked(state: string, elapsed: nat, transitions: seq<string>)
    | UnknownState
    | TimeoutCycle

  /** What one advance does: nothing beyond one transition per declared state. */
  function Advanced(d: Definition, start: string, available: nat): Tick {
    if StateIndex(d.states, start) == None then UnknownState else
      var (walk, remainder) := TimeoutWalk(d, start, available);
      if |walk| > |d.states| then TimeoutCycle else Ticked(Last(start, walk), remainder, walk)
  }

  ghost predicate FromHere(d: Definition, start: string, available: nat, current: string, elapsed: nat,
                           transitions: seq<string>) {
    && StateIndex(d.states, current).Some?
    && Last(start, transitions) == current
    && var (rest, remainder) := TimeoutWalk(d, current, elapsed);
       TimeoutWalk(d, start, available) == (transitions + rest, remainder)
  }

  lemma TargetsDeclared(d: Definition, state: string)
    requires WellFormed(d) && TimeoutOf(d, state).Some?
    ensures StateIndex(d.states, TimeoutOf(d, state).value.target).Some? && TimeoutOf(d, state).value.ms >= 1
  {
    var i := StateIndex(d.states, state).value;
    assert StateWellFormed(d.states[i], StateNames(d));
  }

  lemma OneTimeout(d: Definition, start: string, available: nat, current: string, elapsed: nat,
                   transitions: seq<string>)
    requires WellFormed(d) && FromHere(d, start, available, current, elapsed, transitions) && Due(d, current, elapsed)
    ensures var timeout := TimeoutOf(d, current).value;
      FromHere(d, start, available, timeout.target, elapsed - timeout.ms, transitions + [timeout.target])
  {
    TargetsDeclared(d, current);
    hide WellFormed;
    var timeout := TimeoutOf(d, current).value;
    var (rest, remainder) := TimeoutWalk(d, timeout.target, elapsed - timeout.ms);
    assert transitions + ([timeout.target] + rest) == (transitions + [timeout.target]) + rest;
  }

  /** The loop: one timeout at a time, giving up beyond one transition per state. */
  method FollowTimeouts(d: Definition, start: string, available: nat) returns (tick: Tick)
    requires WellFormed(d)
    ensures tick == Advanced(d, start, available)
  {
    hide WellFormed, TimeoutWalk, FromHere;
    var elapsed: nat, current, transitions := available, start, [];
    if StateIndex(d.states, start) == None {
      return UnknownState;
    }
    Starting(d, start, available);
    while Due(d, current, elapsed)
      invariant FromHere(d, start, available, current, elapsed, transitions) && |transitions| <= |d.states|
      decreases elapsed
    {
      var timeout := TimeoutOf(d, current).value;
      OneTimeout(d, start, available, current, elapsed, transitions);
      elapsed := elapsed - timeout.ms;
      current := timeout.target;
      transitions := transitions + [current];
      if |transitions| > |d.states| {
        WalkedThisFar(d, start, available, current, elapsed, transitions);
        return TimeoutCycle;
      }
    }
    Arrived(d, start, available, current, elapsed, transitions);
    return Ticked(current, elapsed, transitions);
  }

  lemma Starting(d: Definition, start: string, available: nat)
    requires StateIndex(d.states, start).Some?
    ensures FromHere(d, start, available, start, available, [])
  {
    var (walk, remainder) := TimeoutWalk(d, start, available);
    assert [] + walk == walk;
  }

  lemma WalkedThisFar(d: Definition, start: string, available: nat, current: string, elapsed: nat,
                      transitions: seq<string>)
    requires FromHere(d, start, available, current, elapsed, transitions)
    ensures |TimeoutWalk(d, start, available).0| >= |transitions|
  {
  }

  lemma Arrived(d: Definition, start: string, available: nat, current: string, elapsed: nat, transitions: seq<string>)
    requires FromHere(d, start, available, current, elapsed, transitions) && !Due(d, current, elapsed)
    ensures TimeoutWalk(d, start, available) == (transitions, elapsed) && Last(start, transitions) == current
  {
    assert transitions + [] == transitions;
  }

  // ------------------------------------------------------------------------ its laws

  /** The time the timeouts along a walk take. */
  function Consumed(d: Definition, state: string, walk: seq<string>): nat
    decreases |walk|
  {
    if walk == [] then 0
    else (if TimeoutOf(d, state).Some? then TimeoutOf(d, state).value.ms else 0) + Consumed(d, walk[0], walk[1..])
  }

  /** Every step is the timeout of the state before it. */
  ghost predicate FollowsTimeouts(d: Definition, state: string, walk: seq<string>)
    decreases |walk|
  {
    walk != [] ==>
      && TimeoutOf(d, state).Some? && TimeoutOf(d, state).value.target == walk[0]
      && FollowsTimeouts(d, walk[0], walk[1..])
  }

  /** No time is lost, and none that is left makes another timeout due. */
  lemma {:induction false} TimeConserved(d: Definition, state: string, elapsed: nat)
    ensures var (walk, remainder) := TimeoutWalk(d, state, elapsed);
      && FollowsTimeouts(d, state, walk)
      && Consumed(d, state, walk) + remainder == elapsed
      && !Due(d, Last(state, walk), remainder)
    decreases elapsed
  {
    if Due(d, state, elapsed) {
      var timeout := TimeoutOf(d, state).value;
      TimeConserved(d, timeout.target, elapsed - timeout.ms);
      var (rest, remainder) := TimeoutWalk(d, timeout.target, elapsed - timeout.ms);
      assert ([timeout.target] + rest)[1..] == rest;
    }
  }

  /** When a timeout fires: after exactly its time, not a millisecond earlier, and never
      without one. */
  lemma FiresAt(d: Definition, k: nat, ms: nat)
    requires WellFormed(d) && k < |d.states|
    ensures var (s, tick) := (d.states[k], Advanced(d, d.states[k].name, ms));
      match s.timeout
      case None => tick == Ticked(s.name, ms, [])
      case Some(t) =>
        && (ms < t.ms ==> tick == Ticked(s.name, ms, []))
        && (ms == t.ms ==> tick == Ticked(t.target, 0, [t.target]))
  {
    StateAt(d, k);
    assert StateWellFormed(d.states[k], StateNames(d));
    hide WellFormed;
    if d.states[k].timeout.Some? {
      var t := d.states[k].timeout.value;
      assert TimeoutWalk(d, t.target, 0) == ([], 0) && [t.target] + [] == [t.target];
      assert TimeoutWalk(d, d.states[k].name, t.ms).0 == [t.target] + TimeoutWalk(d, t.target, t.ms - t.ms).0;
    }
  }

  lemma TimeoutAt(d: Definition, k: nat)
    requires WellFormed(d) && k < |d.states|
    ensures TimeoutOf(d, d.states[k].name) == d.states[k].timeout
    ensures d.states[k].timeout.Some? ==> d.states[k].timeout.value.ms >= 1
  {
    StateAt(d, k);
    assert StateWellFormed(d.states[k], StateNames(d));
    hide WellFormed;
  }

  /** The walk beyond the first timeout goes on from its target with the time left. */
  lemma FiresOn(d: Definition, k: nat, ms: nat)
    requires WellFormed(d) && k < |d.states| && d.states[k].timeout.Some? && ms >= d.states[k].timeout.value.ms
    ensures var t := d.states[k].timeout.value;
      var (rest, remainder) := TimeoutWalk(d, t.target, ms - t.ms);
      TimeoutWalk(d, d.states[k].name, ms) == ([t.target] + rest, remainder)
  {
    TimeoutAt(d, k);
    hide WellFormed, TimeoutOf;
  }

  lemma StateAt(d: Definition, k: nat)
    requires WellFormed(d) && k < |d.states|
    ensures StateIndex(d.states, d.states[k].name) == Some(k)
  {
    hide StateWellFormed;
    var i := StateIndex(d.states, d.states[k].name);
    assert i.Some?;
  }

  /** Only one walk and remainder obey those laws: they determine the clock. */
  lemma {:induction false} WalkUnique(d: Definition, state: string, elapsed: nat, walk: seq<string>, remainder: nat)
    requires WellFormed(d) && FollowsTimeouts(d, state, walk)
    requires Consumed(d, state, walk) + remainder == elapsed && !Due(d, Last(state, walk), remainder)
    ensures TimeoutWalk(d, state, elapsed) == (walk, remainder)
    decreases |walk|
  {
    hide WellFormed;
    if walk != [] {
      TargetsDeclared(d, state);
      WalkUnique(d, walk[0], elapsed - TimeoutOf(d, state).value.ms, walk[1..], remainder);
      assert [walk[0]] + walk[1..] == walk;
    }
  }

  /** Advancing twice is advancing once by the sum. */
  lemma {:induction false} WalkComposes(d: Definition, state: string, first: nat, second: nat)
    ensures var (walk, left) := TimeoutWalk(d, state, first);
      var (more, remainder) := TimeoutWalk(d, Last(state, walk), left + second);
      TimeoutWalk(d, state, first + second) == (walk + more, remainder)
    decreases first
  {
    if Due(d, state, first) {
      var timeout := TimeoutOf(d, state).value;
      WalkComposes(d, timeout.target, first - timeout.ms, second);
      var (rest, left) := TimeoutWalk(d, timeout.target, first - timeout.ms);
      assert Last(state, [timeout.target] + rest) == Last(timeout.target, rest);
      var (more, remainder) := TimeoutWalk(d, Last(timeout.target, rest), left + second);
      assert [timeout.target] + (rest + more) == ([timeout.target] + rest) + more;
    } else {
      var (more, remainder) := TimeoutWalk(d, state, first + second);
      assert [] + more == more;
    }
  }

  lemma {:induction false} WalkDeclared(d: Definition, state: string, elapsed: nat)
    requires WellFormed(d)
    ensures forall s | s in TimeoutWalk(d, state, elapsed).0 :: s in StateNames(d)
    decreases elapsed
  {
    hide WellFormed;
    if Due(d, state, elapsed) {
      TargetsDeclared(d, state);
      var timeout := TimeoutOf(d, state).value;
      WalkDeclared(d, timeout.target, elapsed - timeout.ms);
    }
  }

  /** If the sum can be advanced at once it can be advanced in two parts, to the same
      state and remainder, with the transitions concatenated. */
  lemma AdvanceComposes(d: Definition, state: string, first: nat, second: nat)
    requires WellFormed(d) && Advanced(d, state, first + second).Ticked?
    ensures var once := Advanced(d, state, first + second);
      var one := Advanced(d, state, first);
      && one.Ticked? && var two := Advanced(d, one.state, one.elapsed + second);
         two.Ticked? && once == Ticked(two.state, two.elapsed, one.transitions + two.transitions)
  {
    hide TimeoutWalk, WellFormed;
    WalkComposes(d, state, first, second);
    WalkDeclared(d, state, first);
    assert Last(state, TimeoutWalk(d, state, first).0) in StateNames(d);
  }

  /** Two advances that succeed could have been one exactly when together they make no
      more transitions than there are states. */
  lemma OnceIff(d: Definition, state: string, first: nat, second: nat)
    requires WellFormed(d) && Advanced(d, state, first).Ticked?
    requires var one := Advanced(d, state, first); Advanced(d, one.state, one.elapsed + second).Ticked?
    ensures var one := Advanced(d, state, first);
      var two := Advanced(d, one.state, one.elapsed + second);
      Advanced(d, state, first + second).Ticked? <==> |one.transitions| + |two.transitions| <= |d.states|
  {
    hide TimeoutWalk, WellFormed;
    WalkComposes(d, state, first, second);
  }

  ghost predicate Revisits(walk: seq<string>) { exists i, j | 0 <= i < j < |walk| :: walk[i] == walk[j] }

  lemma {:induction false} Pigeonhole(walk: seq<string>, names: set<string>)
    requires (forall s | s in walk :: s in names) && |walk| > |names|
    ensures Revisits(walk)
    decreases |walk|
  {
    var front, last := walk[..|walk| - 1], walk[|walk| - 1];
    if last in front {
      var i :| 0 <= i < |front| && front[i] == last;
      assert walk[i] == walk[|walk| - 1];
    } else {
      Pigeonhole(front, names - {last});
      var i, j :| 0 <= i < j < |front| && front[i] == front[j];
      assert walk[i] == walk[j];
    }
  }

  lemma {:induction false} FewNames(states: seq<State>)
    ensures |set i | 0 <= i < |states| :: states[i].name| <= |states|
    decreases |states|
  {
    if states != [] {
      var front := states[..|states| - 1];
      FewNames(front);
      assert (set i | 0 <= i < |states| :: states[i].name)
        == (set i | 0 <= i < |front| :: front[i].name) + {states[|states| - 1].name};
    }
  }

  /** The cycle error means that the timeouts came back to a state. */
  lemma CycleRevisits(d: Definition, state: string, elapsed: nat)
    requires WellFormed(d) && Advanced(d, state, elapsed) == TimeoutCycle
    ensures Revisits(TimeoutWalk(d, state, elapsed).0)
  {
    hide TimeoutWalk, WellFormed;
    var walk := TimeoutWalk(d, state, elapsed).0;
    WalkDeclared(d, state, elapsed);
    FewNames(d.states);
    Pigeonhole(walk, StateNames(d));
  }
}
