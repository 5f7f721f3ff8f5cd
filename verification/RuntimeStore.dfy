/** The runtime store both backends implement: the mappings of each simulation, the
    current state and owner of each scenario, and the request journal. */
module RuntimeStore {
  import opened Wrappers
  import opened RuntimeModel

  datatype Ownership = Ownership(simulation: string, state: string)

  datatype Store = Store(
    mappings: map<string, seq<RuntimeMapping>>,
    states: map<string, Ownership>,
    events: seq<Event>)

  const EmptyStore := Store(map[], map[], [])

  function MappingsOf(st: Store, sim: string): seq<RuntimeMapping> {
    if sim in st.mappings then st.mappings[sim] else []
  }

  function ReplaceMappings(st: Store, sim: string, mappings: seq<RuntimeMapping>): Store {
    st.(mappings := st.mappings[sim := mappings])
  }

  function ScenarioNames(st: Store, sim: Option<string>): set<string> {
    set name | name in st.states && (sim == None || st.states[name].simulation == sim.value)
  }

  function ScenarioState(st: Store, name: string): Option<string> {
    if name in st.states then Some(st.states[name].state) else None
  }

  function EnsureState(st: Store, sim: string, name: string, state: string): Store {
    if name in st.states then st else st.(states := st.states[name := Ownership(sim, state)])
  }

  /** None when the scenario is not deployed. */
  function SetState(st: Store, name: string, state: string): Option<Store> {
    if name in st.states
    then Some(st.(states := st.states[name := Ownership(st.states[name].simulation, state)]))
    else None
  }

  function Owned(sim: string): Event -> bool { (e: Event) => e.simulationId == sim }

  function AppendEvent(st: Store, limit: nat, sim: string, event: Event): Store {
    st.(events := Trim(st.events + [event], Owned(sim), limit))
  }

  function EventsOf(st: Store, sim: Option<string>): seq<Event> {
    if sim == None then st.events else Keep(st.events, Owned(sim.value))
  }

  function ClearEvents(st: Store, sim: Option<string>): Store {
    st.(events := if sim == None then [] else Drop(st.events, Owned(sim.value)))
  }

  // ----------------------------------------------------------- filters and trims

  function Keep<T>(items: seq<T>, p: T -> bool): seq<T> {
    if items == [] then [] else
      var front, last := items[..|items| - 1], items[|items| - 1];
      if p(last) then Keep(front, p) + [last] else Keep(front, p)
  }

  function Drop<T>(items: seq<T>, p: T -> bool): seq<T> {
    if items == [] then [] else
      var front, last := items[..|items| - 1], items[|items| - 1];
      if p(last) then Drop(front, p) else Drop(front, p) + [last]
  }

  /** Removes the oldest items satisfying p until at most `keep` of them remain. */
  function Trim<T>(items: seq<T>, p: T -> bool, keep: nat): seq<T> {
    if items == [] then [] else
      var front, last := items[..|items| - 1], items[|items| - 1];
      if !p(last) then Trim(front, p, keep) + [last]
      else if keep == 0 then Trim(front, p, 0)
      else Trim(front, p, keep - 1) + [last]
  }

  function LastOf<T>(items: seq<T>, n: nat): seq<T> {
    if |items| <= n then items else items[|items| - n..]
  }

  lemma {:induction false} KeepAppend<T>(a: seq<T>, b: seq<T>, p: T -> bool)
    ensures Keep(a + b, p) == Keep(a, p) + Keep(b, p)
    decreases |b|
  {
    if b == [] {
      assert a + b == a;
    } else {
      KeepAppend(a, b[..|b| - 1], p);
      assert (a + b)[..|a + b| - 1] == a + b[..|b| - 1];
    }
  }

  lemma {:induction false} DropAppend<T>(a: seq<T>, b: seq<T>, p: T -> bool)
    ensures Drop(a + b, p) == Drop(a, p) + Drop(b, p)
    decreases |b|
  {
    if b == [] {
      assert a + b == a;
    } else {
      DropAppend(a, b[..|b| - 1], p);
      assert (a + b)[..|a + b| - 1] == a + b[..|b| - 1];
    }
  }

  lemma {:induction false} DropMembers<T>(items: seq<T>, p: T -> bool)
    ensures forall x :: x in Drop(items, p) <==> x in items && !p(x)
    decreases |items|
  {
    if items != [] {
      DropMembers(items[..|items| - 1], p);
    }
  }

  lemma Snoc<T>(items: seq<T>, x: T, p: T -> bool)
    ensures Keep(items + [x], p) == if p(x) then Keep(items, p) + [x] else Keep(items, p)
    ensures Drop(items + [x], p) == if p(x) then Drop(items, p) else Drop(items, p) + [x]
  {
    assert (items + [x])[..|items|] == items;
  }

  function FrontQuota<T>(last: T, p: T -> bool, keep: nat): nat {
    if p(last) && keep > 0 then keep - 1 else keep
  }

  lemma TrimSnoc<T>(items: seq<T>, x: T, p: T -> bool, keep: nat)
    ensures Trim(items + [x], p, keep) ==
      if p(x) && keep == 0 then Trim(items, p, 0) else Trim(items, p, FrontQuota(x, p, keep)) + [x]
  {
    assert (items + [x])[..|items|] == items;
  }

  lemma LastOfSnoc<T>(items: seq<T>, x: T, n: nat)
    ensures LastOf(items + [x], n) == if n == 0 then [] else LastOf(items, n - 1) + [x]
  {
  }

  lemma Nothing<T>(p: T -> bool, keep: nat)
    ensures Keep([], p) == [] && Drop([], p) == [] && Trim([], p, keep) == [] && LastOf<T>([], keep) == []
  {
  }

  /** Trimming keeps exactly the last `keep` matching items, in order. */
  lemma {:induction false} TrimKeepsLast<T>(items: seq<T>, p: T -> bool, keep: nat)
    ensures Keep(Trim(items, p, keep), p) == LastOf(Keep(items, p), keep)
    decreases |items|
  {
    hide Trim, Keep, LastOf;
    Nothing(p, keep);
    if items != [] {
      var front, last := items[..|items| - 1], items[|items| - 1];
      var k := FrontQuota(last, p, keep);
      TrimKeepsLast(front, p, k);
      assert front + [last] == items;
      TrimSnoc(front, last, p, keep);
      Snoc(front, last, p);
      Snoc(Trim(front, p, k), last, p);
      LastOfSnoc(Keep(front, p), last, keep);
      LastOfZero(Keep(front, p), keep);
    }
  }

  /** Trimming removes matching items only. */
  lemma {:induction false} TrimDropsNoOther<T>(items: seq<T>, p: T -> bool, keep: nat)
    ensures Drop(Trim(items, p, keep), p) == Drop(items, p)
    decreases |items|
  {
    if items != [] {
      var front, last := items[..|items| - 1], items[|items| - 1];
      var k := FrontQuota(last, p, keep);
      TrimDropsNoOther(front, p, k);
      hide Trim, Drop;
      assert front + [last] == items;
      TrimSnoc(front, last, p, keep);
      Snoc(front, last, p);
      Snoc(Trim(front, p, k), last, p);
    }
  }

  lemma LastOfAgain<T>(items: seq<T>, n: nat)
    ensures n > 0 ==> LastOf(LastOf(items, n), n - 1) == LastOf(items, n - 1)
    ensures LastOf(LastOf(items, n), n) == LastOf(items, n)
  {
  }

  lemma LastOfZero<T>(items: seq<T>, n: nat)
    ensures n == 0 ==> LastOf(items, n) == []
  {
  }

  /** Trimming one kind of item leaves every disjoint kind exactly as it was. */
  lemma {:induction false} TrimSparesOthers<T>(items: seq<T>, p: T -> bool, keep: nat, q: T -> bool)
    requires forall x :: !(p(x) && q(x))
    ensures Keep(Trim(items, p, keep), q) == Keep(items, q)
    decreases |items|
  {
    if items != [] {
      var front, last := items[..|items| - 1], items[|items| - 1];
      var k := FrontQuota(last, p, keep);
      TrimSparesOthers(front, p, k, q);
      Snoc(Trim(front, p, k), last, q);
    }
  }

  lemma {:induction false} DropSparesOthers<T>(items: seq<T>, p: T -> bool, q: T -> bool)
    requires forall x :: !(p(x) && q(x))
    ensures Keep(Drop(items, p), q) == Keep(items, q)
    decreases |items|
  {
    if items != [] {
      var front, last := items[..|items| - 1], items[|items| - 1];
      DropSparesOthers(front, p, q);
      Snoc(Drop(front, p), last, q);
    }
  }

  lemma {:induction false} DropRemoves<T>(items: seq<T>, p: T -> bool)
    ensures Keep(Drop(items, p), p) == []
    decreases |items|
  {
    if items != [] {
      var front, last := items[..|items| - 1], items[|items| - 1];
      DropRemoves(front, p);
      Snoc(Drop(front, p), last, p);
    }
  }

  /** Where trimming cuts: before `cut` no matching item survives, after it all do. */
  lemma {:induction false} TrimIsCut<T>(items: seq<T>, p: T -> bool, keep: nat, cut: nat)
    requires cut <= |items|
    requires |Keep(items[cut..], p)| == keep || (cut == 0 && |Keep(items, p)| <= keep)
    ensures Trim(items, p, keep) == Drop(items[..cut], p) + items[cut..]
    decreases |items|
  {
    if items != [] {
      var front, last := items[..|items| - 1], items[|items| - 1];
      if cut == |items| {
        assert items[cut..] == [] && items[..cut] == items;
        TrimAll(items, p);
      } else {
        assert items[cut..] == front[cut..] + [last];
        assert items[..cut] == front[..cut] && items[0..] == items && front[0..] == front;
        TrimIsCut(front, p, if p(last) then keep - 1 else keep, cut);
      }
    }
  }

  lemma {:induction false} TrimAll<T>(items: seq<T>, p: T -> bool)
    ensures Trim(items, p, 0) == Drop(items, p)
    decreases |items|
  {
    if items != [] {
      TrimAll(items[..|items| - 1], p);
    }
  }

  // --------------------------------------------------------- journals over runs

  datatype JournalStep = Appended(simulation: string, event: Event) | Cleared(of: Option<string>)

  /** One step's effect on the events appended for a simulation since its last clear. */
  function AppendedAfter(appended: seq<Event>, step: JournalStep, sim: string): seq<Event> {
    match step
    case Appended(s, event) => if s == sim then appended + [event] else appended
    case Cleared(of) => if of == None || of == Some(sim) then [] else appended
  }

  function StepJournal(before: Store, limit: nat, step: JournalStep): Store {
    match step
    case Appended(sim, event) => AppendEvent(before, limit, sim, event)
    case Cleared(of) => ClearEvents(before, of)
  }

  function JournalRun(start: Store, limit: nat, steps: seq<JournalStep>): Store {
    if steps == [] then start
    else StepJournal(JournalRun(start, limit, steps[..|steps| - 1]), limit, steps[|steps| - 1])
  }

  /** What was appended for a simulation since its journal was last cleared. */
  function AppendedSince(steps: seq<JournalStep>, sim: string): seq<Event> {
    if steps == [] then []
    else AppendedAfter(AppendedSince(steps[..|steps| - 1], sim), steps[|steps| - 1], sim)
  }

  /** A simulation's journal is exactly its last `limit` events since its last
      clear, whatever the other simulations do in between. */
  lemma {:induction false} JournalIsLastEvents(limit: nat, steps: seq<JournalStep>, sim: string)
    requires limit >= 1
    requires forall i | 0 <= i < |steps| && steps[i].Appended? :: steps[i].event.simulationId == steps[i].simulation
    ensures EventsOf(JournalRun(EmptyStore, limit, steps), Some(sim)) == LastOf(AppendedSince(steps, sim), limit)
    decreases |steps|
  {
    if steps != [] {
      var front, last := steps[..|steps| - 1], steps[|steps| - 1];
      JournalIsLastEvents(limit, front, sim);
      JournalStepKeepsLast(JournalRun(EmptyStore, limit, front), limit, last, sim, AppendedSince(front, sim));
    }
  }

  lemma JournalStepKeepsLast(before: Store, limit: nat, step: JournalStep, sim: string, appended: seq<Event>)
    requires limit >= 1 && EventsOf(before, Some(sim)) == LastOf(appended, limit)
    requires step.Appended? ==> step.event.simulationId == step.simulation
    ensures EventsOf(StepJournal(before, limit, step), Some(sim)) == LastOf(AppendedAfter(appended, step, sim), limit)
  {
    hide Trim, Drop, Keep, LastOf;
    match step
    case Appended(s, event) =>
      AppendKeepsLast(before.events, limit, s, event, sim, appended);
    case Cleared(of) =>
      Nothing(Owned(sim), limit);
      if of == Some(sim) {
        DropRemoves(before.events, Owned(sim));
      } else if of != None {
        DropSparesOthers(before.events, Owned(of.value), Owned(sim));
      }
  }

  lemma AppendKeepsLast(events: seq<Event>, limit: nat, s: string, event: Event, sim: string, appended: seq<Event>)
    requires limit >= 1 && Keep(events, Owned(sim)) == LastOf(appended, limit)
    requires event.simulationId == s
    ensures Keep(Trim(events + [event], Owned(s), limit), Owned(sim))
      == LastOf(if s == sim then appended + [event] else appended, limit)
  {
    hide Trim, Keep, LastOf;
    Snoc(events, event, Owned(sim));
    LastOfSnoc(appended, event, limit);
    LastOfAgain(appended, limit);
    LastOfSnoc(Keep(events, Owned(sim)), event, limit);
    if s == sim {
      TrimKeepsLast(events + [event], Owned(sim), limit);
    } else {
      TrimSparesOthers(events + [event], Owned(s), limit, Owned(sim));
    }
  }
}
