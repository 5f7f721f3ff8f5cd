/** The in-memory store: dictionaries and one list of events, updated in place. */
module MemoryStore {
  import opened Wrappers
  import opened RuntimeModel
  import opened RuntimeStore

  // ------------------------------------------- the deletion loop of append_event

  function Count<T>(items: seq<T>, p: T -> bool): nat { |Keep(items, p)| }

  /** The first |at| matching items stand at these positions. */
  ghost predicate Positions<T>(items: seq<T>, p: T -> bool, at: seq<nat>) {
    forall i | 0 <= i < |at| :: at[i] < |items| && p(items[at[i]]) && Count(items[..at[i]], p) == i
  }

  lemma CountNone<T>(items: seq<T>, p: T -> bool)
    requires items == []
    ensures Count(items, p) == 0
  {
  }

  lemma CountSnoc<T>(items: seq<T>, x: T, p: T -> bool)
    ensures Count(items + [x], p) == Count(items, p) + if p(x) then 1 else 0
  {
    Snoc(items, x, p);
  }

  lemma CountSplit<T>(items: seq<T>, n: nat, p: T -> bool)
    requires n <= |items|
    ensures Count(items, p) == Count(items[..n], p) + Count(items[n..], p)
  {
    KeepAppend(items[..n], items[n..], p);
    assert items == items[..n] + items[n..];
  }

  lemma CountGrows<T>(items: seq<T>, m: nat, n: nat, p: T -> bool)
    requires m <= n <= |items|
    ensures Count(items[..m], p) <= Count(items[..n], p)
  {
    CountSplit(items[..n], m, p);
    assert items[..n][..m] == items[..m];
  }

  lemma {:induction false} NoneKept<T>(items: seq<T>, p: T -> bool)
    requires Count(items, p) == 0
    ensures Drop(items, p) == items
    decreases |items|
  {
    if items != [] {
      NoneKept(items[..|items| - 1], p);
    }
  }

  /** With the last matching item before `cleared` at `at`, deleting it clears the
      stretch from `at` on. */
  lemma DropOne<T>(all: seq<T>, at: nat, cleared: nat, cut: nat, p: T -> bool)
    requires at < |all| && cleared <= cut <= |all| && p(all[at])
    requires Count(all[..cleared], p) == Count(all[..at], p) + 1
    ensures at < cleared
    ensures Drop(all[at..cut], p) == all[at + 1..cleared] + Drop(all[cleared..cut], p)
  {
    hide Count, Drop;
    Nothing(p, 0);
    if cleared <= at {
      CountGrows(all, cleared, at, p);
      assert false;
    } else {
      var stretch := all[at + 1..cleared];
      CountSplit(all[..cleared], at + 1, p);
      assert all[..cleared][..at + 1] == all[..at] + [all[at]];
      CountSnoc(all[..at], all[at], p);
      NoneKept(stretch, p);
      assert all[at..cut] == [] + [all[at]] + stretch + all[cleared..cut];
      DropAppend([] + [all[at]] + stretch, all[cleared..cut], p);
      DropAppend([] + [all[at]], stretch, p);
      Snoc([], all[at], p);
    }
  }

  /** Dropping the surplus, all of it before `cut`, is trimming to the limit. */
  lemma CutIsTrim<T>(all: seq<T>, cut: nat, p: T -> bool, limit: nat, surplus: nat)
    requires cut <= |all| && Count(all[..cut], p) == surplus
    requires surplus == if Count(all, p) <= limit then 0 else Count(all, p) - limit
    ensures Trim(all, p, limit) == Drop(all[..cut], p) + all[cut..]
  {
    hide Trim, Drop;
    if surplus == 0 {
      NoneKept(all[..cut], p);
      Nothing(p, limit);
      assert all[..0] == [] && all[0..] == all && all[..cut] + all[cut..] == all;
      TrimIsCut(all, p, limit, 0);
    } else {
      CountSplit(all, cut, p);
      TrimIsCut(all, p, limit, cut);
    }
  }

  class MemoryRuntimeStore {
    const journalLimit: nat
    var mappingTable: map<string, seq<RuntimeMapping>>
    var stateTable: map<string, Ownership>
    var journal: seq<Event>

    ghost predicate Valid()
    {
      journalLimit >= 1
    }

    ghost function Contents(): Store
      reads this
    {
      Store(mappingTable, stateTable, journal)
    }

    constructor (limit: nat)
      requires limit >= 1
      ensures Valid() && journalLimit == limit && Contents() == EmptyStore
    {
      journalLimit := limit;
      mappingTable, stateTable, journal := map[], map[], [];
    }

    method Clear()
      requires Valid()
      modifies this
      ensures Valid() && Contents() == EmptyStore
    {
      mappingTable, stateTable, journal := map[], map[], [];
    }

    method Mappings(sim: string) returns (mappings: seq<RuntimeMapping>)
      ensures mappings == MappingsOf(Contents(), sim)
    {
      mappings := if sim in mappingTable then mappingTable[sim] else [];
    }

    method ReplaceMappings(sim: string, mappings: seq<RuntimeMapping>)
      modifies this
      ensures Contents() == RuntimeStore.ReplaceMappings(old(Contents()), sim, mappings)
    {
      mappingTable := mappingTable[sim := mappings];
    }

    method ScenarioNames(sim: Option<string>) returns (names: set<string>)
      ensures names == RuntimeStore.ScenarioNames(Contents(), sim)
    {
      names := set name | name in stateTable && (sim == None || stateTable[name].simulation == sim.value);
    }

    method ScenarioState(name: string) returns (state: Option<string>)
      ensures state == RuntimeStore.ScenarioState(Contents(), name)
    {
      state := if name in stateTable then Some(stateTable[name].state) else None;
    }

    method EnsureScenarioState(sim: string, name: string, state: string)
      modifies this
      ensures Contents() == EnsureState(old(Contents()), sim, name, state)
    {
      if name !in stateTable {
        stateTable := stateTable[name := Ownership(sim, state)];
      }
    }

    /** Fails, leaving the store alone, when the scenario is not deployed. */
    method SetScenarioState(name: string, state: string) returns (ok: bool)
      modifies this
      ensures ok <==> SetState(old(Contents()), name, state).Some?
      ensures Contents() == SetState(old(Contents()), name, state).GetOr(old(Contents()))
    {
      if name !in stateTable {
        return false;
      }
      stateTable := stateTable[name := Ownership(stateTable[name].simulation, state)];
      ok := true;
    }

    /** The positions of a simulation's events, in increasing order. */
    method OwnedIndices(sim: string) returns (owned: seq<nat>)
      ensures Positions(journal, Owned(sim), owned) && |owned| == Count(journal, Owned(sim))
    {
      hide Count;
      owned := [];
      CountNone(journal[..0], Owned(sim));
      for index := 0 to |journal|
        invariant |owned| == Count(journal[..index], Owned(sim))
        invariant Positions(journal, Owned(sim), owned)
      {
        assert journal[..index + 1] == journal[..index] + [journal[index]];
        CountSnoc(journal[..index], journal[index], Owned(sim));
        if journal[index].simulationId == sim {
          owned := owned + [index];
        }
      }
      assert journal[..|journal|] == journal;
    }

    /** Deletes the events at the given positions, the first ones of a simulation,
        from the last to the first. */
    method DeleteReversed(doomed: seq<nat>, ghost sim: string, ghost cut: nat)
      requires Positions(journal, Owned(sim), doomed)
      requires cut <= |journal| && Count(journal[..cut], Owned(sim)) == |doomed|
      modifies `journal
      ensures journal == Drop(old(journal)[..cut], Owned(sim)) + old(journal)[cut..]
    {
      hide Count, Drop, Trim;
      ghost var all, p := journal, Owned(sim);
      var i := |doomed|;
      ghost var cleared: nat := cut;
      Nothing(p, 0);
      assert all[cut..cut] == [] && all[..cut] + [] + all[cut..] == all;
      while i > 0
        invariant 0 <= i <= |doomed| && cleared <= cut
        invariant Count(all[..cleared], p) == i
        invariant journal == all[..cleared] + Drop(all[cleared..cut], p) + all[cut..]
      {
        i := i - 1;
        DropOne(all, doomed[i], cleared, cut, p);
        journal := journal[..doomed[i]] + journal[doomed[i] + 1..];
        cleared := doomed[i];
      }
      NoneKept(all[..cleared], p);
      DropAppend(all[..cleared], all[cleared..cut], p);
      assert all[..cut] == all[..cleared] + all[cleared..cut];
    }

    method AppendEvent(sim: string, event: Event)
      requires Valid()
      modifies this
      ensures Contents() == RuntimeStore.AppendEvent(old(Contents()), journalLimit, sim, event)
    {
      journal := journal + [event];
      var owned := OwnedIndices(sim);
      var surplus := if |owned| <= journalLimit then 0 else |owned| - journalLimit;
      ghost var cut: nat := if |owned| == 0 then |journal| else owned[surplus];
      assert journal[..|journal|] == journal;
      hide Count, Trim, Drop;
      CutIsTrim(journal, cut, Owned(sim), journalLimit, surplus);
      DeleteReversed(owned[..surplus], sim, cut);
    }

    method Events(sim: Option<string>) returns (events: seq<Event>)
      ensures events == EventsOf(Contents(), sim)
    {
      if sim == None {
        return journal;
      }
      events := [];
      for n := 0 to |journal|
        invariant events == Keep(journal[..n], Owned(sim.value))
      {
        assert journal[..n + 1][..n] == journal[..n];
        if journal[n].simulationId == sim.value {
          events := events + [journal[n]];
        }
      }
      assert journal[..|journal|] == journal;
    }

    method ClearEvents(sim: Option<string>)
      modifies this
      ensures Contents() == RuntimeStore.ClearEvents(old(Contents()), sim)
    {
      if sim == None {
        journal := [];
        return;
      }
      var rest := [];
      for n := 0 to |journal|
        invariant rest == Drop(journal[..n], Owned(sim.value))
        invariant Contents() == old(Contents())
      {
        assert journal[..n + 1][..n] == journal[..n];
        if journal[n].simulationId != sim.value {
          rest := rest + [journal[n]];
        }
      }
      assert journal[..|journal|] == journal;
      journal := rest;
    }
  }
}
