/** The durable store: the same interface over four tables. Each SQL statement is one
    step; a table with a primary key is a map, the event table is the sequence of its
    rows in id order. */
module SqliteStore {
  import opened Wrappers
  import opened RuntimeModel
  import opened RuntimeStore

  datatype EventRow = EventRow(id: nat, simulation: string, payload: Event)

  type MappingTable = map<(string, nat), RuntimeMapping>

  // ------------------------------------------------- SELECT ... ORDER BY ordinal

  function Ordinals(table: MappingTable, sim: string): set<nat> {
    set key | key in table && key.0 == sim :: key.1
  }

  predicate IsGreatest(s: set<nat>, m: nat) { m in s && forall n | n in s :: n <= m }

  lemma GreatestOfTwo(s: set<nat>, x: nat, m: nat)
    requires x in s && IsGreatest(s - {x}, m)
    ensures IsGreatest(s, if x <= m then m else x)
  {
    forall n | n in s ensures n <= if x <= m then m else x {
      assert n == x || n in s - {x};
    }
  }

  lemma {:induction false} GreatestExists(s: set<nat>)
    requires s != {}
    ensures exists m :: IsGreatest(s, m)
  {
    var x :| x in s;
    if s == {x} {
      assert IsGreatest(s, x);
    } else {
      hide IsGreatest;
      GreatestExists(s - {x});
      var m :| IsGreatest(s - {x}, m);
      GreatestOfTwo(s, x, m);
    }
  }

  function Greatest(s: set<nat>): (m: nat)
    requires s != {}
    ensures m in s && forall n | n in s :: n <= m
  {
    GreatestExists(s);
    var m :| m in s && IsGreatest(s, m);
    m
  }

  function Ascending(s: set<nat>): seq<nat> {
    if s == {} then [] else Ascending(s - {Greatest(s)}) + [Greatest(s)]
  }

  function Rows(table: MappingTable, sim: string, ordinals: seq<nat>): seq<RuntimeMapping>
    requires forall i | 0 <= i < |ordinals| :: (sim, ordinals[i]) in table
  {
    seq(|ordinals|, i requires 0 <= i < |ordinals| => table[(sim, ordinals[i])])
  }

  lemma {:induction false} AscendingMembers(s: set<nat>, n: nat)
    ensures n in Ascending(s) <==> n in s
  {
    if s != {} {
      AscendingMembers(s - {Greatest(s)}, n);
    }
  }

  function SelectMappings(table: MappingTable, sim: string): seq<RuntimeMapping> {
    var ordinals := Ascending(Ordinals(table, sim));
    assert forall n | n in ordinals :: (sim, n) in table by {
      forall n | n in ordinals { AscendingMembers(Ordinals(table, sim), n); }
    }
    Rows(table, sim, ordinals)
  }

  function UpTo(n: nat): (s: set<nat>)
    ensures forall i: nat :: i in s <==> i < n
  {
    if n == 0 then {} else UpTo(n - 1) + {n - 1}
  }

  lemma {:induction false} AscendingUpTo(n: nat)
    ensures Ascending(UpTo(n)) == seq(n, (i: nat) => i)
  {
    if n == 0 {
      assert UpTo(0) == {};
    } else {
      assert n - 1 in UpTo(n) && Greatest(UpTo(n)) == n - 1;
      assert UpTo(n) - {n - 1} == UpTo(n - 1);
      AscendingUpTo(n - 1);
    }
  }

  /** The rows of a simulation are exactly a list numbered from zero. */
  ghost predicate Holds(table: MappingTable, sim: string, mappings: seq<RuntimeMapping>) {
    && (forall n: nat :: (sim, n) in table <==> n < |mappings|)
    && (forall n: nat | n < |mappings| :: table[(sim, n)] == mappings[n])
  }

  lemma SelectNumbered(table: MappingTable, sim: string, mappings: seq<RuntimeMapping>)
    requires Holds(table, sim, mappings)
    ensures SelectMappings(table, sim) == mappings
  {
    forall n: nat ensures n in Ordinals(table, sim) <==> n < |mappings| {
      if n < |mappings| {
        assert (sim, n) in table;
      }
    }
    assert Ordinals(table, sim) == UpTo(|mappings|);
    AscendingUpTo(|mappings|);
  }

  // ------------------------------------ DELETE ... NOT IN (SELECT ... LIMIT ?)

  /** The ids of a simulation's n newest rows. */
  function NewestIds(rows: seq<EventRow>, sim: string, n: nat): set<nat> {
    if rows == [] || n == 0 then {} else
      var front, last := rows[..|rows| - 1], rows[|rows| - 1];
      if last.simulation == sim then {last.id} + NewestIds(front, sim, n - 1) else NewestIds(front, sim, n)
  }

  function OwnedRow(sim: string): EventRow -> bool { (r: EventRow) => r.simulation == sim }

  function Surplus(sim: string, kept: set<nat>): EventRow -> bool {
    (r: EventRow) => r.simulation == sim && r.id !in kept
  }

  ghost predicate IdsAscend(rows: seq<EventRow>, next: nat) {
    && (forall i | 0 <= i < |rows| :: rows[i].id < next)
    && (forall i, j | 0 <= i < j < |rows| :: rows[i].id < rows[j].id)
  }

  lemma {:induction false} DropSame<T>(items: seq<T>, p: T -> bool, q: T -> bool)
    requires forall i | 0 <= i < |items| :: p(items[i]) == q(items[i])
    ensures Drop(items, p) == Drop(items, q)
    decreases |items|
  {
    if items != [] {
      DropSame(items[..|items| - 1], p, q);
    }
  }

  lemma {:induction false} NewestAreRows(rows: seq<EventRow>, sim: string, n: nat, id: nat)
    requires id in NewestIds(rows, sim, n)
    ensures exists i | 0 <= i < |rows| :: rows[i].id == id
    decreases |rows|
  {
    var front, last := rows[..|rows| - 1], rows[|rows| - 1];
    if id != last.id {
      NewestAreRows(front, sim, if last.simulation == sim then n - 1 else n, id);
      var i :| 0 <= i < |front| && front[i].id == id;
      assert rows[i].id == id;
    }
  }

  /** Deleting the rows outside the newest n is trimming to n. */
  lemma {:induction false} DeleteIsTrim(rows: seq<EventRow>, sim: string, n: nat, next: nat)
    requires IdsAscend(rows, next)
    ensures Drop(rows, Surplus(sim, NewestIds(rows, sim, n))) == Trim(rows, OwnedRow(sim), n)
    decreases |rows|
  {
    if rows != [] {
      var front, last := rows[..|rows| - 1], rows[|rows| - 1];
      var k := if last.simulation == sim && n > 0 then n - 1 else n;
      DeleteIsTrim(front, sim, k, next);
      forall i | 0 <= i < |front|
        ensures Surplus(sim, NewestIds(rows, sim, n))(front[i]) == Surplus(sim, NewestIds(front, sim, k))(front[i])
      {
        assert front[i].id < last.id;
      }
      DropSame(front, Surplus(sim, NewestIds(rows, sim, n)), Surplus(sim, NewestIds(front, sim, k)));
      if last.simulation != sim && last.id in NewestIds(rows, sim, n) {
        NewestAreRows(front, sim, n, last.id);
      }
    }
  }

  // ------------------------------------------------------- rows and their events

  function Payloads(rows: seq<EventRow>): (events: seq<Event>)
    ensures |events| == |rows|
  {
    seq(|rows|, i requires 0 <= i < |rows| => rows[i].payload)
  }

  /** Every row is filed under the simulation its event names. */
  ghost predicate Filed(rows: seq<EventRow>) {
    forall i | 0 <= i < |rows| :: rows[i].simulation == rows[i].payload.simulationId
  }

  lemma PayloadsSnoc(rows: seq<EventRow>, row: EventRow)
    ensures Payloads(rows + [row]) == Payloads(rows) + [row.payload]
  {
  }

  lemma {:induction false} PayloadsOfTrim(rows: seq<EventRow>, sim: string, n: nat)
    requires Filed(rows)
    ensures Payloads(Trim(rows, OwnedRow(sim), n)) == Trim(Payloads(rows), Owned(sim), n)
    ensures Filed(Trim(rows, OwnedRow(sim), n))
    decreases |rows|
  {
    if rows != [] {
      var front, last := rows[..|rows| - 1], rows[|rows| - 1];
      assert Payloads(rows)[..|rows| - 1] == Payloads(front);
      PayloadsOfTrim(front, sim, if last.simulation == sim && n > 0 then n - 1 else n);
    }
  }

  lemma {:induction false} PayloadsOfDrop(rows: seq<EventRow>, sim: string)
    requires Filed(rows)
    ensures Payloads(Drop(rows, OwnedRow(sim))) == Drop(Payloads(rows), Owned(sim))
    ensures Filed(Drop(rows, OwnedRow(sim)))
    decreases |rows|
  {
    if rows != [] {
      var front, last := rows[..|rows| - 1], rows[|rows| - 1];
      PayloadsOfDrop(front, sim);
      assert front + [last] == rows;
      PayloadsSnoc(front, last);
      PayloadsSnoc(Drop(front, OwnedRow(sim)), last);
      hide Drop, Payloads;
      Snoc(front, last, OwnedRow(sim));
      Snoc(Payloads(front), last.payload, Owned(sim));
    }
  }

  lemma {:induction false} PayloadsOfKeep(rows: seq<EventRow>, sim: string)
    requires Filed(rows)
    ensures Payloads(Keep(rows, OwnedRow(sim))) == Keep(Payloads(rows), Owned(sim))
    decreases |rows|
  {
    if rows != [] {
      assert Payloads(rows)[..|rows| - 1] == Payloads(rows[..|rows| - 1]);
      PayloadsOfKeep(rows[..|rows| - 1], sim);
    }
  }

  lemma AscendSnoc(rows: seq<EventRow>, row: EventRow, next: nat)
    requires IdsAscend(rows, row.id) && row.id < next
    ensures IdsAscend(rows + [row], next)
  {
  }

  lemma AscendBelow(rows: seq<EventRow>, low: nat, high: nat)
    requires IdsAscend(rows, low) && low <= high
    ensures IdsAscend(rows, high)
  {
  }

  lemma {:induction false} TrimAscends(rows: seq<EventRow>, p: EventRow -> bool, n: nat, next: nat)
    requires IdsAscend(rows, next)
    ensures IdsAscend(Trim(rows, p, n), next)
    decreases |rows|
  {
    Nothing(p, n);
    if rows != [] {
      var front, last := rows[..|rows| - 1], rows[|rows| - 1];
      var k := FrontQuota(last, p, n);
      assert front + [last] == rows && IdsAscend(front, last.id) && last.id < next;
      hide Trim, IdsAscend;
      TrimAscends(front, p, k, last.id);
      TrimSnoc(front, last, p, n);
      AscendSnoc(Trim(front, p, k), last, next);
      AscendBelow(Trim(front, p, k), last.id, next);
    }
  }

  lemma {:induction false} DropAscends(rows: seq<EventRow>, p: EventRow -> bool, next: nat)
    requires IdsAscend(rows, next)
    ensures IdsAscend(Drop(rows, p), next)
    decreases |rows|
  {
    Nothing(p, 0);
    if rows != [] {
      var front, last := rows[..|rows| - 1], rows[|rows| - 1];
      assert front + [last] == rows && IdsAscend(front, last.id) && last.id < next;
      hide Drop, IdsAscend;
      DropAscends(front, p, last.id);
      Snoc(front, last, p);
      AscendSnoc(Drop(front, p), last, next);
      AscendBelow(Drop(front, p), last.id, next);
    }
  }

  lemma OthersHold(table: MappingTable, others: MappingTable, sim: string, st: Store)
    requires forall s :: Holds(table, s, MappingsOf(st, s))
    requires others == map key | key in table && key.0 != sim :: table[key]
    ensures Holds(others, sim, [])
    ensures forall s | s != sim :: Holds(others, s, MappingsOf(st, s))
  {
    forall s | s != sim ensures Holds(others, s, MappingsOf(st, s)) {
      assert Holds(table, s, MappingsOf(st, s));
    }
  }

  /** Inserts a simulation's mappings, numbered from zero, into a table without any. */
  method InsertNumbered(table: MappingTable, sim: string, mappings: seq<RuntimeMapping>)
    returns (filled: MappingTable)
    requires Holds(table, sim, [])
    ensures Holds(filled, sim, mappings)
    ensures forall s, listed | s != sim && Holds(table, s, listed) :: Holds(filled, s, listed)
  {
    filled := table;
    for index := 0 to |mappings|
      invariant Holds(filled, sim, mappings[..index])
      invariant forall s, n: nat | s != sim :: (s, n) in filled <==> (s, n) in table
      invariant forall s, n: nat | s != sim && (s, n) in table :: filled[(s, n)] == table[(s, n)]
    {
      filled := filled[(sim, index) := mappings[index]];
    }
    assert mappings[..|mappings|] == mappings;
  }

  // -------------------------------------------------------------- the store class

  class SQLiteRuntimeStore {
    const journalLimit: nat
    var runtimeMappings: MappingTable
    var runtimeScenarios: map<string, Ownership>
    var runtimeEvents: seq<EventRow>
    var nextId: nat
    ghost var contents: Store

    ghost predicate Valid()
      reads this
    {
      && journalLimit >= 1
      && (forall sim :: Holds(runtimeMappings, sim, MappingsOf(contents, sim)))
      && runtimeScenarios == contents.states
      && Payloads(runtimeEvents) == contents.events
      && Filed(runtimeEvents) && IdsAscend(runtimeEvents, nextId)
    }

    constructor (limit: nat)
      requires limit >= 1
      ensures Valid() && journalLimit == limit && contents == EmptyStore
    {
      journalLimit := limit;
      runtimeMappings, runtimeScenarios, runtimeEvents, nextId := map[], map[], [], 1;
      contents := EmptyStore;
    }

    method Clear()
      requires Valid()
      modifies this
      ensures Valid() && contents == EmptyStore
    {
      runtimeMappings, runtimeScenarios, runtimeEvents := map[], map[], [];
      contents := EmptyStore;
    }

    method Mappings(sim: string) returns (mappings: seq<RuntimeMapping>)
      requires Valid()
      ensures mappings == MappingsOf(contents, sim)
    {
      SelectNumbered(runtimeMappings, sim, MappingsOf(contents, sim));
      mappings := SelectMappings(runtimeMappings, sim);
    }

    /** DELETE the simulation's rows, then INSERT the new ones numbered from zero. */
    method ReplaceMappings(sim: string, mappings: seq<RuntimeMapping>)
      requires Valid()
      modifies `runtimeMappings, `contents
      ensures Valid() && contents == RuntimeStore.ReplaceMappings(old(contents), sim, mappings)
    {
      hide Payloads, Filed, IdsAscend, Holds;
      ghost var before := contents;
      var others := map key | key in runtimeMappings && key.0 != sim :: runtimeMappings[key];
      OthersHold(runtimeMappings, others, sim, before);
      runtimeMappings := InsertNumbered(others, sim, mappings);
      contents := RuntimeStore.ReplaceMappings(contents, sim, mappings);
      assert forall s | s != sim :: MappingsOf(contents, s) == MappingsOf(before, s);
    }

    method ScenarioNames(sim: Option<string>) returns (names: set<string>)
      requires Valid()
      ensures names == RuntimeStore.ScenarioNames(contents, sim)
    {
      names := set name | name in runtimeScenarios && (sim == None || runtimeScenarios[name].simulation == sim.value);
    }

    method ScenarioState(name: string) returns (state: Option<string>)
      requires Valid()
      ensures state == RuntimeStore.ScenarioState(contents, name)
    {
      state := if name in runtimeScenarios then Some(runtimeScenarios[name].state) else None;
    }

    /** INSERT OR IGNORE. */
    method EnsureScenarioState(sim: string, name: string, state: string)
      requires Valid()
      modifies this
      ensures Valid() && contents == EnsureState(old(contents), sim, name, state)
    {
      if name !in runtimeScenarios {
        runtimeScenarios := runtimeScenarios[name := Ownership(sim, state)];
      }
      contents := EnsureState(contents, sim, name, state);
      assert forall s :: MappingsOf(contents, s) == MappingsOf(old(contents), s);
    }

    /** UPDATE, then a check that one row changed. */
    method SetScenarioState(name: string, state: string) returns (ok: bool)
      requires Valid()
      modifies this
      ensures Valid()
      ensures ok <==> SetState(old(contents), name, state).Some?
      ensures contents == SetState(old(contents), name, state).GetOr(old(contents))
    {
      var rowcount := if name in runtimeScenarios then 1 else 0;
      if name in runtimeScenarios {
        runtimeScenarios := runtimeScenarios[name := Ownership(runtimeScenarios[name].simulation, state)];
      }
      contents := SetState(contents, name, state).GetOr(contents);
      assert forall s :: MappingsOf(contents, s) == MappingsOf(old(contents), s);
      ok := rowcount == 1;
    }

    method AppendEvent(sim: string, event: Event)
      requires Valid() && event.simulationId == sim
      modifies this
      ensures Valid() && contents == RuntimeStore.AppendEvent(old(contents), journalLimit, sim, event)
    {
      var inserted := runtimeEvents + [EventRow(nextId, sim, event)];
      nextId := nextId + 1;
      PayloadsSnoc(runtimeEvents, EventRow(nextId - 1, sim, event));
      AscendSnoc(runtimeEvents, EventRow(nextId - 1, sim, event), nextId);
      hide Trim, Drop, Keep, NewestIds, Holds, IdsAscend;
      DeleteIsTrim(inserted, sim, journalLimit, nextId);
      PayloadsOfTrim(inserted, sim, journalLimit);
      TrimAscends(inserted, OwnedRow(sim), journalLimit, nextId);
      runtimeEvents := Drop(inserted, Surplus(sim, NewestIds(inserted, sim, journalLimit)));
      contents := RuntimeStore.AppendEvent(contents, journalLimit, sim, event);
      assert forall s :: MappingsOf(contents, s) == MappingsOf(old(contents), s);
    }

    method Events(sim: Option<string>) returns (events: seq<Event>)
      requires Valid()
      ensures events == EventsOf(contents, sim)
    {
      if sim == None {
        events := Payloads(runtimeEvents);
      } else {
        PayloadsOfKeep(runtimeEvents, sim.value);
        events := Payloads(Keep(runtimeEvents, OwnedRow(sim.value)));
      }
    }

    method ClearEvents(sim: Option<string>)
      requires Valid()
      modifies this
      ensures Valid() && contents == RuntimeStore.ClearEvents(old(contents), sim)
    {
      hide Drop, Holds, IdsAscend;
      if sim == None {
        runtimeEvents := [];
        NoRowsAscend(nextId);
      } else {
        PayloadsOfDrop(runtimeEvents, sim.value);
        DropAscends(runtimeEvents, OwnedRow(sim.value), nextId);
        runtimeEvents := Drop(runtimeEvents, OwnedRow(sim.value));
      }
      contents := RuntimeStore.ClearEvents(contents, sim);
      assert forall s :: MappingsOf(contents, s) == MappingsOf(old(contents), s);
    }
  }

  lemma NoRowsAscend(next: nat)
    ensures IdsAscend([], next)
  {
  }

  // ------------------------------------------- events filed under another name

  /** What `append_event` leaves in the table when the caller's id and the event's
      own id may differ. */
  function Inserted(rows: seq<EventRow>, id: nat, limit: nat, sim: string, event: Event): seq<EventRow> {
    Trim(rows + [EventRow(id, sim, event)], OwnedRow(sim), limit)
  }

  function SelectEvents(rows: seq<EventRow>, sim: string): seq<Event> {
    Payloads(Keep(rows, OwnedRow(sim)))
  }

  /** The two stores answer `events` alike after an append, exactly when the event
      carries the id it is appended under. */
  lemma AppendAgreesIff(rows: seq<EventRow>, id: nat, limit: nat, sim: string, event: Event, st: Store)
    requires limit >= 1 && Filed(rows) && Payloads(rows) == st.events
    ensures (forall s :: SelectEvents(Inserted(rows, id, limit, sim, event), s)
                      == EventsOf(AppendEvent(st, limit, sim, event), Some(s)))
      <==> event.simulationId == sim
  {
    var row := EventRow(id, sim, event);
    PayloadsSnoc(rows, row);
    if event.simulationId == sim {
      PayloadsOfTrim(rows + [row], sim, limit);
      forall s {
        PayloadsOfKeep(Inserted(rows, id, limit, sim, event), s);
      }
    } else {
      TrimSnoc(rows, row, OwnedRow(sim), limit);
      var front := Trim(rows, OwnedRow(sim), limit - 1);
      Snoc(front, row, OwnedRow(sim));
      PayloadsSnoc(Keep(front, OwnedRow(sim)), row);
      var answered := SelectEvents(Inserted(rows, id, limit, sim, event), sim);
      assert answered[|answered| - 1] == event;
      KeptMatch(AppendEvent(st, limit, sim, event).events, Owned(sim));
    }
  }

  lemma {:induction false} KeptMatch<T>(items: seq<T>, p: T -> bool)
    ensures forall i | 0 <= i < |Keep(items, p)| :: p(Keep(items, p)[i])
    decreases |items|
  {
    if items != [] {
      KeptMatch(items[..|items| - 1], p);
    }
  }
}
