/** One history of store operations, run against both backends. */
module StoreAgreement {
  import opened Wrappers
  import opened RuntimeModel
  import opened RuntimeStore
  import opened MemoryStore
  import opened SqliteStore

  datatype StoreStep =
    | ClearAll
    | PutMappings(simulation: string, mappings: seq<RuntimeMapping>)
    | Ensure(owner: string, name: string, state: string)
    | SetTo(name: string, state: string)
    | Append(event: Event)
    | ClearJournal(of: Option<string>)

  function Apply(st: Store, limit: nat, step: StoreStep): Store {
    match step
    case ClearAll => EmptyStore
    case PutMappings(sim, mappings) => ReplaceMappings(st, sim, mappings)
    case Ensure(owner, name, state) => EnsureState(st, owner, name, state)
    case SetTo(name, state) => SetState(st, name, state).GetOr(st)
    case Append(event) => AppendEvent(st, limit, event.simulationId, event)
    case ClearJournal(of) => ClearEvents(st, of)
  }

  function Run(limit: nat, steps: seq<StoreStep>): Store {
    if steps == [] then EmptyStore else Apply(Run(limit, steps[..|steps| - 1]), limit, steps[|steps| - 1])
  }

  /** Which steps of a history failed with "not deployed". */
  function Failures(limit: nat, steps: seq<StoreStep>): seq<bool> {
    if steps == [] then [] else
      var before := Run(limit, steps[..|steps| - 1]);
      var last := steps[|steps| - 1];
      Failures(limit, steps[..|steps| - 1]) + [last.SetTo? && SetState(before, last.name, last.state) == None]
  }

  method StepMemory(store: MemoryRuntimeStore, step: StoreStep) returns (failed: bool)
    requires store.Valid()
    modifies store
    ensures store.Valid()
    ensures store.Contents() == Apply(old(store.Contents()), store.journalLimit, step)
    ensures failed <==> step.SetTo? && SetState(old(store.Contents()), step.name, step.state) == None
  {
    failed := false;
    match step
    case ClearAll => store.Clear();
    case PutMappings(sim, mappings) => store.ReplaceMappings(sim, mappings);
    case Ensure(owner, name, state) => store.EnsureScenarioState(owner, name, state);
    case SetTo(name, state) =>
      var ok := store.SetScenarioState(name, state);
      failed := !ok;
    case Append(event) => store.AppendEvent(event.simulationId, event);
    case ClearJournal(of) => store.ClearEvents(of);
  }

  method StepSqlite(store: SQLiteRuntimeStore, step: StoreStep) returns (failed: bool)
    requires store.Valid()
    modifies store
    ensures store.Valid()
    ensures store.contents == Apply(old(store.contents), store.journalLimit, step)
    ensures failed <==> step.SetTo? && SetState(old(store.contents), step.name, step.state) == None
  {
    failed := false;
    match step
    case ClearAll => store.Clear();
    case PutMappings(sim, mappings) => store.ReplaceMappings(sim, mappings);
    case Ensure(owner, name, state) => store.EnsureScenarioState(owner, name, state);
    case SetTo(name, state) =>
      var ok := store.SetScenarioState(name, state);
      failed := !ok;
    case Append(event) => store.AppendEvent(event.simulationId, event);
    case ClearJournal(of) => store.ClearEvents(of);
  }

  /** After any history, each answer of each query, of one simulation or of all, and each
      failure on the way, is the same from both stores and the one the specification gives. */
  method RunBoth(limit: nat, steps: seq<StoreStep>, sim: string, name: string, of: Option<string>)
    returns (memoryMappings: seq<RuntimeMapping>, sqliteMappings: seq<RuntimeMapping>,
             memoryNames: set<string>, sqliteNames: set<string>,
             memoryState: Option<string>, sqliteState: Option<string>,
             memoryEvents: seq<Event>, sqliteEvents: seq<Event>,
             memoryFailures: seq<bool>, sqliteFailures: seq<bool>)
    requires limit >= 1
    ensures memoryMappings == sqliteMappings == MappingsOf(Run(limit, steps), sim)
    ensures memoryNames == sqliteNames == ScenarioNames(Run(limit, steps), of)
    ensures memoryState == sqliteState == ScenarioState(Run(limit, steps), name)
    ensures memoryEvents == sqliteEvents == EventsOf(Run(limit, steps), of)
    ensures memoryFailures == sqliteFailures == Failures(limit, steps)
  {
    hide Trim, Keep, Drop;
    var memory := new MemoryRuntimeStore(limit);
    var sqlite := new SQLiteRuntimeStore(limit);
    memoryFailures, sqliteFailures := [], [];
    for n := 0 to |steps|
      invariant memory.Valid() && sqlite.Valid()
      invariant memory.Contents() == sqlite.contents == Run(limit, steps[..n])
      invariant memoryFailures == sqliteFailures == Failures(limit, steps[..n])
    {
      assert steps[..n + 1][..n] == steps[..n];
      var failed := StepMemory(memory, steps[n]);
      memoryFailures := memoryFailures + [failed];
      failed := StepSqlite(sqlite, steps[n]);
      sqliteFailures := sqliteFailures + [failed];
    }
    assert steps[..|steps|] == steps;
    memoryMappings := memory.Mappings(sim);
    sqliteMappings := sqlite.Mappings(sim);
    memoryNames := memory.ScenarioNames(of);
    sqliteNames := sqlite.ScenarioNames(of);
    memoryState := memory.ScenarioState(name);
    sqliteState := sqlite.ScenarioState(name);
    memoryEvents := memory.Events(of);
    sqliteEvents := sqlite.Events(of);
  }
}
