/** The embedded runtime adapter: deployment, execution and resets, in place. */
module NativeRuntime {
  import opened Wrappers
  import opened RuntimeModel
  import opened RuntimeStore
  import opened RuntimeSemantics
  import opened MemoryStore

  class NativeRuntimeAdapter {
    const store: MemoryRuntimeStore
    const re: FullMatch

    constructor (store: MemoryRuntimeStore, re: FullMatch)
      ensures this.store == store && this.re == re
    {
      this.store, this.re := store, re;
    }

    method Deploy(sim: string, mappings: seq<RuntimeMapping>, resetExisting: bool) returns (count: nat)
      requires store.Valid()
      modifies store
      ensures store.Contents() == RuntimeSemantics.Deploy(old(store.Contents()), sim, mappings, resetExisting)
      ensures count == |mappings|
    {
      if resetExisting {
        store.Clear();
      }
      store.ReplaceMappings(sim, mappings);
      ghost var replaced := store.Contents();
      for n := 0 to |mappings|
        invariant store.Contents() == EnsureAll(replaced, sim, mappings[..n])
      {
        assert mappings[..n + 1][..n] == mappings[..n];
        if mappings[n].scenarioName.Some? {
          store.EnsureScenarioState(sim, mappings[n].scenarioName.value, STARTED);
        }
      }
      assert mappings[..|mappings|] == mappings;
      count := |mappings|;
    }

    method DeployScenario(sim: string, mappings: seq<RuntimeMapping>, name: string, initial: string)
      returns (count: nat)
      requires store.Valid()
      modifies store
      ensures store.Contents() == RuntimeSemantics.DeployScenario(old(store.Contents()), sim, mappings, name, initial)
      ensures count == |mappings|
    {
      var existing := store.Mappings(sim);
      var retained: seq<RuntimeMapping> := [];
      for n := 0 to |existing|
        invariant retained == Drop(existing[..n], InScenario(name))
        invariant store.Contents() == old(store.Contents())
      {
        assert existing[..n + 1] == existing[..n] + [existing[n]];
        Snoc(existing[..n], existing[n], InScenario(name));
        if existing[n].scenarioName != Some(name) {
          retained := retained + [existing[n]];
        }
      }
      assert existing[..|existing|] == existing;
      store.ReplaceMappings(sim, retained + mappings);
      store.EnsureScenarioState(sim, name, initial);
      var _ := store.SetScenarioState(name, initial);
      count := |mappings|;
    }

    /** None, with the store unchanged, when the selected mapping's scenario is not deployed. */
    method Execute(sim: string, req: Request) returns (response: Option<Response>)
      requires store.Valid()
      modifies store
      ensures match RuntimeSemantics.Execute(re, store.journalLimit, old(store.Contents()), sim, req)
        case None => response == None && store.Contents() == old(store.Contents())
        case Some((after, reply)) => response == Some(reply) && store.Contents() == after
    {
      hide Trim, Best, SortByPriority, Matches, Reply;
      var mappings := store.Mappings(sim);
      FirstOfSortedIsBest(re, store.stateTable, mappings, req);
      var candidates := SortByPriority(mappings);
      var selected := None;
      var n := 0;
      while n < |candidates| && selected == None
        invariant n <= |candidates|
        invariant FirstMatch(re, store.stateTable, candidates, req)
          == if selected.Some? then selected else FirstMatch(re, store.stateTable, candidates[n..], req)
        decreases |candidates| - n, selected == None
      {
        if Matches(re, store.stateTable, candidates[n], req) {
          selected := Some(candidates[n]);
        }
        n := n + 1;
      }
      assert selected == RuntimeSemantics.Select(re, old(store.Contents()), sim, req);
      if selected.Some? && selected.value.newState.Some? && selected.value.scenarioName.Some? {
        var ok := store.SetScenarioState(selected.value.scenarioName.value, selected.value.newState.value);
        if !ok {
          return None;
        }
      }
      store.AppendEvent(sim, EventFor(sim, req, selected));
      response := Some(ReplyOf(selected));
    }

    method ResetRuntimeState(sim: Option<string>)
      requires store.Valid()
      modifies store
      ensures store.Contents() == ResetRuntime(old(store.Contents()), sim)
    {
      var names := store.ScenarioNames(sim);
      ghost var before := store.Contents();
      var left := names;
      while left != {}
        invariant left <= names && names <= before.states.Keys
        invariant store.Contents() == Restarted(before, names - left)
        decreases left
      {
        var name :| name in left;
        var _ := store.SetScenarioState(name, STARTED);
        left := left - {name};
        assert store.Contents().states == Restarted(before, names - left).states;
      }
      store.ClearEvents(sim);
    }
  }
}
