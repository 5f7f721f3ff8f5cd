/** What deployments and resets leave in the store of a runtime. */
module DeploymentEffects {
  import opened Wrappers
  import opened RuntimeModel
  import opened RuntimeStore
  import opened RuntimeSemantics

  // ------------------------------------------------------------------------ filters

  /** The items at these places, which are all those that satisfy p, in their order. */
  ghost predicate Filters<T(!new)>(items: seq<T>, p: T -> bool, kept: seq<T>, places: seq<nat>) {
    && |places| == |kept|
    && (forall a | 0 <= a < |places| :: places[a] < |items| && items[places[a]] == kept[a] && p(kept[a]))
    && (forall a, b | 0 <= a < b < |places| :: places[a] < places[b])
    && (forall i: nat | i < |items| && p(items[i]) :: i in places)
  }

  lemma FilterSnoc<T(!new)>(items: seq<T>, last: T, p: T -> bool, kept: seq<T>, places: seq<nat>)
    requires Filters(items, p, kept, places)
    ensures p(last) ==> Filters(items + [last], p, kept + [last], places + [|items|])
    ensures !p(last) ==> Filters(items + [last], p, kept, places)
  {
    var all := items + [last];
    assert all[|items|] == last;
    assert forall i | 0 <= i < |items| :: all[i] == items[i];
    if p(last) {
      assert (places + [|items|])[|places|] == |items|;
    }
  }

  lemma {:induction false} DropFilters<T(!new)>(items: seq<T>, p: T -> bool) returns (places: seq<nat>)
    ensures Filters(items, x => !p(x), Drop(items, p), places)
    decreases |items|
  {
    if items == [] {
      places := [];
    } else {
      var front, last := items[..|items| - 1], items[|items| - 1];
      places := DropFilters(front, p);
      FilterSnoc(front, last, x => !p(x), Drop(front, p), places);
      assert front + [last] == items;
      if !p(last) {
        places := places + [|front|];
      }
    }
  }

  // --------------------------------------------------------------------- deployments

  ghost predicate Mentions(mappings: seq<RuntimeMapping>, name: string) {
    exists m | m in mappings :: m.scenarioName == Some(name)
  }

  lemma {:induction false} EnsuredStates(st: Store, sim: string, mappings: seq<RuntimeMapping>, name: string)
    ensures var after := EnsureAll(st, sim, mappings);
      && after.mappings == st.mappings && after.events == st.events
      && (name in after.states <==> name in st.states || Mentions(mappings, name))
      && (name in after.states ==>
            after.states[name] == if name in st.states then st.states[name] else Ownership(sim, "Started"))
    decreases |mappings|
  {
    if mappings != [] {
      var front, last := mappings[..|mappings| - 1], mappings[|mappings| - 1];
      EnsuredStates(st, sim, front, name);
      assert mappings == front + [last];
      assert Mentions(mappings, name) <==> Mentions(front, name) || last.scenarioName == Some(name);
    }
  }

  /** A bundle replaces the simulation's mappings, or with a reset everything there was; its
      scenarios start at Started unless they have a state already. */
  lemma DeployMeans(st: Store, sim: string, mappings: seq<RuntimeMapping>, resetExisting: bool, name: string)
    ensures var after := Deploy(st, sim, mappings, resetExisting);
      && after.events == (if resetExisting then [] else st.events)
      && after.mappings == (if resetExisting then map[] else st.mappings)[sim := mappings]
      && (if !resetExisting && name in st.states then name in after.states && after.states[name] == st.states[name]
          else if Mentions(mappings, name) then
            name in after.states && after.states[name] == Ownership(sim, "Started")
          else name !in after.states)
  {
    EnsuredStates(ReplaceMappings(if resetExisting then EmptyStore else st, sim, mappings), sim, mappings, name);
  }

  ghost predicate Elsewhere(name: string, m: RuntimeMapping) { m.scenarioName != Some(name) }

  /** One scenario's mappings take the place of those it had, behind all others of the
      simulation, and it starts in its initial state; nothing else changes. */
  lemma DeployScenarioMeans(st: Store, sim: string, mappings: seq<RuntimeMapping>, name: string, initial: string)
    returns (kept: seq<RuntimeMapping>, places: seq<nat>)
    ensures Filters(MappingsOf(st, sim), m => Elsewhere(name, m), kept, places)
    ensures var after := DeployScenario(st, sim, mappings, name, initial);
      && after.mappings == st.mappings[sim := kept + mappings]
      && after.states
           == st.states[name := Ownership(if name in st.states then st.states[name].simulation else sim, initial)]
      && after.events == st.events
  {
    var all := MappingsOf(st, sim);
    kept := Drop(all, InScenario(name));
    places := DropFilters(all, InScenario(name));
  }

  /** A reset of one simulation, or of all, returns its scenarios to Started and removes its
      events, the others in their order; mappings and owners stay. */
  lemma ResetMeans(st: Store, sim: Option<string>) returns (places: seq<nat>)
    ensures var after := ResetRuntime(st, sim);
      && after.mappings == st.mappings
      && after.states.Keys == st.states.Keys
      && (forall name | name in st.states ::
            after.states[name] == if Concerns(sim, st.states[name].simulation)
                                  then Ownership(st.states[name].simulation, "Started") else st.states[name])
      && Filters(st.events, (e: Event) => !Concerns(sim, e.simulationId), after.events, places)
  {
    if sim == None {
      places := [];
    } else {
      places := DropFilters(st.events, Owned(sim.value));
    }
  }

  ghost predicate Concerns(sim: Option<string>, simulation: string) { sim == None || sim == Some(simulation) }
}
