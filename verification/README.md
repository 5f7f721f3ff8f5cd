# SimuLoom in Dafny

SimuLoom turns an OpenAPI contract into a virtual service: it generates test data, runs
stateful scenarios on its own runtime or on WireMock, makes dependencies slow or failing on
purpose, and reports evidence of what was exercised. This project models the parts of it that
decide something over loops, stored state or whole runs, and proves what they promise.

`dafny verify dfyconfig.toml` checks everything. The modules follow the program:

| part | modules |
|---|---|
| pairwise generator | `PairIds`, `Pairwise`, `PairwiseOrder`, `PairwiseCoverage`, `PairwiseCases` |
| runtime stores, memory and SQLite | `RuntimeModel`, `RuntimeStore`, `MemoryStore`, `SqliteStore`, `StoreAgreement` |
| native runtime | `RuntimeSemantics`, `RuntimeAnswers`, `DeploymentEffects`, `NativeRuntime`, `Isolation`, `SharedNames` |
| scenarios, wire form, compiler, contract check | `Scenario`, `DefinitionLimits`, `Translation`, `WireAnswers`, `Compiler`, `HandlerOutcomes`, `CompilerCorrectness`, `Fleet`, `ContractCheck`, `ContractAcceptance`, `Shadowing` |
| behaviour profiles | `Profiles`, `ProfileRefinement`, `ProfileOutcomes` |
| validation plan, graph diagnostics, evidence | `Planner`, `ValidationPlan`, `Diagnostics`, `GraphFindings`, `Evidence`, `SimulationRun`, `SimulationEvidence` |
| revision comparison | `Comparison`, `ChangeReport`, `Evolution`, `Answers` |
| revisions | `Revisions`, `RevisionStore`, `RevisionRuns`, `RevisionNumbers` |
| reviews, releases, virtual clock, events | `Clock`, `Governance`, `GovernanceInvariant`, `GovernanceRuns`, `RuntimeResets`, `RuntimeRefinement`, `ReleasePolicy`, `SkippedRelease`, `ServiceOutcomes`, `ScenarioService` |
| templates | `Placeholders`, `ParameterOrder`, `Templates`, `TemplateOutcomes` |
| audit log | `Audit` |
| AI actions and background jobs | `ActionClaims`, `ActionOutcomes`, `JobClaims`, `JobOutcomes` |
| shared | `Wrappers`, `Json`, `Text`, `Sorting` |

Objects whose methods update fields are classes, and each of their methods is tied to a
function on the abstract state; the theorems are about those functions and about every run
made of them. A further set of theorems says what those functions mean for a caller without
naming them, down to statuses, header values, paths and order: `PairwiseOrder`, `RuntimeAnswers`,
`DeploymentEffects`, `WireAnswers`, `HandlerOutcomes`, `ContractAcceptance`, `ProfileOutcomes`,
`GraphFindings`, `ChangeReport`, `RevisionNumbers`, `ServiceOutcomes`, `TemplateOutcomes`,
`ActionOutcomes` and `JobOutcomes`.

Hashes and signatures are functions that a lemma assumes injective only where it says so. URL
splitting, regular expressions, path templates, JSON schemas and pattern checks are parameters.
A crash is a number of atomic writes that an operation survives.

## What turned out not to hold

Each of these is a lemma with a concrete input or an exact condition, next to what does
hold:

- The cap per operation is a pure truncation, but the global cap of 500 can drop a planned case
  from the compiled set (`PairwiseCases.PlannedNotCompiled`, `PairwiseCases.PlannedAmongCompiledIff`).
- Distinct triggers do not make handlers unambiguous: one without a body shadows a later one
  with a body (`ContractCheck.ValidButShadowed`, `Shadowing.CanAnswerIff`).
- A header asked for in two spellings with two values compiles to a mapping that accepts
  requests the handler refuses (`Compiler.CompiledExactIff`).
- Simulations that share a scenario name, as the eligibility journey does, are not isolated
  (`SharedNames.JourneyLeaks`, `SharedNames.IsolatedIffDisjoint`).
- A comparison without breaking changes keeps every walk but not every answer
  (`Answers.NonBreakingCanDiverge`, `Answers.NonBreakingRunsKeptIff`).
- Blocking breaking changes compares with the previous revision, not with what is released, and
  lets a released state be lost (`SkippedRelease.ReleasedStateLost`,
  `ReleasePolicy.DeploymentKeepsWalksIff`, `ReleasePolicy.NextReleaseKeepsWalks`).
- A runtime reset can leave a scenario in a state it does not declare
  (`GovernanceInvariant.RestartKeepsIff`, `RuntimeResets.RunGovernedIff`).
- After a crash and an edit by hand the history can list a revision that was never committed
  (`RevisionRuns.EditLeavesLeftover`, `RevisionRuns.ListedIff`).
- A template can lose a text without placeholders, exactly when a literal occurs in the name of an
  earlier parameter that can leave a placeholder (`ParameterOrder.AllReturnIff`,
  `Placeholders.LiteralInNameBreaks`). A literal in its own name, or in a later one, does no harm.
- A line of the audit log that is a JSON text, number, truth value or null is not reported as broken:
  the verification fails with an error (`Audit.VerifyLines`).
- The audit chain does not show events missing from the end (`Audit.TruncationStaysValid`).
- A rejection that overlaps an approval can leave an executed action recorded as rejected
  (`ActionClaims.OverlapMisleads`, `ActionClaims.RejectedAfterClaimIff`).

The handler of an `If-Match` header (src/simuloom/api/routes.py:1037-1047) answers a stale ETag
with 409 where section 13.1.1 of RFC 9110 offers 412; the model has a conflict outcome only.

## Model

| member | source | states |
|---|---|---|
| PairIds.PairIdRoundTrip | src/simuloom/core/pairwise.py:371-377 | Parsing a rendered pair id gives back the pair, so ids tell pairs apart |
| PairIds.MarkSelectsRightFactor | src/simuloom/core/pairwise.py:334-334 | The substring test for a factor selects exactly the pairs whose right factor it is |
| Pairwise.CoveringRows | src/simuloom/core/pairwise.py:313-350 | The loops over rows, values and sorted pairs compute the specified rows and the number of required pairs |
| Pairwise.GrowRows | src/simuloom/core/pairwise.py:325-336 | One more factor on every row, each time the best value, keeping the set of uncovered pairs up to date |
| Pairwise.PatchRows | src/simuloom/core/pairwise.py:338-349 | Uncovered pairs get rows of their own in id order until the cap, skipping pairs covered on the way |
| Pairwise.CoveringShape | src/simuloom/core/pairwise.py:313-350 | Rows are distinct, full width and in range, at every cap |
| Pairwise.CapTruncates | src/simuloom/core/pairwise.py:313-350 | For caps low <= high the rows for low are exactly the first rows for high |
| PairwiseOrder.StageUnique | src/simuloom/core/pairwise.py:320-349 | The rows of a stage are those of the code exactly when each earlier row is extended by the least value covering most open pairs, and each row added below the cap holds the open pair of least id, zero elsewhere, until none is open or the cap is reached |
| PairwiseOrder.FirstUnique | src/simuloom/core/pairwise.py:313-319 | The first stage is exactly the pairs of values of the first two factors, in order, cut at the cap |
| PairwiseCoverage.RequiredSize | src/simuloom/core/pairwise.py:353-360 | The number of required pairs is the sum over i < j of v_i * v_j |
| PairwiseCoverage.CoveringComplete | src/simuloom/core/pairwise.py:313-350 | A run shorter than its cap, or whose cap is at least the number of required pairs, covers every required pair |
| PairwiseCoverage.CoveringRowsCount | src/simuloom/core/pairwise.py:313-350 | Each row covers a pair no earlier row covers, so removing any row loses coverage |
| PairwiseCoverage.CompleteIff | src/simuloom/core/pairwise.py:313-350 | A capped run is complete exactly when the uncapped run has no more rows than the cap |
| PairwiseCoverage.CompleteBelowCap | src/simuloom/core/pairwise.py:313-350 | Never more rows than the sum over i < j of v_i * v_j, and complete when shorter than the cap or the cap reaches that sum |
| PairwiseCoverage.GreedyGain | src/simuloom/core/pairwise.py:326-333 | The value chosen for a row covers at least the average share of the pairs its factor could still cover |
| PairwiseCases.GenerateCases | src/simuloom/core/pairwise.py:36-82 | Operations in order, each with its rows, cut at 500 cases in all |
| PairwiseCases.CasesAre | src/simuloom/core/pairwise.py:36-82 | Operations with fewer than two factors have no cases; the others number the rows of their first twelve factors from one, each with the count of pairs, and the first five hundred cases of all are generated |
| PairwiseCases.OperationCasesTruncate | src/simuloom/core/service.py:765-767 | Per operation the cases for a smaller cap are the first cases for a larger one |
| PairwiseCases.PlannedAmongCompiledIff | src/simuloom/core/service.py:765-767 | Every case planned under the smaller cap is compiled under the larger exactly when the last planned case, its position computed as a sum of minima of the row totals and the cap, still comes before 500 |
| PairwiseCases.AllKeptWhenAllFit | src/simuloom/core/pairwise.py:80-81 | When the value counts alone bound the cases for the larger cap by 500, every planned case is compiled |
| PairwiseCases.TwoFactorRows | src/simuloom/core/pairwise.py:313-350 | Two factors take exactly v_0 * v_1 rows |
| PairwiseCases.PlannedNotCompiled | src/simuloom/core/pairwise.py:80-81 | Forty operations for which the global cap drops planned cases from the compiled set |
| RuntimeStore.JournalIsLastEvents | src/simuloom/runtime/memory.py:55-78 | Over any run a simulation sees exactly its last limit events since its last clear, in order, whatever the others do |
| RuntimeStore.TrimIsCut | src/simuloom/runtime/memory.py:59-63 | Deleting the surplus oldest owned events at their positions keeps the last ones and every event of others |
| MemoryStore.MemoryRuntimeStore.DeleteReversed | src/simuloom/runtime/memory.py:61-63 | Deleting from the highest index down, in place, removes exactly the intended events |
| MemoryStore.MemoryRuntimeStore.AppendEvent | src/simuloom/runtime/memory.py:55-63 | The journal after an append is the specified one |
| MemoryStore.MemoryRuntimeStore.SetScenarioState | src/simuloom/runtime/memory.py:49-53 | Sets the state of a registered scenario, fails for any other and changes nothing |
| SqliteStore.SQLiteRuntimeStore.AppendEvent | src/simuloom/runtime/sqlite.py:129-141 | Insert, then delete of all but the newest ids, leaves the specified journal |
| SqliteStore.SQLiteRuntimeStore.ReplaceMappings | src/simuloom/runtime/sqlite.py:80-91 | Delete and numbered inserts leave the mappings in order for the simulation, others untouched |
| SqliteStore.DeleteIsTrim | src/simuloom/runtime/sqlite.py:133-141 | Deleting the rows whose id is not among the newest n of their simulation is the in-place trim |
| SqliteStore.SelectNumbered | src/simuloom/runtime/sqlite.py:73-78 | Selecting by ordinal returns the mappings in the order they were inserted |
| SqliteStore.AppendAgreesIff | src/simuloom/runtime/sqlite.py:129-153 | The two stores answer events alike after an append exactly when the event carries the id it is stored under |
| StoreAgreement.RunBoth | src/simuloom/runtime/sqlite.py:67-162 | After any history both stores give the same mappings, states and failures, and the same names and events for one simulation or for all, those of one specification |
| RuntimeSemantics.FirstOfSortedIsBest | src/simuloom/adapters/native.py:120-137 | The first match after the stable sort is the match with least priority and then least index |
| RuntimeSemantics.BestIsLeast | src/simuloom/adapters/native.py:120-137 | No matching mapping has a smaller priority and index than the one selected |
| RuntimeSemantics.ExecuteOutcome | src/simuloom/adapters/native.py:138-168 | A request either fails as not deployed, or answers the selected reply or 404, moves only that mapping's scenario and files one event in the trimmed journal |
| RuntimeAnswers.ExecuteMeans | src/simuloom/adapters/native.py:102-211 | For any mappings: the one that answers has its verb, path, pattern, query values, last-spelled header values, body and state all in the request, and every other such mapping has a larger priority or place; it answers its own response or its fault, moves its scenario and files the event; if there is none the answer is 404 |
| NativeRuntime.NativeRuntimeAdapter.Execute | src/simuloom/adapters/native.py:102-168 | Executing on the memory store is the specified step, and changes nothing when it fails |
| NativeRuntime.NativeRuntimeAdapter.Deploy | src/simuloom/adapters/native.py:43-60 | Mappings replaced and their scenarios registered as specified, with and without reset |
| NativeRuntime.NativeRuntimeAdapter.DeployScenario | src/simuloom/adapters/native.py:74-95 | One scenario's mappings replaced behind the retained ones, its state set to the initial one |
| NativeRuntime.NativeRuntimeAdapter.ResetRuntimeState | src/simuloom/adapters/native.py:62-66 | The simulation's scenarios return to Started and its journal is cleared |
| DeploymentEffects.DeployMeans | src/simuloom/adapters/native.py:43-60 | A bundle replaces the mappings of its simulation, or with reset_existing everything in the store; its scenarios without a state start at Started |
| DeploymentEffects.DeployScenarioMeans | src/simuloom/adapters/native.py:74-95 | The mappings of one scenario are replaced behind all others of the simulation, which keep their order; it starts in the initial state, and nothing else changes |
| DeploymentEffects.ResetMeans | src/simuloom/adapters/native.py:62-66 | A reset of one simulation or of all returns its scenarios to Started and removes its events; mappings, owners and the order of other events stay |
| Scenario.FirstAcceptingIsHandler | src/simuloom/adapters/native.py:120-137 | The machine answers with a handler that accepts, all before it refusing, or with none when all refuse |
| Scenario.StepStaysDeclared | src/simuloom/models.py:535-567 | In a well formed definition a declared state leads only to declared states |
| DefinitionLimits.LimitsIff | src/simuloom/models.py:461-567 | Definitions of m states, k handlers and t topics each are well formed exactly within 50 states, 50 handlers and 50 topics a state, 200 handlers in all, waits of 1 ms to a day, statuses 100 to 599, delays to a minute and the seven verbs |
| HandlerOutcomes.TakesIff | src/simuloom/core/scenarios.py:105-135 | A handler takes exactly the requests that carry its verb, path, body, each own query parameter, each parameter of its path not overridden by one, and each header as last spelled |
| HandlerOutcomes.StepMeans | src/simuloom/adapters/native.py:138-168 | In each state the first handler to take a request answers with its status, body and own headers, JSON as content type unless it has its own, or with its fault under its wire name, and moves; without one nothing happens |
| Translation.ToWireMapping | src/simuloom/runtime/translation.py:48-83 | The dictionary built field by field is the specified wire form |
| Translation.TranslationRoundTripIff | src/simuloom/runtime/translation.py:14-83 | A mapping survives the way to the wire form and back exactly when it is canonical |
| Translation.TranslatedIsCanonicalIff | src/simuloom/runtime/translation.py:14-45 | A translated wire mapping is canonical exactly when no matcher is vague, its fault is not empty, and no fault stands beside a body |
| WireAnswers.TranslatedAsks | src/simuloom/runtime/translation.py:14-45 | A deployed dictionary is met by exactly the requests that have its method in any case, GET if it names none, its path, pattern, values and body, and none of what it wants absent, a vague matcher included |
| WireAnswers.TranslatedAnswers | src/simuloom/runtime/translation.py:14-45 | What is left out means priority 10, status 200, an empty body and no delay |
| WireAnswers.MatcherReturns | src/simuloom/runtime/translation.py:14-83 | Written out and read back, a matcher without a value asks for the empty text, and one for absence loses its value |
| Compiler.CompileScenarioMappings | src/simuloom/core/scenarios.py:95-163 | States in order, handlers in order, one mapping each as specified |
| HandlerOutcomes.CompiledInOrder | src/simuloom/core/scenarios.py:100-163 | The mapping at the place of each handler, counted over states and handlers, names its simulation, scenario, state and handler and carries its delay, states and priority 1 |
| HandlerOutcomes.HeadersAscend | src/simuloom/core/scenarios.py:119-123 | The headers of a handler are compiled in the order of their names, none lost or added |
| Compiler.CompiledExactIff | src/simuloom/core/scenarios.py:95-163 | The compiled mapping accepts exactly the handler's requests exactly when no header is asked for in two spellings with two values |
| Compiler.CompiledReplies | src/simuloom/core/scenarios.py:110-158 | The compiled response answers with the handler's status, headers and body, or its fault |
| Compiler.ScenarioNameInjective | src/simuloom/core/scenarios.py:15-16 | Scenario names of different simulations or scenarios differ, for ids without a colon |
| CompilerCorrectness.ExecuteSimulatesStep | src/simuloom/adapters/native.py:102-168 | Next to any other mappings, one request to a deployed compiled scenario is one step of its machine exactly when a handler accepts and no other mapping preempts it; otherwise the best other mapping answers and the scenario stays |
| CompilerCorrectness.RuntimeSimulatesMachine | src/simuloom/core/scenarios.py:95-163 | Over every request trace and next to any other mappings the state is the machine's on the requests not preempted, each answered as the machine answers; with no other mappings every answer is the machine's, 404 included |
| CompilerCorrectness.UndisturbedRunsMachine | src/simuloom/core/scenarios.py:95-163 | With only mappings of priority above 1 before a compiled scenario and none below 1 behind it, the runtime runs the machine on the whole trace, and answers what it answers |
| CompilerCorrectness.DeployScenarioDeploys | src/simuloom/core/service.py:485-510 | Deploying a compiled scenario, into any bundle whose scenarios are registered, puts it last in its initial state and establishes what the simulation theorem assumes |
| CompilerCorrectness.UrgentSplit | src/simuloom/adapters/native.py:120-137 | Among any mappings, the first match of a block of priority 1 is selected exactly when no mapping before it is as urgent and none after it more urgent; otherwise the block does not count |
| Fleet.ExecuteSimulatesFleet | src/simuloom/adapters/native.py:102-168 | With several scenarios in one simulation, the first in order of deployment whose state accepts takes its step and all others stay, unless another mapping preempts it |
| Fleet.RuntimeSimulatesFleet | src/simuloom/core/scenarios.py:95-163 | Over every request trace the states of all scenarios, and each answer, are those of the machines run side by side |
| Fleet.FleetStaysDeclared | src/simuloom/models.py:535-567 | From declared states every trace leaves all scenarios of a simulation in declared states |
| Fleet.DeploymentJoins | src/simuloom/adapters/native.py:74-95 | Deploying a scenario puts it behind the others, in its initial state, and leaves the states of the others alone |
| ContractCheck.ValidateScenarioContract | src/simuloom/core/scenarios.py:73-92 | Accepts exactly the definitions within size whose handlers all fit and whose triggers are distinct in each state |
| ContractCheck.CheckState | src/simuloom/core/scenarios.py:78-92 | Reports the fault of the first handler at fault, in the order of the checks |
| ContractAcceptance.AcceptedIff | src/simuloom/core/scenarios.py:19-92 | A definition is accepted exactly when its size is at most a million bytes, no two handlers of a state share verb, path and body, and each handler fits |
| ContractAcceptance.HandlerErrorMeans | src/simuloom/core/scenarios.py:19-72 | A handler fits when the first operation to route its request documents its status, exactly, by class or by default in that order, and that response accepts its body; otherwise it has the one fault that applies |
| ContractCheck.BodilessShadows | src/simuloom/core/scenarios.py:83-92 | A handler without a body takes all requests of a later one with a body, under another trigger |
| ContractCheck.SameTriggerOverlaps | src/simuloom/core/scenarios.py:83-92 | Two handlers with one trigger and no headers or query of their own cover each other |
| ContractCheck.ValidButShadowed | src/simuloom/core/scenarios.py:83-92 | A definition whose triggers are distinct with a handler no request reaches |
| Shadowing.CoversIff | src/simuloom/adapters/native.py:173-211 | One handler takes all of another's requests exactly when everything it asks, the other asks too |
| Shadowing.CanAnswerIff | src/simuloom/core/scenarios.py:83-92 | A handler can ever answer exactly when no earlier handler of its state covers it |
| Shadowing.ObeysIff | src/simuloom/core/evidence.py:216-245 | A handler passes its planned case exactly when the first handler covering it has its status and its target |
| Shadowing.UnshadowedObeys | src/simuloom/core/evidence.py:216-245 | A handler that is not shadowed and injects no fault passes its planned case |
| Profiles.ApplyBehaviorProfile | src/simuloom/core/behavior.py:10-86 | The rewriting loops give the specified bundle, and an unknown profile fails |
| ProfileRefinement.SlowRefines | src/simuloom/core/behavior.py:22-27 | On every trace the slow bundle gives the same answers and the same states as the base bundle |
| ProfileRefinement.UnavailableRefines | src/simuloom/core/behavior.py:29-48 | On every trace the same requests match and the same states are reached; matched answers are the failure |
| ProfileRefinement.IntermittentSelects | src/simuloom/core/behavior.py:50-86 | The intermittent bundle selects the copy, for its phase, of the mapping the base bundle selects |
| ProfileRefinement.IntermittentRefines | src/simuloom/core/behavior.py:50-86 | On every trace, from either phase, scenario states evolve as in the base run and hits without a scenario alternate strictly between normal and failure across all mappings |
| ProfileRefinement.DeployStartsAlike | src/simuloom/adapters/native.py:43-60 | Deploying base and intermittent bundle establishes what that theorem assumes, in the phase an earlier deployment left |
| ProfileRefinement.ResetStartsPhase | src/simuloom/adapters/native.py:62-66 | A runtime reset starts the alternation with a normal answer |
| ProfileOutcomes.SupportedIff | src/simuloom/core/behavior.py:7-20 | Exactly the four profiles are supported, and the normal one changes nothing |
| ProfileOutcomes.SlowOutcome | src/simuloom/core/behavior.py:22-27 | Named by its profile: over every trace the same answers and states, each mapping with the given delay |
| ProfileOutcomes.UnavailableOutcome | src/simuloom/core/behavior.py:29-48 | Over every trace each matched answer has the given status, the code and message of the outage and the headers Retry-After 5 and X-SimuLoom-Profile |
| ProfileOutcomes.IntermittentOutcome | src/simuloom/core/behavior.py:50-86 | Over every trace the stateless hits alternate between the normal answer and one with the given status, its code, Retry-After 1 and X-SimuLoom-Profile |
| ProfileOutcomes.RewrittenAreMarked | src/simuloom/core/behavior.py:22-48 | Every rewritten mapping carries the profile in its metadata and keeps all other entries |
| ProfileOutcomes.CopiesAreMarked | src/simuloom/core/behavior.py:50-86 | Each mapping of the intermittent bundle is one of the bundle that has its own scenario, unchanged, or a normal or degraded copy of one that has none, marked, named and bound to its phase |
| Isolation.InterleavingIsIsolated | src/simuloom/adapters/native.py:43-168 | Any interleaving, seen by one simulation, is its own run alone, and no request fails as not deployed, when no scenario name is shared |
| Isolation.GeneratedNamesAreOwned | src/simuloom/core/scenarios.py:15-16 | The names the compiler and the intermittent profile generate are never shared between simulations |
| SharedNames.JourneyLeaks | src/simuloom/core/compiler.py:240-290 | With the journey of one name in two simulations, for any name and any two, one that never submitted is told its request is in process; alone it gets 404 |
| SharedNames.JourneyNotIsolated | src/simuloom/core/compiler.py:240-290 | Under the one name the compiler gives the journey no two simulations are isolated |
| SharedNames.IsolatedIffDisjoint | src/simuloom/adapters/native.py:43-168 | All runs that keep to the scenario names permitted to each simulation are isolated exactly when no name is permitted to two simulations |
| Planner.ShortestPaths | src/simuloom/core/evidence.py:124-135 | The breadth-first search ends; its keys are exactly the reachable states and each path is a shortest walk |
| ValidationPlan.BuildScenarioValidationCases | src/simuloom/core/evidence.py:120-155 | The plan is the specified replays, scenario after scenario, and fails exactly beyond 500 cases |
| ValidationPlan.PlanSize | src/simuloom/core/evidence.py:137-154 | The plan has distance + 1 cases for every handler of every reachable state |
| ValidationPlan.PlanSizeUnique | src/simuloom/core/evidence.py:129-154 | The size does not depend on which shortest paths were found |
| ValidationPlan.ReplayChains | src/simuloom/core/evidence.py:141-152 | Each replay starts with its only reset, from the initial state, chains required states to new states and ends with its target handler |
| ValidationPlan.PlanPassesIff | src/simuloom/core/evidence.py:120-155 | The plan passes on the machine exactly when every handler of every reachable state answers its own request as it promises |
| Diagnostics.ReachableSet | src/simuloom/core/scenario_graph.py:9-17 | The second reachability loop finds exactly the states walks can reach |
| Diagnostics.ScenarioGraphDiagnostics | src/simuloom/core/scenario_graph.py:19-51 | The diagnostics loops give the specified list over that set |
| Diagnostics.FlaggedUnreachable | src/simuloom/core/scenario_graph.py:20-28 | A state is flagged unreachable exactly when it is declared and outside that set |
| GraphFindings.FindingsIff | src/simuloom/core/scenario_graph.py:19-51 | A list is that of the diagnostics exactly when it names every unreachable state, every state without exits and every handler leading back to its state once, in the order of states, kinds and handlers |
| Evidence.FullPercentageIff | src/simuloom/core/evidence.py:442-444 | The rounded percentage is 100 exactly when at most one in 20000 is missing |
| Evidence.RoundingExactIff | src/simuloom/core/evidence.py:442-444 | Two decimals tell full coverage apart for every count exactly below 20000 |
| Evidence.CoveredPairSource | src/simuloom/core/evidence.py:680-690 | A pair counts as covered exactly when a passing pairwise case reports it |
| Evidence.PairTotalSource | src/simuloom/core/evidence.py:680-690 | The total of an operation is the largest its cases report |
| Evidence.VerdictSound | src/simuloom/core/evidence.py:637-708 | A passing report with at most 500 scenario cases has every case passed, every declared state and transition exercised by one, and every pair covered when there are fewer than 20000 |
| Evidence.UnreachableForcesFailure | src/simuloom/core/scenario_graph.py:20-28 | On a runtime that shows only reachable states, a state flagged unreachable forces failure |
| SimulationEvidence.SimulationPassesIff | src/simuloom/core/evidence.py:482-708 | With all scenarios on one runtime, beside other mappings, and other cases before and after theirs, the verdict is passed exactly when all declared states are reachable, all handlers of reachable states keep their promises, the other cases pass and cover their pairs, and the journal holds no unmatched request; assuming nothing else takes a planned request |
| SimulationEvidence.ResetRunPassesIff | src/simuloom/core/evidence.py:512-708 | After a runtime reset and with scenario cases only, the verdict follows from the definitions: every state reachable, every handler served its own status, schema and target |
| SimulationRun.BlockRuns | src/simuloom/core/evidence.py:543-586 | On the runtime shared with other scenarios, a scenario's cases all pass exactly when they do on its own machine, with the same results |
| SimulationRun.CaseVerdict | src/simuloom/core/evidence.py:543-605 | A case of an unknown scenario fails; of a deployed one the result names the case and the states seen, and passes only in the planned ones; any other case passes exactly when it gets an answer that fits |
| SimulationRun.MissesCounted | src/simuloom/core/evidence.py:622-623 | The count of unmatched requests is that of the unmatched events in the journal |
| SimulationEvidence.TakenCaseFails | src/simuloom/core/evidence.py:543-586 | A case whose handler moves fails when another scenario or mapping takes its request |
| SimulationEvidence.LessUrgentPreemptNothing | src/simuloom/adapters/native.py:120-137 | Mappings of priority above 1 before the scenarios and none below 1 behind them preempt no planned request |
| Comparison.CompareScenarioRevisions | src/simuloom/core/scenario_comparison.py:12-61 | The list built through the helpers is the specified list of changes, with its two counts |
| Comparison.CompareHandlers | src/simuloom/core/scenario_comparison.py:64-98 | Handlers compared by name in sorted order: added, removed, or field by field |
| Comparison.NonBreakingIff | src/simuloom/core/scenario_comparison.py:12-98 | No breaking change is reported exactly when initial state, states, and every handler's name, request and target are kept |
| ChangeReport.ReportedIff | src/simuloom/core/scenario_comparison.py:12-117 | A change is reported exactly when it is the difference of one field, state or handler, at its path, with its kind, its breaking flag and the old and new payload on their sides |
| ChangeReport.ChangesInOrder | src/simuloom/core/scenario_comparison.py:12-98 | Each change is reported once: fields first, then states and handlers by name |
| ChangeReport.NothingReportedIff | src/simuloom/core/scenario_comparison.py:12-117 | Nothing is reported exactly when names, descriptions, initial states, reset targets, state names and every handler agree; order, timeouts and events do not matter |
| ChangeReport.BreakingAreCounted | src/simuloom/core/scenario_comparison.py:58-60 | The report counts exactly the breaking changes of its list |
| Evolution.WalksKeptIff | src/simuloom/core/scenario_comparison.py:12-98 | Every walk of the old definition has a walk of the new one with the same hops exactly when the start is the same and each moving handler of a reachable state has a partner that asks and moves alike |
| Evolution.WalkPreserved | src/simuloom/core/scenario_comparison.py:12-98 | Where that graph condition holds the copied walk is built hop by hop |
| Evolution.HistoryPreservesWalks | src/simuloom/core/scenario_comparison.py:12-98 | Along a chain of non-breaking revisions reachable states stay reachable at no greater distance |
| Evolution.ChainComparesNonBreaking | src/simuloom/core/scenario_comparison.py:12-98 | Any two revisions of such a chain compare without breaking changes |
| Answers.AnswersAgreeIff | src/simuloom/adapters/native.py:173-211 | Two lists of handlers answer alike every request both answer exactly when they do so on one request per compatible pair, asking what both ask |
| Answers.RunsKeptIff | src/simuloom/core/scenario_comparison.py:64-98 | Every run the old definition answers goes through the same states in the new one, with the same replies if asked, exactly when in each state each old handler's own request is answered and those joint requests agree |
| Answers.NonBreakingRunsKeptIff | src/simuloom/core/scenario_comparison.py:64-98 | After a comparison without breaking changes runs are kept exactly when those joint requests agree |
| Answers.NonBreakingCanDiverge | src/simuloom/core/scenario_comparison.py:69-78 | That check can fail: an added handler is not breaking and takes requests from an old one to another state |
| Answers.AppendedRunsAgree | src/simuloom/core/scenario_comparison.py:64-98 | With handlers only appended, runs the old revision answers go through the same states |
| Evolution.SkippedRevisionBreaks | src/simuloom/core/service.py:926-936 | Three definitions: the second breaks the first, the third compares clean with the second, and a state of the first is not reachable in it |
| SkippedRelease.SkippedDeploys | src/simuloom/core/service.py:926-936 | On the service with breaking changes blocked: a released first, a saved second and third revision, and a deployment of the third over the first, whatever the second broke |
| SkippedRelease.ReleasedStateLost | src/simuloom/core/service.py:926-936 | Such a run loses a state reachable in the running release |
| RevisionStore.ScenarioRevisionStore.Current | src/simuloom/core/scenario_revisions.py:49-78 | Adopts stored content that is not the head, by the specified writes, as many as the process survives |
| RevisionStore.ScenarioRevisionStore.Save | src/simuloom/core/scenario_revisions.py:91-128 | The specified writes and outcome, cut after any number of atomic writes |
| Revisions.PrefixKeeps | src/simuloom/core/scenario_revisions.py:49-128 | Any prefix of an operation's writes keeps the history numbered, pinned to ETags, adjacent revisions different, and committed revisions unchanged |
| Revisions.SaveLegal | src/simuloom/core/scenario_revisions.py:91-128 | Every write a save makes is one the history allows |
| RevisionRuns.RunKeeps | src/simuloom/core/scenario_revisions.py:49-128 | Over every run with crashes and outside edits: history without gaps from 1 to the head, and nothing committed ever changed |
| RevisionRuns.LookCommits | src/simuloom/core/scenario_revisions.py:49-78 | After a read returns, the head revision is the stored content |
| RevisionRuns.SaveSucceedsIff | src/simuloom/core/scenario_revisions.py:104-114 | With an expected ETag a save succeeds exactly when a scenario with that ETag is stored, as If-Match asks (section 13.1.1 of RFC 9110) |
| RevisionRuns.SaveStores | src/simuloom/core/scenario_revisions.py:115-128 | A successful save stores the content under the number and ETag it returns |
| RevisionNumbers.LookAdopts | src/simuloom/core/scenario_revisions.py:49-78 | A read of a scenario that is up to date writes nothing; of any other it adds what is stored as revision 1 by legacy-import, or as the next by external-change |
| RevisionNumbers.SaveAdds | src/simuloom/core/scenario_revisions.py:91-128 | A save is refused exactly when another ETag was expected, and leaves what it found; content already stored adds no revision, any other exactly the next one, by the saver |
| RevisionRuns.SecondEditorConflicts | src/simuloom/core/scenario_revisions.py:104-109 | Of two editors with one ETag the second to save a change is refused, with the current ETag and revision |
| RevisionRuns.CrashRecovers | src/simuloom/core/scenario_revisions.py:91-128 | After a crash anywhere in a save and the next read, the head is all of the new content or all of the old |
| RevisionRuns.ListedIff | src/simuloom/core/scenario_revisions.py:130-139 | The listing is the committed history exactly when no uncommitted revision file is left |
| RevisionRuns.CrashesLeaveNothing | src/simuloom/core/scenario_revisions.py:130-139 | Without outside edits the listing after a read is exactly the committed history, whatever crashed |
| RevisionRuns.EditLeavesLeftover | src/simuloom/core/scenario_revisions.py:130-139 | A crash and a file put back by hand make the listing show a revision never committed |
| Clock.FollowTimeouts | src/simuloom/core/service.py:599-606 | The loop follows due timeouts to the specified state, remainder and transitions, or gives up beyond one transition per state |
| Clock.FiresAt | src/simuloom/core/service.py:599-606 | An advance of exactly the timeout of a state takes it, one of less does not, and a state without a timeout only counts time |
| Clock.FiresOn | src/simuloom/core/service.py:599-606 | Time beyond the first timeout passes in the state it leads to |
| Clock.TimeConserved | src/simuloom/core/service.py:599-606 | Consumed timeouts and remainder add up to the elapsed time and no timeout is due at the end |
| Clock.WalkUnique | src/simuloom/core/service.py:599-606 | Those two laws determine walk and remainder |
| Clock.AdvanceComposes | src/simuloom/core/service.py:599-606 | If the sum can be advanced, so can its parts one after the other, to the same state and remainder with the transitions concatenated |
| Clock.OnceIff | src/simuloom/core/service.py:599-606 | Two advances could have been one exactly when together they make no more transitions than there are states |
| Clock.CycleRevisits | src/simuloom/core/service.py:599-606 | The cycle error means the timeouts came back to a state |
| ScenarioService.SimulationService.ConfigureScenario | src/simuloom/core/service.py:145-172 | The specified save behind validation and the contract check, with its outcome |
| ScenarioService.SimulationService.RequestReview | src/simuloom/core/scenario_approvals.py:46-66 | A pending review of a stored revision is appended, unless one is pending |
| ScenarioService.SimulationService.DecideReview | src/simuloom/core/scenario_approvals.py:68-94 | A pending review is decided once, any other answer leaves the list alone |
| ScenarioService.SimulationService.DeployScenario | src/simuloom/core/service.py:485-528 | Policy, contract, runtime and release record in the specified order and effect |
| ScenarioService.SimulationService.RollbackScenarioRelease | src/simuloom/core/service.py:540-554 | Deploys the revision of the named release as a rollback of it |
| ScenarioService.SimulationService.ResetScenario | src/simuloom/core/service.py:556-574 | The runtime state becomes the reset state of the latest release's definition |
| ScenarioService.SimulationService.ResetAllScenarios | src/simuloom/core/service.py:682-697 | Each deployed scenario moves to its own reset state |
| ScenarioService.SimulationService.AdvanceScenarioClock | src/simuloom/core/service.py:576-621 | The clock file and runtime state move as specified, and not at all on a cycle |
| ScenarioService.SimulationService.PublishScenarioEvent | src/simuloom/core/service.py:623-664 | Every deployed scenario takes its transition for the topic, and no lookup on the way fails |
| GovernanceInvariant.RunStaysGoverned | src/simuloom/core/service.py:145-664 | Over every run the runtime executes the latest release in a state that release declares, and releases and reviews stay pinned to committed revisions |
| GovernanceInvariant.AllResetStep | src/simuloom/core/service.py:682-697 | Resetting all scenarios keeps the invariant, releases and reviews, and puts each running scenario in the reset state of its running definition |
| GovernanceInvariant.RestartKeepsIff | src/simuloom/adapters/native.py:62-66 | A runtime reset, which sets every state to Started, keeps the invariant exactly when every running definition declares that state |
| RuntimeResets.RunStaysNear | src/simuloom/adapters/native.py:62-66 | With runtime resets at any time the same holds over every run, but for states a reset left at Started |
| RuntimeResets.RunGovernedIff | src/simuloom/adapters/native.py:62-66 | Such a run ends in declared states exactly when no scenario is left at Started without declaring it |
| RuntimeRefinement.RunStaysSound | src/simuloom/core/service.py:485-664 | Over every run of service operations, runtime requests and resets, the store holds the compiled mappings of exactly the scenarios the service takes to be running, in the states it takes them to be in |
| RuntimeRefinement.RunSeen | src/simuloom/core/service.py:485-664 | What the service keeps over such a run is what its own operations, runtime resets and one call per request taken by a scenario make of it |
| RuntimeRefinement.RequestExecutes | src/simuloom/adapters/native.py:102-168 | No request fails as not deployed, and the store after it is the runtime's |
| RuntimeRefinement.RuntimeServesReleases | src/simuloom/core/service.py:485-664 | So the runtime serves the compiled definitions of the latest releases, each in a declared state or Started |
| RuntimeRefinement.NothingDeployedSound | src/simuloom/core/service.py:485-528 | Before any deployment this holds of any store in which the simulation owns its names |
| GovernanceRuns.RunFollows | src/simuloom/core/scenario_releases.py:22-49 | Over every run committed revisions are kept, releases are only appended and decided reviews never change again |
| ServiceOutcomes.ConfigurationOutcome | src/simuloom/core/service.py:145-172 | A definition is saved exactly when it is well formed, fits the contract and meets the expected ETag, by a process that survives the two or three writes each step needs; otherwise it is refused for the first that fails; nothing but its files changes |
| ReleasePolicy.ReviewJoins | src/simuloom/core/scenario_approvals.py:46-66 | A review can be requested exactly when its revision is stored and has none pending; it joins as the next number with the revision and ETag stored, and approves nothing |
| ServiceOutcomes.ReviewRefusals | src/simuloom/core/scenario_approvals.py:46-66 | A review is refused for the first that applies of: unknown scenario, unknown revision, a review of it pending |
| ReleasePolicy.RunApproved | src/simuloom/core/scenario_approvals.py:99-112 | While approval is required every release, rollbacks included, has an approved review for exactly its revision and ETag |
| ReleasePolicy.DecisionApproves | src/simuloom/core/scenario_approvals.py:68-94 | A decision counts exactly when the review is pending, and adds exactly the approved revision and ETag to what is approved, or nothing |
| ServiceOutcomes.DecisionRecorded | src/simuloom/core/scenario_approvals.py:68-94 | A decision changes exactly the status and decider of its review, and is refused if the review is unknown or decided |
| ReleasePolicy.DeploymentStarts | src/simuloom/core/service.py:485-528 | A successful deployment runs the chosen revision from its initial state, appends one release pinned to it, and touches no other scenario |
| ReleasePolicy.EventReachesEach | src/simuloom/core/service.py:632-651 | An event moves each deployed scenario by its own transition for the topic, from the state it was in, whatever the order of the loop |
| ReleasePolicy.AfterEventIs | src/simuloom/core/service.py:643-651 | The transition taken is the one the current state declares for the topic |
| ReleasePolicy.OriginRepeats | src/simuloom/core/service.py:540-554 | Every chain of rollbacks ends at a release that is none, with the same revision, ETag and fingerprint |
| ReleasePolicy.ReleaseOrigin | src/simuloom/core/service.py:540-554 | Over every run each release has such an origin no later than itself |
| ReleasePolicy.RollbackSucceeds | src/simuloom/core/service.py:540-554 | Rolling back to any past release succeeds under any policy and runs the definition that release named |
| ReleasePolicy.DeployIff | src/simuloom/core/service.py:922-938 | A deployment succeeds exactly when the revision exists, fits, extends its predecessor where breaking changes are blocked, and has an approval for its content where one is required |
| ServiceOutcomes.DeploymentRefused | src/simuloom/core/service.py:485-497 | A deployment that is refused changes no more than reading does, and is refused for the first that applies of: unknown scenario, unknown revision, breaking changes, no approval, contract |
| ServiceOutcomes.ReleaseRecorded | src/simuloom/core/scenario_releases.py:22-49 | The release recorded has the next number, the ETag, fingerprint and number of handlers of its revision, the actor and the release rolled back to, if any |
| ServiceOutcomes.UnknownRefused | src/simuloom/core/service.py:540-606 | Reset, clock and rollback refuse a scenario that is unknown or not deployed and a release that is none, and change no more than reading does |
| ReleasePolicy.NextReleaseKeepsWalks | src/simuloom/core/service.py:922-938 | With breaking changes blocked, releasing the revision after the latest release keeps every walk of the running definition |
| ReleasePolicy.DeploymentKeepsWalksIff | src/simuloom/core/service.py:485-554 | Any successful deployment or rollback over a running definition keeps its walks exactly when the chosen revision keeps its reachable graph |
| ReleasePolicy.LookupsSucceed | src/simuloom/core/service.py:556-606 | On a deployed scenario the lookups behind reset and clock never fail, and a reset leaves it in the reset target of the running definition, or in its initial state when it declares none |
| ServiceOutcomes.UnreleasedGoverned | src/simuloom/core/service.py:556-606 | A scenario deployed before any release was recorded is reset, and its clock followed, by the definition stored |
| ReleasePolicy.ClockMovesIff | src/simuloom/core/service.py:576-621 | On a deployed scenario runtime state and clock file move to the end and remainder of the timeout walk exactly when it has at most one transition per state; on a cycle neither changes |
| ReleasePolicy.ClockAdvancesCompose | src/simuloom/core/service.py:576-621 | On the service, clock file included, two advances are one by the sum whenever that succeeds |
| Placeholders.Parameterise | src/simuloom/core/scenario_templates.py:86-88 | The loop rebinding the text replaces literal after literal |
| Placeholders.TextRoundTripIff | src/simuloom/core/scenario_templates.py:81-100 | With clean parameters and no literal in a name, in any orders, the round trip returns a text exactly when it has no placeholder of a parameter |
| Placeholders.TextRoundTrip | src/simuloom/core/scenario_templates.py:81-100 | What comes back otherwise: the text with its own placeholders filled in |
| ParameterOrder.AllReturnIff | src/simuloom/core/scenario_templates.py:81-100 | For any clean parameters: all texts without their placeholders come back in every rendering order exactly when no literal occurs in the name of an earlier parameter that can leave a placeholder |
| ParameterOrder.TwoReturnIff | src/simuloom/core/scenario_templates.py:86-88 | Of two parameters, exactly when the second's literal is not in the first's name |
| Placeholders.LiteralInNameBreaks | src/simuloom/core/scenario_templates.py:86-88 | For any parameter whose name contains the literal of another: replaced in one order the literal does not come back, in the other it does |
| Templates.ValueRoundTripIff | src/simuloom/core/scenario_templates.py:81-100 | The same through lists and objects, keys untouched: values without placeholders return when the parameters are in order, and only those when no literal is in a name |
| Templates.CreateThenRenderIff | src/simuloom/core/scenario_templates.py:17-74 | A template created from a valid definition renders with its literals to that definition, whatever is created after it, if its texts have no placeholder of a parameter and the parameters are in order; exactly then, if no literal is in a name |
| Templates.TemplatesLast | src/simuloom/core/scenario_templates.py:17-47 | No later creation changes a stored template |
| Templates.ScenarioTemplateStore.Create | src/simuloom/core/scenario_templates.py:17-47 | The checks in order, then the parameterised definition stored under a new id |
| Templates.ScenarioTemplateStore.Render | src/simuloom/core/scenario_templates.py:62-74 | Exactly the declared parameters are required; the stored definition is filled and checked |
| TemplateOutcomes.CreationOutcome | src/simuloom/core/scenario_templates.py:17-47 | A template is refused for the first that applies of a bad id, a taken id, an empty name or literal and a definition no longer valid; otherwise it joins the others, which stay, with its source and its parameter names in order |
| TemplateOutcomes.RenderingOutcome | src/simuloom/core/scenario_templates.py:62-74 | A rendering is refused for the first that applies of a bad id, no template, parameters missing or too many, listed in order, and a definition that is not valid |
| TemplateOutcomes.LiteralsReplacedAt | src/simuloom/core/scenario_templates.py:81-89 | At every place of a value, however deep, texts have their literals replaced, and everything else, keys included, stays |
| TemplateOutcomes.PlaceholdersFilledAt | src/simuloom/core/scenario_templates.py:92-100 | And likewise placeholders filled |
| Audit.VerifyLines | src/simuloom/core/audit.py:92-142 | Valid exactly when every line continues the chain; otherwise the first that does not, with total and last hash before it, or an error when that line is a JSON scalar |
| Audit.ChainedIff | src/simuloom/core/audit.py:92-142 | A log verifies exactly when no line is unreadable or scalar and each event names the algorithm, its own signature and the hash of the last event before it, if any |
| Audit.AuditLog.Append | src/simuloom/core/audit.py:34-77 | Any writer appends the next event of the file as it is, and refuses a broken one |
| Audit.LogIsNumbered | src/simuloom/core/audit.py:34-77 | Every log so built verifies and holds the contents in order numbered 1 to n |
| Audit.LastHashDetermines | src/simuloom/core/audit.py:92-142 | With injective signatures valid logs with one last hash hold the same events |
| Audit.AlteredEventBreaks | src/simuloom/core/audit.py:92-142 | Altering an event breaks the chain at its line or at the next event |
| Audit.TruncationStaysValid | src/simuloom/core/audit.py:92-142 | A log cut short verifies; only the last hash shows the loss |
| ActionClaims.ActionRow.Claim | src/simuloom/core/platform_store.py:689-698 | The guarded update lets a caller through exactly when the action is still proposed |
| ActionClaims.Handlers.Perform | src/simuloom/api/routes.py:718-800 | One step of one approve or reject request: read, claim, run, record |
| ActionClaims.AtMostOnce | src/simuloom/api/routes.py:718-800 | For any number of concurrent approvals and rejections the operation starts at most once |
| ActionClaims.NeverProposedAgain | src/simuloom/core/platform_store.py:665-698 | The status never returns to proposed |
| ActionOutcomes.HandledAlone | src/simuloom/api/routes.py:718-800 | A request nobody interrupts decides a proposed action, with the status and code of how the operation ended, and is refused with 409 by any other |
| ActionOutcomes.OthersRefused | src/simuloom/api/routes.py:718-800 | Among any others every approval but the one whose claim succeeded is refused with 409 |
| ActionOutcomes.AllAnswered | src/simuloom/api/routes.py:718-800 | Four turns each answer all requests in any order of turns; then the action is decided, and rejected if nothing ran |
| ActionClaims.StatusTells | src/simuloom/api/routes.py:718-800 | Unless a rejection read before the claim and wrote after it, rejected means nothing ran and executed means it ran and succeeded |
| ActionClaims.RejectedAfterClaimIff | src/simuloom/api/routes.py:787-800 | A claimed action can still be recorded as rejected exactly when it already is or a rejection is between read and write |
| ActionClaims.OverlapMisleads | src/simuloom/api/routes.py:787-800 | Both misleading endings: run and rejected, and rejected yet executed |
| JobClaims.PlatformStore.ClaimJob | src/simuloom/core/platform_store.py:441-448 | Claims a job exactly when it is queued |
| JobClaims.PlatformStore.ClaimNextJob | src/simuloom/core/platform_store.py:450-463 | Claims the first queued job by creation time and id, or finds none |
| JobClaims.JobRunner.ExecuteJob | src/simuloom/core/job_runner.py:18-42 | Executes a job exactly when it is queued, and leaves it succeeded or failed |
| JobClaims.JobRunner.ExecuteNext | src/simuloom/core/job_runner.py:44-49 | The worker executes the first queued job, or finds none |
| JobClaims.AtMostOncePerStart | src/simuloom/core/job_runner.py:18-53 | Between two startups a job executes at most once however many claim it, and at most once more than there were restarts |
| JobClaims.OnlyRestartRequeues | src/simuloom/core/platform_store.py:140-146 | Only recovery returns a running job to the queue |
| JobClaims.FinishedStays | src/simuloom/core/platform_store.py:441-489 | A finished job is never executed again, restarts included |
| JobOutcomes.NextIff | src/simuloom/core/platform_store.py:450-463 | The next job is the queued one with the least time stamp and, of those, the least id |
| JobOutcomes.StepAffects | src/simuloom/core/platform_store.py:428-489 | What creating, claiming, finishing and restarting do to each job, and that they leave every other one alone |
| JobOutcomes.BoundReached | src/simuloom/core/job_runner.py:18-53 | The bound of one start more than restarts is reached for every number of restarts |

## Left out

- OpenAPI value generation, factor extraction, edge cases, dataset and contract mappings: factors
  are given as counts of values, mappings of other origin as arbitrary mappings.
- HTTP, MCP and UI layers, authentication, the Ollama and WireMock clients, workspaces, secrets,
  integrations, bundle import and export, backups.
- Delays, metrics, wall-clock times, UUIDs and elapsed milliseconds.
- Python equality between `1`, `True` and `1.0` in JSON values: numbers are integers and distinct
  from truth values.
- Patterns and lengths of names, descriptions, paths and topics, and the response headers that are
  not allowed, are no part of a well formed definition.
- Letter case outside ASCII, in HTTP methods and header names.
- SQLite itself, file locks and fsync: tables are sequences and maps, one statement or one file
  replacement is one step.
- NativeRuntime.NativeRuntimeAdapter.Execute: over the memory store only; the SQLite store answers
  every query as the same specification does.
- `reset_existing` and the reset of all scenarios in the isolation theorem: they reach across
  simulations by design. The request without a simulation id is not modelled.
- Evidence.VerdictSound: real arithmetic in place of floating point.
- SimulationEvidence.SimulationPassesIff: under the hypothesis that no scenario deployed before another
  has a handler covering one of its reachable handlers and no other mapping preempts a planned request;
  otherwise a case can be taken, and fails if its handler moves (`SimulationEvidence.TakenCaseFails`).
  The stored definitions are those deployed. Response schemas are a predicate on a handler and the body
  of its answer; a case of another kind is a request and a predicate on its answer.
- ValidationPlan.BuildScenarioValidationCases: scenarios are given in id order; lookup of the
  operation id of a case is left out.
- `SimulationService.deploy` and the evidence run as actors in the lifecycle: they use stored
  mapping files and head definitions, which may be stale. Runs that start from scenarios deployed
  without any release are covered only by `Governance.Governing`.
- GovernanceInvariant.RunStaysGoverned: each service operation is atomic except a save or a read of
  revisions, which may crash; edits of scenario files from outside are in `RevisionRuns.RunKeeps`
  only. Runtime resets are added in `RuntimeResets.RunStaysNear`. A crash between runtime deployment
  and release record is not modelled. A request is addressed to a scenario here, and to the runtime in
  `RuntimeRefinement.RunStaysSound`. The stored mapping file, domain audit events and the event files
  are left out.
- RuntimeRefinement.RunStaysSound: for contracts no definition with a header in two spellings and two
  values fits (`Compiler.CompiledExactIff`); others compile to mappings that are not their machine.
- RevisionRuns.RunKeeps: scenario files are edited from outside but never removed; a save for a
  removed file would start again at revision 1.
- Templates.CreateThenRenderIff: parameters with placeholder characters in their literals or with `$` or
  `}` in their names are left out. A definition that passes its validators is stored as it was given.
- Audit.AuditLog.Append: the clock, rounding of durations and reading of events are left out; the
  file is a list of lines already split and parsed.
- JobClaims.AtMostOncePerStart: one process at a time; a second process that starts while another
  runs is a restart that loses nothing, which is not modelled.
- ActionClaims.AtMostOnce: one action; validation of its arguments counts as starting its operation.
- Clock.CycleRevisits: one direction; timeouts can come back to a state with too little time left to
  exceed one transition per state, and `Clock.OnceIff` gives the exact limit.
