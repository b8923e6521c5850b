# ABM result processing of the scenario store

This project models the scenario store's actions that process an
agent-based-model (ABM) result in `src/store/scenario/actions.ts`, and
proves properties of that model.

- `computeLoop` makes one pass over the raw agent records and builds five
  structures:
  - `agentIndexes`: agent id to position;
  - the tagged trip list;
  - `abmFilterData`: stringified attribute value to agent ids;
  - `timePaths`: hour bucket to busy agents, per-coordinate visitor lists and a
    stamp count;
  - `simpleTimeData`: 300-second slice to category to agent ids.

  It commits them to the store and then runs `buildLayers`.
- The heat part of `buildLayers` flattens the active time table into weighted
  points.
- The heat part of `updateLayers` prunes each in-range bucket's visitor lists
  in place, with `splice` inside `forEach`, and emits the non-empty ones.
- `filterAbmCore` collects excluded agent ids from a flag map. It narrows the
  active agent set and installs a pruned deep copy of the baseline time table
  as the active one.
- The acceptance rule and the polling loop of `updateWindLayer`.
- The two helpers `updateBridges` and `isNoiseScenarioMatching`.

Modules:

- `SeqUtil` holds generic sequence functions.
- `AbmTypes` holds the entities.
- `IndexBuilder` is the pass of `computeLoop`. Each structure is specified
  as a fold over the records or their path samples, and characterised in
  closed form. The loop (`BuildIndexes`) is proved to compute the specification
  (`IndexesOf`).
- `AbmFilter` holds the exclusion list, the agent filter and the deep copy.
- `HeatLayers` holds the flattening and the in-place pruning, over a
  `TimeTable` heap object.
- `WindPoller` holds the wind accept and poll rules.
- `ScenarioHelpers` holds `updateBridges` and `isNoiseScenarioMatching`.
- `ScenarioStore` is the store state as a class.

How the JavaScript data is represented:

- **`timePaths`** is a sparse JavaScript array, modelled as a sequence of
  slots:
  - `Hole` is an index never assigned (`Object.entries` skips it);
  - `Null` is what a hole becomes after `JSON.parse(JSON.stringify(..))`;
  - `Present(bucket)` is an assigned index.

  A bucket's `values` object is an association list in insertion order, which
  is the order `Object.entries` reports.
- **The time table** is a class, `HeatLayers.TimeTable`. `computeLoop` stores the
  same object in `abmTimePaths` and `activeTimePaths` (lines 518-519), and
  `Object.freeze` is shallow. So `updateLayers` pruning the active table also
  prunes the baseline. `ScenarioState.UpdateLayers` states this through the
  frame, and `ComputeLoop` establishes the aliasing.
- **The `splice`-in-`forEach` pass** is modelled as written (`Pruned`). An
  element that shifts into a removed slot is kept unexamined.
  `PrunedSkipsNeighbour` shows the effect, and `PrunedIsFilter` shows when the
  pass is a plain filter.
- **A JavaScript TypeError** aborts the action at the point where it is
  raised, and is modelled as a `Fail` result. There are three causes:
  - a missing `who.path[i]` in `computeLoop`, and `filterSet[key]` undefined
    for a non-`true` flag in `filterAbmCore`, both throw before anything is
    committed, so the state is unchanged;
  - dereferencing a `null` bucket in `updateLayers` throws after the earlier
    in-range buckets have already been pruned in place, so those stay
    pruned (`UpdateOutcome` keeps them). When this happens inside
    `filterAbmCore`, the narrowed `activeAbmSet` and the filtered
    `activeTimePaths` have already been committed and stay installed.
- **Trip tagging** writes `agent` into the trip objects of the records
  themselves. The pass therefore also yields the records with their trips
  tagged (`TaggedRecords`), and those are what `computeLoop` commits as
  `activeAbmSet`. `TaggedTripsShared` shows the active set and the trip list
  hold the same trips.

Behaviours of the code that a reader might not expect:

- A flag of exactly `true` keeps that value's agents. Every other flag value
  excludes them.
- `filterAbmCore` narrows the current active agent set, so successive filters
  accumulate. It does not narrow the full agent set.
- An agent id is pushed once per qualifying attribute entry, with no dedupe. Two
  keys sharing a value string list the id twice.
- `filterAbmCore` prunes only `busyAgents` in the copy, removing the excluded
  ids. The visitor lists are pruned against `busyAgents` afterwards, by the
  `updateLayers("all")` it dispatches, and only within the selected range.
- `updateLayers` keeps buckets and coordinates whose lists become empty. It only
  stops emitting a point for them.
- Every hour below 8 is a hole of the baseline table (`EarlyHoles`), since
  `h = floor(t/3600) + 8`. In the deep copy those holes become `null`. When the
  table has any bucket, a selected range that reaches below hour 8 therefore
  makes the `updateLayers` run inside `filterAbmCore` throw
  (`FilteredHoleFails`).

## Model

| member | source | states |
|---|---|---|
| IndexBuilder.AgentIndexLastWins | src/store/scenario/actions.ts:427-431 | an id is a key of `agentIndexes` iff some record carries it, and its entry is the position of the last record with that id |
| IndexBuilder.AgentIndexOnePerAgent | src/store/scenario/actions.ts:427-431 | with distinct ids there is one entry per record, and each record's id maps to its own position |
| IndexBuilder.TripsLength | src/store/scenario/actions.ts:434-440 | the trip list has as many entries as the records have trips in total |
| IndexBuilder.TripsInOrder | src/store/scenario/actions.ts:434-440 | trip `i` of record `k` sits right after all trips of the records before `k`, with `agent` set to record `k`'s id and every other field kept |
| IndexBuilder.AddEntriesGet | src/store/scenario/actions.ts:444-451 | filing one record appends its id to each value's list once per qualifying entry with that value, and creates exactly the keys that gain an id |
| IndexBuilder.FilterIndexContents | src/store/scenario/actions.ts:444-451 | each value's list in `abmFilterData` is the ids of all records, in input order, repeated once per qualifying entry with that value; a value is a key iff that list is non-empty |
| IndexBuilder.CountValuePositive | src/store/scenario/actions.ts:445-446 | a record files its id under a value iff one of its entries has that value and a key other than `id`/`source` and a value other than `unknown`/`nil` |
| IndexBuilder.FilterIdsMembers | src/store/scenario/actions.ts:444-451 | an id is listed under a value iff some record with that id has a qualifying entry with that value |
| IndexBuilder.PutEffect | src/store/scenario/actions.ts:463-466 | assigning bucket `h` sets index `h`, keeps every other existing index, and leaves the indices added by growing the array as holes |
| IndexBuilder.AddVisitEffect | src/store/scenario/actions.ts:469-472 | a visit changes only that coordinate's list, appending the id unless it is already there, and adds the coordinate at the end of the key order if it is new |
| IndexBuilder.TableSlots | src/store/scenario/actions.ts:459-466 | the pass never leaves a `null` entry, and bucket `h` is present iff some sample falls into hour `h` |
| IndexBuilder.TableBuckets | src/store/scenario/actions.ts:461-507 | `stamps` of bucket `h` counts the samples in hour `h`; `busyAgents` lists the ids of the first samples in hour `h`; the coordinate keys are the distinct coordinates in first-seen order |
| IndexBuilder.TableVisitors | src/store/scenario/actions.ts:467-472 | each coordinate's list is the first-occurrence dedup of the ids sampled there: it holds exactly those ids, with no repeats, in first-seen order |
| IndexBuilder.TableNonEmptyLists | src/store/scenario/actions.ts:469-472 | every visitor list of the table built by the pass is non-empty |
| IndexBuilder.BusyIdsOfAgent | src/store/scenario/actions.ts:505-507 | one record adds its id to `busyAgents` only of the bucket of its first timestamp, once |
| IndexBuilder.BusyAgentsAreFirstSamples | src/store/scenario/actions.ts:505-507 | each bucket's `busyAgents` is, in input order, the ids of the records whose first timestamp falls into that hour |
| IndexBuilder.PushCategoriesGet | src/store/scenario/actions.ts:479-502 | one sample appends its id once under each of `"all"`, its mode, its age group and resident-or-visitor; categories that coincide get it several times |
| IndexBuilder.SliceContents | src/store/scenario/actions.ts:479-502 | the list under a slice and a category is, in sample order, the id of every sample in that slice, once per matching category, with no dedupe |
| IndexBuilder.SliceKeys | src/store/scenario/actions.ts:479-480 | a slice key exists iff some sample's timestamp rounds down to it in steps of 300 seconds |
| IndexBuilder.FirstUncovered | src/store/scenario/actions.ts:459-467 | the position of the first record with a timestamp whose path point is missing, or the number of records if there is none |
| IndexBuilder.AddToHour | src/store/scenario/actions.ts:461-507 | puts one sample into its hour bucket as the table's one-sample step says |
| IndexBuilder.AddToSlice | src/store/scenario/actions.ts:479-502 | puts one sample into its 300-second slice as the slices' one-sample step says |
| IndexBuilder.AddTimeData | src/store/scenario/actions.ts:459-508 | the sample loop reports a missing path point iff the record has fewer path points than timestamps; otherwise the table and the slices are those of all samples so far |
| IndexBuilder.AddTrips | src/store/scenario/actions.ts:434-440 | overwrites `agent` in each of the record's trips in place and appends them, in order, to the trip list; returns the record as the writes leave it, `TaggedRecord` |
| IndexBuilder.TaggedRecord | src/store/scenario/actions.ts:434-438 | a record after tagging keeps its agent block, path and timestamps, has trips iff it had them, and tagging it again gives the same trips |
| IndexBuilder.TaggedTripsShared | src/store/scenario/actions.ts:434-438 | trip `i` of record `k` after the pass is the trip list's entry after all trips of the records before `k`: the records and the trip list hold the same trips |
| IndexBuilder.AddFilterEntries | src/store/scenario/actions.ts:444-451 | files the record's qualifying entries as `AddEntries` does |
| IndexBuilder.AddRecord | src/store/scenario/actions.ts:427-511 | one iteration of the record loop keeps all five structures and the tagged records equal to their specifications over the records before it, or reports the missing path point |
| IndexBuilder.BuildIndexes | src/store/scenario/actions.ts:416-511 | the whole pass returns `IndexesOf`: the TypeError at the first missing path point, or the five structures and the records with their trips tagged |
| AbmFilter.Exclusions | src/store/scenario/actions.ts:684-692 | a failure always names a non-`true` setting's key |
| AbmFilter.CollectExclusions | src/store/scenario/actions.ts:681-692 | the loop over the settings returns the exclusion list or the error that `Exclusions` defines |
| AbmFilter.ExclusionsFailFirst | src/store/scenario/actions.ts:688 | a failure names the first non-`true` setting whose key has no group; every setting before it is `true` or has a group |
| AbmFilter.ExclusionsFailWhen | src/store/scenario/actions.ts:688 | a non-`true` setting whose key has no group makes the action fail |
| AbmFilter.ExclusionsMembers | src/store/scenario/actions.ts:684-692 | an id is excluded iff it is in the group of some setting whose flag is not exactly `true` |
| AbmFilter.KeepAgentsSpec | src/store/scenario/actions.ts:696 | the narrowed agent set holds exactly the records whose id is not excluded, each as often as in the current set and none of the excluded, as a subsequence of the current set |
| AbmFilter.KeepAgentsCumulative | src/store/scenario/actions.ts:679-696 | filtering twice equals filtering the original set once by both exclusion lists: successive filters accumulate |
| AbmFilter.KeepAgentsNone | src/store/scenario/actions.ts:696 | an empty exclusion list keeps the agent set unchanged |
| AbmFilter.WithoutSpec | src/store/scenario/actions.ts:699-701 | a pruned `busyAgents` list holds every non-excluded id as often as the original and no excluded id, as a subsequence of the original |
| AbmFilter.JsonCopy | src/store/scenario/actions.ts:694 | the deep copy has the same length and the same present buckets, and turns every hole into `null` |
| AbmFilter.FilteredTimePathsSpec | src/store/scenario/actions.ts:694-703 | in the filtered copy a present bucket keeps its `values` and `stamps` and loses exactly the excluded ids from `busyAgents` as a subsequence, every other id keeping its count; every other index is `null` |
| AbmFilter.FilterTimePaths | src/store/scenario/actions.ts:694-703 | the copy-and-prune loop returns `FilteredTimePaths` |
| HeatLayers.BucketPoints | src/store/scenario/actions.ts:558-566 | one point per coordinate of a bucket, in key order, weighted by its list's length |
| HeatLayers.Points | src/store/scenario/actions.ts:557-567 | a failure is a `null` entry of the table, and it is reported by its index |
| HeatLayers.PointsOk | src/store/scenario/actions.ts:557-558 | flattening succeeds iff the table has no `null` entry |
| HeatLayers.PointsAt | src/store/scenario/actions.ts:557-567 | the points are one per (bucket, coordinate) pair in table and key order; the point for coordinate `k` of bucket `h` has that coordinate and its list length as weight |
| HeatLayers.PointsLength | src/store/scenario/actions.ts:557-567 | the number of points is the number of (bucket, coordinate) pairs |
| HeatLayers.PointsFrom | src/store/scenario/actions.ts:557-567 | every point comes from some coordinate of some present bucket |
| HeatLayers.PointsWeights | src/store/scenario/actions.ts:562 | when no visitor list is empty, every weight is at least 1 |
| HeatLayers.PointsStopAtNull | src/store/scenario/actions.ts:557-558 | once a `null` entry has been reached, the rest of the table does not change the outcome |
| HeatLayers.BuildHeatPoints | src/store/scenario/actions.ts:557-567 | the nested flattening loop returns `Points` of the table |
| HeatLayers.AddBucketPoints | src/store/scenario/actions.ts:558-566 | the inner loop appends the bucket's points |
| HeatLayers.PruneVisitors | src/store/scenario/actions.ts:615-619 | the in-place `splice` pass, visiting only indices below the current length, leaves `Pruned` of the list |
| HeatLayers.PrunedSubseq | src/store/scenario/actions.ts:615-619 | the pruned list is a subsequence of the original |
| HeatLayers.PrunedKeepsBusy | src/store/scenario/actions.ts:615-619 | no id in the bucket's `busyAgents` loses an occurrence |
| HeatLayers.OnlyBusy | src/store/scenario/actions.ts:616 | the reference filter keeps exactly the ids that are busy |
| HeatLayers.PrunedIsFilter | src/store/scenario/actions.ts:615-619 | if no two neighbouring ids are both not busy, the pass equals the reference filter |
| HeatLayers.PrunedSkipsNeighbour | src/store/scenario/actions.ts:615-619 | when a list starts with two non-busy ids, the second becomes the first element of the pruned list, while the reference filter drops it |
| HeatLayers.PrunedSkipsExamples | src/store/scenario/actions.ts:615-619 | with no busy ids, `["a", "b"]` prunes to `["b"]` (the filter gives `[]`), and `["a", "b", "c"]` also prunes to `["b"]`, so further along a list a neighbouring pair can lose its second id |
| HeatLayers.PruneValuesAt | src/store/scenario/actions.ts:613-620 | pruning a bucket keeps every coordinate in place and prunes its list |
| HeatLayers.NonEmptyPointsMembers | src/store/scenario/actions.ts:621-627 | a point is emitted exactly for a non-empty list, with that coordinate and the list's length |
| HeatLayers.UpdateBucket | src/store/scenario/actions.ts:613-629 | the per-coordinate loop leaves the pruned bucket and emits the points of its non-empty lists |
| HeatLayers.PruneBucketSpec | src/store/scenario/actions.ts:613-620 | pruning leaves `busyAgents`, `stamps` and the coordinates unchanged; every list becomes a subsequence that keeps every busy id's count |
| HeatLayers.FirstNullInRange | src/store/scenario/actions.ts:611-613 | the first in-range `null` entry, with none before it |
| HeatLayers.UpdateSlots | src/store/scenario/actions.ts:611-631 | the update fails iff an in-range entry is `null`, and then reports the first one; only in-range present buckets change; without failure each bucket is its pruned form |
| HeatLayers.UpdatePoints | src/store/scenario/actions.ts:611-631 | the emitted points are exactly the points emitted by the buckets of the table |
| HeatLayers.EmittedSpec | src/store/scenario/actions.ts:612-627 | an in-range bucket emits a point exactly for each coordinate whose pruned list is non-empty, weighted by the pruned length, so every weight is at least 1 |
| HeatLayers.TimeTable.UpdateHeat | src/store/scenario/actions.ts:610-631 | the in-place update leaves the table and returns the points that `UpdateOutcome` defines: buckets visited before the first in-range `null` stay pruned, and that `null` fails the update |
| WindPoller.WindStep | src/store/scenario/actions.ts:180-205 | a fetch stores either nothing new or the fetched data, and asks for another fetch iff the result was not complete |
| WindPoller.WindStepStores | src/store/scenario/actions.ts:180-193 | a result is stored iff it is complete, nothing is stored, or it has strictly more features; a rejected result leaves the stored one unchanged |
| WindPoller.WindStepMonotone | src/store/scenario/actions.ts:183-193 | an incomplete result never lowers the stored feature count, and after any fetch something is stored |
| WindPoller.WindStepIdempotent | src/store/scenario/actions.ts:180-193 | receiving the same result again changes nothing |
| WindPoller.WindRun | src/store/scenario/actions.ts:162-206 | polling makes at most one fetch per supplied result, and at least one if there is any |
| WindPoller.WindRunPolls | src/store/scenario/actions.ts:198-205 | every fetch but the last returned an incomplete result; the last was complete unless the results ran out |
| WindPoller.WindRunComplete | src/store/scenario/actions.ts:188-205 | the first complete result ends polling after that fetch, and its data is what stays stored |
| WindPoller.WindRunMonotone | src/store/scenario/actions.ts:183-205 | across incomplete results the stored feature count never decreases |
| ScenarioHelpers.UpdateBridges | src/store/scenario/actions.ts:716-727 | the list starts with the horizontal Veddel bridge, has length 1 plus the number of set flags, names each optional bridge iff its flag is set, and has no repeats |
| ScenarioHelpers.UpdateBridgesFlags | src/store/scenario/actions.ts:716-727 | the flags can be read back from the list, and the list is in the fixed order of all bridges |
| ScenarioHelpers.IsNoiseScenarioMatching | src/store/scenario/actions.ts:729-735 | a data set matches iff its traffic quota and maximum speed both equal the scenario's |
| ScenarioHelpers.NoiseMatchingEquivalence | src/store/scenario/actions.ts:729-735 | matching is reflexive, symmetric and transitive |
| ScenarioStore.NoEarlyHours | src/store/scenario/actions.ts:461 | no sample falls into an hour below 8 |
| ScenarioStore.EarlyHoles | src/store/scenario/actions.ts:461-463 | every index below 8 of the table built by the pass is a hole |
| ScenarioStore.FilteredHoleFails | src/store/scenario/actions.ts:694-708 | if the selected range contains a hole of the baseline table, the heat update on the filtered copy fails |
| ScenarioStore.PassTableHeat | src/store/scenario/actions.ts:557-567 | on the table built by a successful pass, flattening succeeds and every weight is at least 1 |
| ScenarioStore.ScenarioState.BuildLayers | src/store/scenario/actions.ts:535-567 | returns the points of the active table |
| ScenarioStore.KeepTaggedRecords | src/store/scenario/actions.ts:696 | filtering the tagged active set keeps the same records as filtering the raw records and tagging them |
| ScenarioStore.ScenarioState.Commit | src/store/scenario/actions.ts:516-526 | stores the five structures, one fresh table object in both `abmTimePaths` and `activeTimePaths`, and the records with their tagged trips as the active set |
| ScenarioStore.ScenarioState.ComputeLoop | src/store/scenario/actions.ts:416-534 | on a missing path point the action fails and changes nothing; otherwise it commits `IndexesOf`, with one table in both table fields and the whole record set with its trips tagged as the active set, and returns points that cannot fail and all weigh at least 1 |
| ScenarioStore.ScenarioState.FilterAbmCore | src/store/scenario/actions.ts:678-713 | an unknown filter key fails and changes nothing; otherwise the active set is narrowed from the current active set, a fresh copy of the filtered baseline table is installed and pruned over the range, and the baseline object and contents stay as they were |
| ScenarioStore.ScenarioState.UpdateLayers | src/store/scenario/actions.ts:584-631 | for `"heatMap"` and `"all"` the active table is pruned in place and its points returned, and for other layers nothing changes; the baseline table is changed only through aliasing |
| ScenarioStore.ScenarioState.UpdateWindLayer | src/store/scenario/actions.ts:162-206 | the stored wind result and the number of fetches are those of `WindRun` over the successive results; no other field changes |

## Left out

- Network and result-store calls (`request_calculation`, `getSimulationResultForScenario`, `cityPyO`) are foreign I/O. The wind results arrive as a parameter, a finite sequence of responses.
- The one-second delay, the promises and the self-dispatch of `updateWindLayer` are scheduling. `UpdateWindLayer` runs the re-dispatch as a loop over the supplied responses. Running out of responses stands for "not yet finished".
- Layer building and map side effects are thin wrappers over libraries not shown here: deck.gl trips and aggregation layers, `animate`, `addLayerToMap`, `removeLayer`, `addSourceToMap`.
- The trips part of `buildLayers` and `updateLayers` is left out for the same reason. So are `heatMapType` and `currentTimeStamp`.
- Coordinate strings round-trip through `toString()` and `split(",").map(Number)`, which is floating-point parsing. Coordinates are opaque keys, and a heat point carries its key.
- Loader texts, `console.log`, the `loader`/`resultLoading` flags and the `updateLayerOrder` dispatch are user-interface state.
- Hour: timestamps are naturals. A negative or fractional JavaScript timestamp, and the object property that `timePaths[-1]` would create, are not modelled.
- Object key order: `Object.entries` lists integer-like keys of an object in ascending order. The model keeps coordinate keys, value strings and filter settings in insertion order.
- AbmFilter.ExclusionsFailFirst, AbmFilter.ExclusionsMembers: they assume distinct setting keys, as an object's keys are.
- Attribute values are already stringified, so the model carries no JavaScript value types. Only a flag that is exactly `true` differs from the rest.
- Before the first `computeLoop`, the store's fields are `null`. The constructor starts from empty tables instead.
- Record shape: `AgentRecord` always has an `agent` block and a `timestamps` list. A raw record without either makes `computeLoop` throw a TypeError at `who.agent.id` or `who.timestamps.forEach`, and that input cannot be written in the model.
- Noise scenarios compare two real numbers. `NaN`, and the loose equality between a number and a string, are not modelled.
