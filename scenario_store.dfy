/** The scenario store's ABM state and the actions that change it:
    `computeLoop` (with the `buildLayers` it dispatches), `filterAbmCore`,
    the heat part of `updateLayers`, and the polling of `updateWindLayer`. */
module ScenarioStore {
  import opened SeqUtil
  import opened AbmTypes
  import opened IndexBuilder
  import opened AbmFilter
  import opened HeatLayers
  import opened WindPoller

  /** No sample falls before the first hour bucket, so the index pass leaves
      every bucket below `HourOffset` a hole. */
  lemma {:induction false} NoEarlyHours(xs: seq<Sample>, h: nat)
    requires h < HourOffset
    ensures HourCount(xs, h) == 0
    decreases |xs|
  {
    if xs != [] {
      NoEarlyHours(xs[..|xs| - 1], h);
    }
  }

  lemma EarlyHoles(xs: seq<Sample>, h: nat)
    requires h < HourOffset && h < |TableOf(xs)|
    ensures TableOf(xs)[h].Hole?
  {
    NoEarlyHours(xs, h);
    TableSlots(xs, h);
  }

  /** On the deep copy, a hole of the baseline table is a `null` entry, so a
      filtered table whose range reaches back to such an hour makes the heat
      update throw. */
  lemma FilteredHoleFails(timePaths: seq<Slot>, spliceArr: seq<AgentId>, lo: int, hi: int, h: nat)
    requires h < |timePaths| && timePaths[h].Hole? && InRange(h, lo, hi)
    ensures UpdateOutcome(FilteredTimePaths(timePaths, spliceArr), lo, hi).points.Fail?
  {
    FilteredTimePathsSpec(timePaths, spliceArr, h);
    UpdateSlots(FilteredTimePaths(timePaths, spliceArr), lo, hi, h);
  }

  /** `buildLayers` on the table of a completed pass succeeds, and every
      point it emits has weight at least 1. */
  lemma PassTableHeat(abmCore: seq<AgentRecord>)
    requires IndexesOf(abmCore).Ok?
    ensures var points := Points(IndexesOf(abmCore).value.timePaths);
            points.Ok? && forall q :: q in points.value ==> q.w >= 1
  {
    var xs := Samples(abmCore);
    var table := IndexesOf(abmCore).value.timePaths;
    assert table == TableOf(xs);
    forall h | 0 <= h < |table|
      ensures !table[h].Null?
    {
      TableSlots(xs, h);
    }
    PointsOk(table);
    TableNonEmptyLists(xs);
    PointsWeights(table);
  }

  /** Tagging keeps every id, so filtering the records after the pass keeps
      the same records as filtering them before it, tagged. */
  lemma {:induction false} KeepTaggedRecords(rs: seq<AgentRecord>, spliceArr: seq<AgentId>)
    ensures KeepAgents(TaggedRecords(rs), spliceArr) == TaggedRecords(KeepAgents(rs, spliceArr))
    decreases |rs|
  {
    if rs != [] {
      KeepTaggedRecords(rs[1..], spliceArr);
      assert TaggedRecords(rs)[1..] == TaggedRecords(rs[1..]);
      var head := if rs[0].agent.id in spliceArr then [] else [rs[0]];
      var tail := KeepAgents(rs[1..], spliceArr);
      assert KeepAgents(rs, spliceArr) == head + tail;
      assert TaggedRecords(head + tail) == TaggedRecords(head) + TaggedRecords(tail);
    }
  }

  /** The ABM part of the scenario store's state. */
  class ScenarioState {
    var agentIndexes: map<AgentId, nat>
    var clusteredAbmData: ClusterTable
    /** The time table built from the whole agent set. */
    var abmTimePaths: TimeTable
    /** The time table the heat map is drawn from. */
    var activeTimePaths: TimeTable
    var abmTrips: seq<Trip>
    var abmSimpleTimes: SliceTable
    var activeAbmSet: seq<AgentRecord>
    /** `selectedRange`: the hour buckets the heat map shows. */
    var selectedRange: (int, int)
    var windResultGeoJson: Option<WindData>

    /** A store with no ABM result and no wind result yet. */
    constructor (range: (int, int))
      ensures agentIndexes == map[] && clusteredAbmData == map[]
      ensures fresh(abmTimePaths) && abmTimePaths.slots == []
      ensures fresh(activeTimePaths) && activeTimePaths.slots == []
      ensures abmTrips == [] && abmSimpleTimes == map[] && activeAbmSet == []
      ensures selectedRange == range && windResultGeoJson == None
    {
      agentIndexes := map[];
      clusteredAbmData := map[];
      abmTimePaths := new TimeTable([]);
      activeTimePaths := new TimeTable([]);
      abmTrips := [];
      abmSimpleTimes := map[];
      activeAbmSet := [];
      selectedRange := range;
      windResultGeoJson := None;
    }

    /** The heat part of `buildLayers`: the points of the active table. */
    method BuildLayers() returns (r: Result<seq<HeatPoint>>)
      ensures r == Points(activeTimePaths.slots)
    {
      r := BuildHeatPoints(activeTimePaths.slots);
    }

    /** `computeLoop`: build the indexes, commit them (one table object in
        both `abmTimePaths` and `activeTimePaths`), then `buildLayers`. A
        record with a missing path point throws before any commit. On a
        table from the pass `buildLayers` cannot fail, and every point has
        weight at least 1. */
    method ComputeLoop(abmCore: seq<AgentRecord>) returns (r: Result<seq<HeatPoint>>)
      modifies this
      ensures IndexesOf(abmCore).Fail? ==> r == Fail(IndexesOf(abmCore).error) && unchanged(this)
      ensures IndexesOf(abmCore).Ok? ==>
                && Committed(IndexesOf(abmCore).value)
                && activeAbmSet == TaggedRecords(abmCore)
                && fresh(abmTimePaths)
                && selectedRange == old(selectedRange)
                && windResultGeoJson == old(windResultGeoJson)
                && r == Points(IndexesOf(abmCore).value.timePaths)
                && r.Ok? && forall q :: q in r.value ==> q.w >= 1
    {
      var built := BuildIndexes(abmCore);
      if built.Fail? {
        return Fail(built.error);
      }
      Commit(built.value);
      r := BuildLayers();
      PassTableHeat(abmCore);
    }

    /** The state after `computeLoop`'s commits: the five structures of the
        pass, one table object in both table fields, and the whole agent set,
        with the trips the pass tagged, as the active one. */
    predicate Committed(ix: Indexes)
      reads this, abmTimePaths
    {
      && agentIndexes == ix.agentIndexes
      && clusteredAbmData == ix.filterData
      && activeTimePaths == abmTimePaths
      && abmTimePaths.slots == ix.timePaths
      && abmTrips == ix.trips
      && abmSimpleTimes == ix.simpleTimes
      && activeAbmSet == ix.records
    }

    /** `computeLoop`'s commits. */
    method Commit(ix: Indexes)
      modifies this
      ensures Committed(ix) && fresh(abmTimePaths)
      ensures selectedRange == old(selectedRange) && windResultGeoJson == old(windResultGeoJson)
    {
      var timePaths := new TimeTable(ix.timePaths);
      agentIndexes := ix.agentIndexes;
      clusteredAbmData := ix.filterData;
      abmTimePaths := timePaths;
      activeTimePaths := timePaths;
      abmTrips := ix.trips;
      abmSimpleTimes := ix.simpleTimes;
      activeAbmSet := ix.records;
    }

    /** `filterAbmCore`: collect the excluded ids, narrow the active agent
        set, and install a filtered deep copy of the baseline table as the
        active one; then `updateLayers("all")` prunes that copy. A setting
        whose key has no group throws before any commit. The baseline table
        is never touched. */
    method FilterAbmCore(filterSettings: FilterSettings) returns (r: Result<seq<HeatPoint>>)
      modifies this
      ensures abmTimePaths == old(abmTimePaths) && abmTimePaths.slots == old(abmTimePaths.slots)
      ensures Exclusions(old(clusteredAbmData), filterSettings).Fail? ==>
                r == Fail(Exclusions(old(clusteredAbmData), filterSettings).error) && unchanged(this)
      ensures Exclusions(old(clusteredAbmData), filterSettings).Ok? ==>
                var spliceArr := Exclusions(old(clusteredAbmData), filterSettings).value;
                var o := UpdateOutcome(FilteredTimePaths(old(abmTimePaths.slots), spliceArr),
                                       selectedRange.0, selectedRange.1);
                && activeAbmSet == KeepAgents(old(activeAbmSet), spliceArr)
                && fresh(activeTimePaths) && activeTimePaths.slots == o.slots
                && r == o.points
                && agentIndexes == old(agentIndexes)
                && clusteredAbmData == old(clusteredAbmData)
                && abmTrips == old(abmTrips)
                && abmSimpleTimes == old(abmSimpleTimes)
                && selectedRange == old(selectedRange)
                && windResultGeoJson == old(windResultGeoJson)
    {
      var excluded := CollectExclusions(clusteredAbmData, filterSettings);
      if excluded.Fail? {
        return Fail(excluded.error);
      }
      var spliceArr := excluded.value;
      var filteredTimePaths := FilterTimePaths(abmTimePaths.slots, spliceArr);
      var filteredAbm := KeepAgents(activeAbmSet, spliceArr);
      var table := new TimeTable(filteredTimePaths);
      activeAbmSet := filteredAbm;
      activeTimePaths := table;
      var heat := UpdateLayers("all");
      r := heat.value;
    }

    /** The heat part of `updateLayers(layer)`: it runs for `"heatMap"` and
        `"all"` and prunes the active table in place, over the selected
        range. The baseline table changes with it exactly when the two are
        the same object, as after `computeLoop`. */
    method UpdateLayers(layer: string) returns (r: Option<Result<seq<HeatPoint>>>)
      modifies activeTimePaths
      ensures layer == "heatMap" || layer == "all" ==>
                var o := UpdateOutcome(old(activeTimePaths.slots), selectedRange.0, selectedRange.1);
                activeTimePaths.slots == o.slots && r == Some(o.points)
      ensures !(layer == "heatMap" || layer == "all") ==>
                activeTimePaths.slots == old(activeTimePaths.slots) && r == None
      ensures abmTimePaths != activeTimePaths ==> abmTimePaths.slots == old(abmTimePaths.slots)
    {
      if layer == "heatMap" || layer == "all" {
        var points := activeTimePaths.UpdateHeat(selectedRange.0, selectedRange.1);
        r := Some(points);
      } else {
        r := None;
      }
    }

    /** `updateWindLayer` re-dispatched until a complete result arrives;
        `responses` are the results the successive fetches return. Returns
        the number of fetches. */
    method UpdateWindLayer(responses: seq<WindResponse>) returns (polls: nat)
      modifies this
      ensures windResultGeoJson == WindRun(old(windResultGeoJson), responses).stored
      ensures polls == WindRun(old(windResultGeoJson), responses).polls
      ensures agentIndexes == old(agentIndexes) && clusteredAbmData == old(clusteredAbmData)
      ensures abmTimePaths == old(abmTimePaths) && activeTimePaths == old(activeTimePaths)
      ensures abmTrips == old(abmTrips) && abmSimpleTimes == old(abmSimpleTimes)
      ensures activeAbmSet == old(activeAbmSet) && selectedRange == old(selectedRange)
    {
      ghost var run := WindRun(windResultGeoJson, responses);
      polls := 0;
      var completed := false;
      while polls < |responses| && !completed
        invariant polls <= |responses|
        invariant completed ==> run == Run(windResultGeoJson, polls)
        invariant !completed ==>
                    run == (var rest := WindRun(windResultGeoJson, responses[polls..]);
                            Run(rest.stored, rest.polls + polls))
        invariant agentIndexes == old(agentIndexes) && clusteredAbmData == old(clusteredAbmData)
        invariant abmTimePaths == old(abmTimePaths) && activeTimePaths == old(activeTimePaths)
        invariant abmTrips == old(abmTrips) && abmSimpleTimes == old(abmSimpleTimes)
        invariant activeAbmSet == old(activeAbmSet) && selectedRange == old(selectedRange)
      {
        var resultInfo := responses[polls];
        assert responses[polls..][1..] == responses[polls + 1..];
        var receivedCompleteResult := resultInfo.complete;
        var newResults := windResultGeoJson.None? ||
                          |resultInfo.data.features| > |windResultGeoJson.value.features|;
        if receivedCompleteResult || newResults {
          windResultGeoJson := Some(resultInfo.data);
        }
        completed := receivedCompleteResult;
        polls := polls + 1;
      }
      if !completed {
        assert responses[polls..] == [];
      }
    }
  }
}
