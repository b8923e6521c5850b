/** `filterAbmCore`: the exclusion list built from the filter flags, the
    narrowed agent set, and the filtered copy of the baseline time table. */
module AbmFilter {
  import opened SeqUtil
  import opened AbmTypes

  /** `clusteredAbmData`: attribute value -> agent ids. */
  type ClusterTable = map<string, seq<AgentId>>

  /** The filter settings in `Object.entries` order: a filter value and
      whether its flag is exactly `true`. */
  type FilterSettings = seq<(string, bool)>

  predicate DistinctKeys(settings: FilterSettings) {
    forall i, j :: 0 <= i < j < |settings| ==> settings[i].0 != settings[j].0
  }

  function Prepend(p: seq<AgentId>, r: Result<seq<AgentId>>): (q: Result<seq<AgentId>>)
    ensures q.Ok? <==> r.Ok?
    ensures q.Ok? ==> q.value == p + r.value
    ensures q.Fail? ==> q.error == r.error
  {
    match r
    case Ok(v) => Ok(p + v)
    case Fail(e) => Fail(e)
  }

  /** `spliceArr` as built by the loop over the settings, starting from the
      copy `filterSet`: a `true` flag deletes its key, any other flag appends
      every id filed under its key, and a key that is not (or no longer)
      present makes `filterSet[key].forEach` throw. */
  function Exclusions(filterSet: ClusterTable, settings: FilterSettings): (r: Result<seq<AgentId>>)
    ensures r.Fail? ==> exists j :: 0 <= j < |settings| && !settings[j].1 && r.error == UnknownFilterKey(settings[j].0)
    decreases |settings|
  {
    if settings == [] then Ok([])
    else
      var (key, keep) := settings[0];
      var rest := settings[1..];
      if keep then
        var r := Exclusions(filterSet - {key}, rest);
        assert r.Fail? ==> exists j :: 1 <= j < |settings| && !settings[j].1 && r.error == UnknownFilterKey(settings[j].0) by {
          if r.Fail? {
            var j :| 0 <= j < |rest| && !rest[j].1 && r.error == UnknownFilterKey(rest[j].0);
            assert rest[j] == settings[j + 1];
          }
        }
        r
      else if key !in filterSet then Fail(UnknownFilterKey(key))
      else
        var r := Exclusions(filterSet, rest);
        assert r.Fail? ==> exists j :: 1 <= j < |settings| && !settings[j].1 && r.error == UnknownFilterKey(settings[j].0) by {
          if r.Fail? {
            var j :| 0 <= j < |rest| && !rest[j].1 && r.error == UnknownFilterKey(rest[j].0);
            assert rest[j] == settings[j + 1];
          }
        }
        Prepend(filterSet[key], r)
  }

  lemma PrependPrepend(a: seq<AgentId>, b: seq<AgentId>, r: Result<seq<AgentId>>)
    ensures Prepend(a, Prepend(b, r)) == Prepend(a + b, r)
  {
    if r.Ok? {
      AppendAssoc(a, b, r.value);
    }
  }

  /** The loop over the filter settings that fills `spliceArr`. */
  method CollectExclusions(clusteredAbmData: ClusterTable, filterSettings: FilterSettings)
    returns (r: Result<seq<AgentId>>)
    ensures r == Exclusions(clusteredAbmData, filterSettings)
  {
    var filterSet := clusteredAbmData;
    var spliceArr: seq<AgentId> := [];
    var i := 0;
    assert filterSettings[i..] == filterSettings;
    assert Prepend(spliceArr, Exclusions(filterSet, filterSettings)) == Exclusions(filterSet, filterSettings) by {
      var e := Exclusions(filterSet, filterSettings);
      if e.Ok? {
        assert [] + e.value == e.value;
      }
    }
    while i < |filterSettings|
      invariant i <= |filterSettings|
      invariant Exclusions(clusteredAbmData, filterSettings) ==
                Prepend(spliceArr, Exclusions(filterSet, filterSettings[i..]))
    {
      var (key, value) := filterSettings[i];
      assert filterSettings[i..][1..] == filterSettings[i + 1..];
      if value {
        filterSet := filterSet - {key};
      } else {
        if key !in filterSet {
          assert Exclusions(filterSet, filterSettings[i..]) == Fail(UnknownFilterKey(key));
          return Fail(UnknownFilterKey(key));
        }
        var ids := filterSet[key];
        ghost var before := spliceArr;
        var n := 0;
        while n < |ids|
          invariant n <= |ids|
          invariant spliceArr == before + ids[..n]
        {
          spliceArr := spliceArr + [ids[n]];
          n := n + 1;
        }
        assert ids[..n] == ids;
        PrependPrepend(before, ids, Exclusions(filterSet, filterSettings[i + 1..]));
      }
      i := i + 1;
    }
    assert filterSettings[i..] == [];
    assert spliceArr + [] == spliceArr;
    r := Ok(spliceArr);
  }

  /** What the rest of the settings see after the first entry: its keys
      differ from the first key, so deleting that key changes nothing they
      look up. */
  lemma RestOfSettings(filterSet: ClusterTable, settings: FilterSettings)
    requires settings != [] && DistinctKeys(settings)
    ensures DistinctKeys(settings[1..])
    ensures var f := if settings[0].1 then filterSet - {settings[0].0} else filterSet;
            forall j :: 0 <= j < |settings| - 1 ==>
              && settings[1..][j] == settings[j + 1]
              && (settings[j + 1].0 in f <==> settings[j + 1].0 in filterSet)
              && (settings[j + 1].0 in f ==> f[settings[j + 1].0] == filterSet[settings[j + 1].0])
  {
    var rest := settings[1..];
    forall i, j | 0 <= i < j < |rest| ensures rest[i].0 != rest[j].0 {
      assert rest[i] == settings[i + 1] && rest[j] == settings[j + 1];
    }
    assert forall j :: 0 <= j < |rest| ==> rest[j] == settings[j + 1] && settings[j + 1].0 != settings[0].0;
  }

  /** With distinct keys (as in a JavaScript object) the deletions never
      matter: a failing pass reports the first entry whose flag is not `true`
      and whose key is missing. */
  lemma {:induction false} ExclusionsFailFirst(filterSet: ClusterTable, settings: FilterSettings)
    requires DistinctKeys(settings) && Exclusions(filterSet, settings).Fail?
    ensures exists j :: 0 <= j < |settings| && !settings[j].1 && settings[j].0 !in filterSet &&
              Exclusions(filterSet, settings).error == UnknownFilterKey(settings[j].0) &&
              forall i :: 0 <= i < j ==> settings[i].1 || settings[i].0 in filterSet
    decreases |settings|
  {
    var key := settings[0].0;
    var keep := settings[0].1;
    if keep || key in filterSet {
      var rest := settings[1..];
      var f := if keep then filterSet - {key} else filterSet;
      RestOfSettings(filterSet, settings);
      ExclusionsFailFirst(f, rest);
      var j :| 0 <= j < |rest| && !rest[j].1 && rest[j].0 !in f &&
               Exclusions(f, rest).error == UnknownFilterKey(rest[j].0) &&
               forall i :: 0 <= i < j ==> rest[i].1 || rest[i].0 in f;
      forall i | 0 <= i < j + 1
        ensures settings[i].1 || settings[i].0 in filterSet
      {
        if i > 0 {
          assert settings[i] == rest[i - 1];
        }
      }
      assert settings[j + 1] == rest[j];
    } else {
      assert Exclusions(filterSet, settings).error == UnknownFilterKey(settings[0].0);
    }
  }

  /** An entry whose flag is not `true` and whose key is missing makes the
      pass fail: deletions never bring a key back. */
  lemma {:induction false} ExclusionsFailWhen(filterSet: ClusterTable, settings: FilterSettings, j: nat)
    requires j < |settings| && !settings[j].1 && settings[j].0 !in filterSet
    ensures Exclusions(filterSet, settings).Fail?
    decreases |settings|
  {
    var (key, keep) := settings[0];
    if j > 0 && (keep || key in filterSet) {
      var f := if keep then filterSet - {key} else filterSet;
      assert settings[1..][j - 1] == settings[j];
      ExclusionsFailWhen(f, settings[1..], j - 1);
    }
  }

  /** With distinct keys, a successful pass excludes exactly the ids filed
      under the keys whose flag is not `true`. */
  lemma {:induction false} ExclusionsMembers(filterSet: ClusterTable, settings: FilterSettings, id: AgentId)
    requires DistinctKeys(settings) && Exclusions(filterSet, settings).Ok?
    ensures id in Exclusions(filterSet, settings).value <==>
              exists j :: 0 <= j < |settings| && !settings[j].1 && settings[j].0 in filterSet &&
                id in filterSet[settings[j].0]
    decreases |settings|
  {
    if settings != [] {
      var (key, keep) := settings[0];
      var rest := settings[1..];
      var f := if keep then filterSet - {key} else filterSet;
      RestOfSettings(filterSet, settings);
      ExclusionsMembers(f, rest, id);
      var r := Exclusions(filterSet, settings);
      if id in r.value && (keep || id !in filterSet[key]) {
        var j :| 0 <= j < |rest| && !rest[j].1 && rest[j].0 in f && id in f[rest[j].0];
        assert settings[j + 1] == rest[j];
      }
      if exists j :: 0 <= j < |settings| && !settings[j].1 && settings[j].0 in filterSet &&
             id in filterSet[settings[j].0] {
        var j :| 0 <= j < |settings| && !settings[j].1 && settings[j].0 in filterSet &&
                 id in filterSet[settings[j].0];
        if j > 0 {
          assert rest[j - 1] == settings[j];
        }
      }
    }
  }

  // ---------------------------------------------------------------------
  // Narrowing the agent set

  /** `abmData.filter(v => !spliceArr.includes(v.agent.id))`. */
  function KeepAgents(rs: seq<AgentRecord>, spliceArr: seq<AgentId>): (r: seq<AgentRecord>)
    ensures |r| <= |rs|
    decreases |rs|
  {
    if rs == [] then []
    else (if rs[0].agent.id in spliceArr then [] else [rs[0]]) + KeepAgents(rs[1..], spliceArr)
  }

  /** The narrowed set holds exactly the records whose id is not excluded,
      each as often as before, in their original relative order. */
  lemma {:induction false} KeepAgentsSpec(rs: seq<AgentRecord>, spliceArr: seq<AgentId>)
    ensures forall v :: v in KeepAgents(rs, spliceArr) <==> v in rs && v.agent.id !in spliceArr
    ensures forall v :: Count(KeepAgents(rs, spliceArr), v) == if v.agent.id in spliceArr then 0 else Count(rs, v)
    ensures IsSubseq(KeepAgents(rs, spliceArr), rs)
    decreases |rs|
  {
    if rs != [] {
      KeepAgentsSpec(rs[1..], spliceArr);
      var tail := KeepAgents(rs[1..], spliceArr);
      assert rs == [rs[0]] + rs[1..];
      if rs[0].agent.id in spliceArr {
        assert KeepAgents(rs, spliceArr) == tail;
        SubseqPrepend(tail, rs[1..], rs[0]);
      } else {
        assert ([rs[0]] + tail)[1..] == tail;
      }
    }
  }

  /** Filtering the already narrowed set again (as a second
      `filterAbmCore` does) excludes the union of both exclusion lists. */
  lemma {:induction false} KeepAgentsCumulative(rs: seq<AgentRecord>, first: seq<AgentId>, second: seq<AgentId>)
    ensures KeepAgents(KeepAgents(rs, first), second) == KeepAgents(rs, first + second)
    decreases |rs|
  {
    if rs != [] {
      KeepAgentsCumulative(rs[1..], first, second);
      var head := if rs[0].agent.id in first then [] else [rs[0]];
      var tail := KeepAgents(rs[1..], first);
      assert KeepAgents(rs, first) == head + tail;
      if head == [] {
        assert head + tail == tail;
      } else {
        assert (head + tail)[0] == rs[0] && (head + tail)[1..] == tail;
      }
    }
  }

  /** With nothing excluded the set is unchanged. */
  lemma {:induction false} KeepAgentsNone(rs: seq<AgentRecord>)
    ensures KeepAgents(rs, []) == rs
    decreases |rs|
  {
    if rs != [] {
      KeepAgentsNone(rs[1..]);
      assert rs == [rs[0]] + rs[1..];
    }
  }

  // ---------------------------------------------------------------------
  // The filtered copy of the time table

  /** `busyAgents.filter(v => !spliceArr.includes(v))`. */
  function Without(ids: seq<AgentId>, spliceArr: seq<AgentId>): (r: seq<AgentId>)
    ensures |r| <= |ids|
    decreases |ids|
  {
    if ids == [] then []
    else (if ids[0] in spliceArr then [] else [ids[0]]) + Without(ids[1..], spliceArr)
  }

  /** The filtered list is the list with exactly the excluded ids removed:
      every other id keeps all its occurrences, in order. */
  lemma {:induction false} WithoutSpec(ids: seq<AgentId>, spliceArr: seq<AgentId>)
    ensures forall v :: v in Without(ids, spliceArr) <==> v in ids && v !in spliceArr
    ensures forall v :: Count(Without(ids, spliceArr), v) == if v in spliceArr then 0 else Count(ids, v)
    ensures IsSubseq(Without(ids, spliceArr), ids)
    decreases |ids|
  {
    if ids != [] {
      WithoutSpec(ids[1..], spliceArr);
      var tail := Without(ids[1..], spliceArr);
      assert ids == [ids[0]] + ids[1..];
      if ids[0] in spliceArr {
        assert Without(ids, spliceArr) == tail;
        SubseqPrepend(tail, ids[1..], ids[0]);
      } else {
        assert ([ids[0]] + tail)[1..] == tail;
      }
    }
  }

  /** `JSON.parse(JSON.stringify(timePaths))`: array holes come back as
      `null`, buckets come back equal. */
  function JsonCopy(slots: seq<Slot>): (r: seq<Slot>)
    ensures |r| == |slots|
    ensures forall h :: 0 <= h < |r| ==> !r[h].Hole?
    ensures forall h :: 0 <= h < |r| ==> (r[h].Present? <==> slots[h].Present?)
    ensures forall h :: 0 <= h < |r| && slots[h].Present? ==> r[h] == slots[h]
  {
    seq(|slots|, h requires 0 <= h < |slots| => if slots[h].Hole? then Null else slots[h])
  }

  function PruneBusy(s: Slot, spliceArr: seq<AgentId>): Slot {
    match s
    case Present(b) => Present(b.(busyAgents := Without(b.busyAgents, spliceArr)))
    case _ => s
  }

  /** The copy after the loop over its entries: every non-null bucket keeps
      only the busy agents that are not excluded. */
  function FilteredTimePaths(timePaths: seq<Slot>, spliceArr: seq<AgentId>): (r: seq<Slot>)
    ensures |r| == |timePaths|
  {
    var copy := JsonCopy(timePaths);
    seq(|copy|, h requires 0 <= h < |copy| => PruneBusy(copy[h], spliceArr))
  }

  /** Only `busyAgents` changes: the same buckets stay present with the same
      coordinates, visitor lists and stamp counts, every hole becomes
      `null`, and the busy list loses exactly the excluded ids, every other
      id keeping all its occurrences. */
  lemma FilteredTimePathsSpec(timePaths: seq<Slot>, spliceArr: seq<AgentId>, h: nat)
    requires h < |timePaths|
    ensures var r := FilteredTimePaths(timePaths, spliceArr)[h];
            && (r.Present? <==> timePaths[h].Present?)
            && (!timePaths[h].Present? ==> r == Null)
            && (timePaths[h].Present? ==>
                  && r.bucket.values == timePaths[h].bucket.values
                  && r.bucket.stamps == timePaths[h].bucket.stamps
                  && IsSubseq(r.bucket.busyAgents, timePaths[h].bucket.busyAgents)
                  && (forall v :: v in r.bucket.busyAgents <==>
                                    v in timePaths[h].bucket.busyAgents && v !in spliceArr)
                  && forall v :: Count(r.bucket.busyAgents, v) ==
                                   if v in spliceArr then 0 else Count(timePaths[h].bucket.busyAgents, v))
  {
    if timePaths[h].Present? {
      WithoutSpec(timePaths[h].bucket.busyAgents, spliceArr);
    }
  }

  /** The loop over the copy's entries; `null` entries are skipped. */
  method FilterTimePaths(timePaths: seq<Slot>, spliceArr: seq<AgentId>) returns (filtered: seq<Slot>)
    ensures filtered == FilteredTimePaths(timePaths, spliceArr)
  {
    filtered := JsonCopy(timePaths);
    ghost var copy := filtered;
    var h := 0;
    while h < |filtered|
      invariant h <= |filtered| == |copy|
      invariant forall k :: 0 <= k < |filtered| ==>
                  filtered[k] == if k < h then PruneBusy(copy[k], spliceArr) else copy[k]
    {
      if filtered[h].Present? {
        var value := filtered[h].bucket;
        filtered := filtered[h := Present(value.(busyAgents := Without(value.busyAgents, spliceArr)))];
      }
      h := h + 1;
    }
  }
}
