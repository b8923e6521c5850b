/** Heat-point flattening of the time table: `buildLayers` emits one point per
    (bucket, coordinate); `updateLayers` first prunes each visitor list in
    place, within the selected hour range, and emits the non-empty ones. */
module HeatLayers {
  import opened SeqUtil
  import opened AbmTypes

  // ---------------------------------------------------------------------
  // buildLayers

  /** One point per coordinate of a bucket, weighted by its visitor count. */
  function BucketPoints(vs: seq<CoordVisitors>): (r: seq<HeatPoint>)
    ensures |r| == |vs|
    ensures forall k :: 0 <= k < |vs| ==> r[k] == HeatPoint(vs[k].coord, |vs[k].visitors|)
    decreases |vs|
  {
    if vs == [] then []
    else BucketPoints(vs[..|vs| - 1]) + [HeatPoint(vs[|vs| - 1].coord, |vs[|vs| - 1].visitors|)]
  }

  /** Number of (bucket, coordinate) pairs in a table. */
  function PairCount(slots: seq<Slot>): nat
    decreases |slots|
  {
    if slots == [] then 0
    else
      PairCount(slots[..|slots| - 1]) +
        (match slots[|slots| - 1] case Present(b) => |b.values| case _ => 0)
  }

  /** The points `buildLayers` collects, bucket by bucket in index order; a
      `null` entry (a hole of a copied table) makes `.values` throw. */
  function Points(slots: seq<Slot>): (r: Result<seq<HeatPoint>>)
    ensures r.Fail? ==> exists h :: 0 <= h < |slots| && slots[h].Null? && r.error == NullBucket(h)
    decreases |slots|
  {
    if slots == [] then Ok([])
    else
      var p := Points(slots[..|slots| - 1]);
      var h := |slots| - 1;
      assert p.Fail? ==> exists g :: 0 <= g < h && slots[g].Null? && p.error == NullBucket(g) by {
        if p.Fail? {
          var g :| 0 <= g < h && slots[..h][g].Null? && p.error == NullBucket(g);
        }
      }
      if p.Fail? then p
      else
        match slots[h]
        case Hole => p
        case Null => Fail(NullBucket(h))
        case Present(b) => Ok(p.value + BucketPoints(b.values))
  }

  /** `buildLayers` succeeds exactly on a table without `null` entries. */
  lemma {:induction false} PointsOk(slots: seq<Slot>)
    ensures Points(slots).Ok? <==> forall h :: 0 <= h < |slots| ==> !slots[h].Null?
    decreases |slots|
  {
    if slots != [] {
      var n := |slots| - 1;
      var p := slots[..n];
      PointsOk(p);
      assert forall h :: 0 <= h < n ==> slots[h] == p[h];
    }
  }

  /** On success there are as many points as (bucket, coordinate) pairs, and
      point `PairCount(slots[..h]) + k` is coordinate `k` of bucket `h`: one
      point per pair, weighted by its visitor count. */
  lemma {:induction false} PointsAt(slots: seq<Slot>, h: nat, k: nat)
    requires Points(slots).Ok?
    requires h < |slots| && slots[h].Present? && k < |slots[h].bucket.values|
    ensures |Points(slots).value| == PairCount(slots)
    ensures PairCount(slots[..h]) + k < PairCount(slots)
    ensures Points(slots).value[PairCount(slots[..h]) + k] ==
              HeatPoint(slots[h].bucket.values[k].coord, |slots[h].bucket.values[k].visitors|)
    decreases |slots|
  {
    var n := |slots| - 1;
    var p := slots[..n];
    PointsLength(p);
    if h < n {
      assert p[h] == slots[h] && p[..h] == slots[..h];
      PointsAt(p, h, k);
    } else {
      assert p == slots[..h];
    }
  }

  lemma {:induction false} PointsLength(slots: seq<Slot>)
    requires Points(slots).Ok?
    ensures |Points(slots).value| == PairCount(slots)
    decreases |slots|
  {
    if slots != [] {
      PointsLength(slots[..|slots| - 1]);
    }
  }

  /** Every point `buildLayers` emits is some coordinate of some bucket,
      weighted by its visitor count. */
  lemma {:induction false} PointsFrom(slots: seq<Slot>, q: HeatPoint)
    requires Points(slots).Ok? && q in Points(slots).value
    ensures exists h, k :: 0 <= h < |slots| && slots[h].Present? && 0 <= k < |slots[h].bucket.values| &&
              q == HeatPoint(slots[h].bucket.values[k].coord, |slots[h].bucket.values[k].visitors|)
    decreases |slots|
  {
    var n := |slots| - 1;
    var p := slots[..n];
    var ps := Points(p).value;
    if q in ps {
      PointsFrom(p, q);
      var h, k :| 0 <= h < |p| && p[h].Present? && 0 <= k < |p[h].bucket.values| &&
                  q == HeatPoint(p[h].bucket.values[k].coord, |p[h].bucket.values[k].visitors|);
      assert slots[h] == p[h];
    } else {
      var b := slots[n].bucket;
      var k :| 0 <= k < |BucketPoints(b.values)| && BucketPoints(b.values)[k] == q;
      assert q == HeatPoint(b.values[k].coord, |b.values[k].visitors|);
    }
  }

  /** On a table whose visitor lists are all non-empty (every table the index
      pass builds), every weight `buildLayers` emits is at least 1. */
  lemma PointsWeights(slots: seq<Slot>)
    requires Points(slots).Ok?
    requires forall h, k :: 0 <= h < |slots| && slots[h].Present? && 0 <= k < |slots[h].bucket.values| ==>
               slots[h].bucket.values[k].visitors != []
    ensures forall q :: q in Points(slots).value ==> q.w >= 1
  {
    forall q | q in Points(slots).value
      ensures q.w >= 1
    {
      PointsFrom(slots, q);
    }
  }

  /** `Points` on one more bucket. */
  lemma PointsSnoc(slots: seq<Slot>, key: nat)
    requires key < |slots| && Points(slots[..key]).Ok?
    ensures Points(slots[..key + 1]) ==
              match slots[key]
              case Hole => Points(slots[..key])
              case Null => Fail(NullBucket(key))
              case Present(b) => Ok(Points(slots[..key]).value + BucketPoints(b.values))
  {
    assert slots[..key + 1][..key] == slots[..key];
  }

  /** `buildLayers`' loop over the buckets. */
  method BuildHeatPoints(heatLayerData: seq<Slot>) returns (r: Result<seq<HeatPoint>>)
    ensures r == Points(heatLayerData)
  {
    var heatLayerFormed: seq<HeatPoint> := [];
    var key := 0;
    while key < |heatLayerData|
      invariant key <= |heatLayerData|
      invariant Points(heatLayerData[..key]) == Ok(heatLayerFormed)
    {
      PointsSnoc(heatLayerData, key);
      match heatLayerData[key] {
      case Hole =>
      case Null =>
        PointsStopAtNull(heatLayerData, key);
        return Fail(NullBucket(key));
      case Present(bucket) =>
        heatLayerFormed := AddBucketPoints(heatLayerFormed, bucket.values);
      }
      key := key + 1;
    }
    assert heatLayerData[..key] == heatLayerData;
    r := Ok(heatLayerFormed);
  }

  /** `buildLayers`' loop over the coordinates of one bucket. */
  method AddBucketPoints(heatLayerFormed0: seq<HeatPoint>, values: seq<CoordVisitors>)
    returns (heatLayerFormed: seq<HeatPoint>)
    ensures heatLayerFormed == heatLayerFormed0 + BucketPoints(values)
  {
    heatLayerFormed := heatLayerFormed0;
    var subKey := 0;
    while subKey < |values|
      invariant subKey <= |values|
      invariant heatLayerFormed == heatLayerFormed0 + BucketPoints(values[..subKey])
    {
      assert values[..subKey + 1][..subKey] == values[..subKey];
      heatLayerFormed := heatLayerFormed + [HeatPoint(values[subKey].coord, |values[subKey].visitors|)];
      subKey := subKey + 1;
    }
    assert values[..subKey] == values;
  }

  /** Once a prefix fails, the whole table fails with the same error. */
  lemma {:induction false} PointsStopAtNull(slots: seq<Slot>, n: nat)
    requires n < |slots| && Points(slots[..n + 1]).Fail?
    ensures Points(slots) == Points(slots[..n + 1])
    decreases |slots|
  {
    if n + 1 < |slots| {
      var m := |slots| - 1;
      assert slots[..m][..n + 1] == slots[..n + 1];
      PointsStopAtNull(slots[..m], n);
    } else {
      assert slots[..n + 1] == slots;
    }
  }

  // ---------------------------------------------------------------------
  // updateLayers: pruning a visitor list with splice inside forEach

  /** The list left by `list.forEach((v, i) => { if (!busy.includes(v))
      list.splice(i, 1) })`. Removing index `i` shifts the next element into
      `i` while iteration moves on to `i + 1`, so the element right after a
      removed one is kept without being examined. */
  function Pruned(a: seq<AgentId>, busy: seq<AgentId>): (r: seq<AgentId>)
    ensures |r| <= |a|
    decreases |a|
  {
    if a == [] then []
    else if a[0] in busy then [a[0]] + Pruned(a[1..], busy)
    else if |a| == 1 then []
    else [a[1]] + Pruned(a[2..], busy)
  }

  /** The in-place pass itself, with `forEach`'s rule that indices beyond the
      current length are not visited. */
  method PruneVisitors(visitors: seq<AgentId>, busyAgents: seq<AgentId>) returns (a: seq<AgentId>)
    ensures a == Pruned(visitors, busyAgents)
  {
    a := visitors;
    var len := |visitors|;
    var i := 0;
    assert a[..i] + Pruned(a[i..], busyAgents) == Pruned(visitors, busyAgents) by {
      assert a[..i] == [] && a[i..] == a;
    }
    while i < len
      invariant |a| <= len && i <= len
      invariant if i <= |a| then a[..i] + Pruned(a[i..], busyAgents) == Pruned(visitors, busyAgents)
                else a == Pruned(visitors, busyAgents)
    {
      if i < |a| {
        var v := a[i];
        if v !in busyAgents {
          PrunedStepRemove(a, i, busyAgents);
          a := a[..i] + a[i + 1..];
        } else {
          PrunedStepKeep(a, i, busyAgents);
        }
      }
      i := i + 1;
    }
    if i <= |a| {
      assert a[..i] == a && a[i..] == [];
    }
  }

  lemma PrunedStepKeep(a: seq<AgentId>, i: nat, busy: seq<AgentId>)
    requires i < |a| && a[i] in busy
    ensures a[..i + 1] + Pruned(a[i + 1..], busy) == a[..i] + Pruned(a[i..], busy)
  {
    assert a[i..][1..] == a[i + 1..];
    assert a[..i + 1] == a[..i] + [a[i]];
    AppendAssoc(a[..i], [a[i]], Pruned(a[i + 1..], busy));
  }

  lemma PrunedStepRemove(a: seq<AgentId>, i: nat, busy: seq<AgentId>)
    requires i < |a| && a[i] !in busy
    ensures var b := a[..i] + a[i + 1..];
            && (i + 1 <= |b| ==> b[..i + 1] + Pruned(b[i + 1..], busy) == a[..i] + Pruned(a[i..], busy))
            && (i + 1 > |b| ==> b == a[..i] + Pruned(a[i..], busy))
  {
    var b := a[..i] + a[i + 1..];
    if i + 1 < |a| {
      assert a[i..][1..] == a[i + 1..];
      assert a[i..][2..] == a[i + 2..] == b[i + 1..];
      assert b[..i + 1] == a[..i] + [a[i + 1]];
      AppendAssoc(a[..i], [a[i + 1]], Pruned(a[i + 2..], busy));
    } else {
      assert a[i..] == [a[i]];
      assert b == a[..i];
    }
  }

  /** The pruned list is a subsequence of the original. */
  lemma {:induction false} PrunedSubseq(a: seq<AgentId>, busy: seq<AgentId>)
    ensures IsSubseq(Pruned(a, busy), a)
    decreases |a|
  {
    if a != [] {
      if a[0] in busy {
        PrunedSubseq(a[1..], busy);
        assert ([a[0]] + Pruned(a[1..], busy))[1..] == Pruned(a[1..], busy);
      } else if |a| > 1 {
        PrunedSubseq(a[2..], busy);
        var r := [a[1]] + Pruned(a[2..], busy);
        assert r[1..] == Pruned(a[2..], busy);
        assert a[1..][1..] == a[2..];
        SubseqPrepend(r, a[1..], a[0]);
        assert [a[0]] + a[1..] == a;
      } else {
        assert Pruned(a, busy) == [];
      }
    }
  }

  /** No id listed in the bucket's `busyAgents` is ever removed: each keeps
      all its occurrences. */
  lemma {:induction false} PrunedKeepsBusy(a: seq<AgentId>, busy: seq<AgentId>, x: AgentId)
    requires x in busy
    ensures Count(Pruned(a, busy), x) == Count(a, x)
    decreases |a|
  {
    if a != [] {
      if a[0] in busy {
        PrunedKeepsBusy(a[1..], busy, x);
        assert ([a[0]] + Pruned(a[1..], busy))[1..] == Pruned(a[1..], busy);
      } else if |a| > 1 {
        PrunedKeepsBusy(a[2..], busy, x);
        assert ([a[1]] + Pruned(a[2..], busy))[1..] == Pruned(a[2..], busy);
        assert a[1..][1..] == a[2..];
      }
    }
  }

  /** `a` has no two neighbouring ids outside `busy`. */
  predicate NoAdjacentStrays(a: seq<AgentId>, busy: seq<AgentId>) {
    forall i :: 0 <= i < |a| - 1 ==> a[i] in busy || a[i + 1] in busy
  }

  /** The ids of `a` that are in `busy`, in order (what the pass is meant to
      leave). */
  function OnlyBusy(a: seq<AgentId>, busy: seq<AgentId>): (r: seq<AgentId>)
    ensures forall x :: x in r <==> x in a && x in busy
    decreases |a|
  {
    if a == [] then []
    else
      var t := OnlyBusy(a[1..], busy);
      assert forall x :: x in a <==> x == a[0] || x in a[1..] by {
        assert a == [a[0]] + a[1..];
      }
      (if a[0] in busy then [a[0]] else []) + t
  }

  /** Without two neighbouring strays, the pass removes exactly the ids that
      are not busy. */
  lemma {:induction false} PrunedIsFilter(a: seq<AgentId>, busy: seq<AgentId>)
    requires NoAdjacentStrays(a, busy)
    ensures Pruned(a, busy) == OnlyBusy(a, busy)
    decreases |a|
  {
    if a != [] {
      assert NoAdjacentStrays(a[1..], busy) by {
        forall i | 0 <= i < |a[1..]| - 1 ensures a[1..][i] in busy || a[1..][i + 1] in busy {
          assert a[1..][i] == a[i + 1] && a[1..][i + 1] == a[i + 2];
        }
      }
      if a[0] in busy {
        PrunedIsFilter(a[1..], busy);
      } else if |a| > 1 {
        assert a[1] in busy;
        assert NoAdjacentStrays(a[2..], busy) by {
          forall i | 0 <= i < |a[2..]| - 1 ensures a[2..][i] in busy || a[2..][i + 1] in busy {
            assert a[2..][i] == a[i + 2] && a[2..][i + 1] == a[i + 3];
          }
        }
        PrunedIsFilter(a[2..], busy);
        assert a[1..][1..] == a[2..];
        assert OnlyBusy(a, busy) == OnlyBusy(a[1..], busy) == [a[1]] + OnlyBusy(a[2..], busy);
      }
    }
  }

  /** A list that starts with two strays: removing the first shifts the
      second into index 0 while iteration moves on to index 1, so the second
      survives the pass unexamined, where the reference filter drops it.
      (Further along the list the same pair may be split differently, as
      `Pruned(["a", "b", "c"], []) == ["b"]` shows.) */
  lemma PrunedSkipsNeighbour(a: seq<AgentId>, busy: seq<AgentId>)
    requires |a| >= 2 && a[0] !in busy && a[1] !in busy
    ensures Pruned(a, busy) != [] && Pruned(a, busy)[0] == a[1]
    ensures a[1] in Pruned(a, busy) && a[1] !in OnlyBusy(a, busy)
  {
  }

  /** The smallest case, and the first pair of a longer one. */
  lemma PrunedSkipsExamples()
    ensures Pruned(["a", "b"], []) == ["b"]
    ensures OnlyBusy(["a", "b"], []) == []
    ensures Pruned(["a", "b", "c"], []) == ["b"]
  {
    assert ["a", "b"][1..] == ["b"];
    assert ["a", "b"][2..] == [];
    assert ["a", "b", "c"][2..] == ["c"];
  }

  // ---------------------------------------------------------------------
  // updateLayers: one bucket

  /** The bucket's coordinate lists after pruning against its busy agents. */
  function PruneValues(vs: seq<CoordVisitors>, busy: seq<AgentId>): (r: seq<CoordVisitors>)
    ensures |r| == |vs|
    decreases |vs|
  {
    if vs == [] then []
    else
      var last := vs[|vs| - 1];
      PruneValues(vs[..|vs| - 1], busy) + [CoordVisitors(last.coord, Pruned(last.visitors, busy))]
  }

  /** Pruning keeps every coordinate in place and prunes its list. */
  lemma {:induction false} PruneValuesAt(vs: seq<CoordVisitors>, busy: seq<AgentId>)
    ensures forall k :: 0 <= k < |vs| ==>
              PruneValues(vs, busy)[k] == CoordVisitors(vs[k].coord, Pruned(vs[k].visitors, busy))
    decreases |vs|
  {
    if vs != [] {
      PruneValuesAt(vs[..|vs| - 1], busy);
    }
  }

  /** The points emitted for a pruned bucket: one per non-empty list. */
  function NonEmptyPoints(vs: seq<CoordVisitors>): (r: seq<HeatPoint>)
    ensures |r| <= |vs|
    decreases |vs|
  {
    if vs == [] then []
    else
      var n := |vs| - 1;
      NonEmptyPoints(vs[..n]) + (if vs[n].visitors != [] then [HeatPoint(vs[n].coord, |vs[n].visitors|)] else [])
  }

  /** A point is emitted exactly for a non-empty list, weighted by its length. */
  lemma {:induction false} NonEmptyPointsMembers(vs: seq<CoordVisitors>, q: HeatPoint)
    ensures q in NonEmptyPoints(vs) <==>
              exists k :: 0 <= k < |vs| && vs[k].visitors != [] && q == HeatPoint(vs[k].coord, |vs[k].visitors|)
    decreases |vs|
  {
    if vs != [] {
      var n := |vs| - 1;
      NonEmptyPointsMembers(vs[..n], q);
      assert forall k :: 0 <= k < n ==> vs[..n][k] == vs[k];
    }
  }

  function PruneBucket(b: Bucket): Bucket {
    b.(values := PruneValues(b.values, b.busyAgents))
  }

  /** The first `subKey` lists of `bucket` pruned in `values`, the rest as
      they were, and `points` emitted for the pruned ones. */
  predicate PrunedUpTo(bucket: Bucket, subKey: nat, values: seq<CoordVisitors>, points: seq<HeatPoint>) {
    && subKey <= |values| == |bucket.values|
    && (forall k :: 0 <= k < |values| ==>
          values[k] == if k < subKey
                       then CoordVisitors(bucket.values[k].coord, Pruned(bucket.values[k].visitors, bucket.busyAgents))
                       else bucket.values[k])
    && points == NonEmptyPoints(values[..subKey])
  }

  /** One coordinate of the bucket loop. */
  method PruneEntry(bucket: Bucket, subKey: nat, values: seq<CoordVisitors>, points: seq<HeatPoint>)
    returns (values': seq<CoordVisitors>, points': seq<HeatPoint>)
    requires subKey < |values| && PrunedUpTo(bucket, subKey, values, points)
    ensures PrunedUpTo(bucket, subKey + 1, values', points')
  {
    var list := PruneVisitors(values[subKey].visitors, bucket.busyAgents);
    var entry := CoordVisitors(values[subKey].coord, list);
    values' := values[subKey := entry];
    assert values'[..subKey + 1][..subKey] == values[..subKey];
    points' := points;
    if |list| > 0 {
      points' := points + [HeatPoint(entry.coord, |list|)];
    }
  }

  lemma PrunedAll(bucket: Bucket, values: seq<CoordVisitors>, points: seq<HeatPoint>)
    requires PrunedUpTo(bucket, |bucket.values|, values, points)
    ensures values == PruneValues(bucket.values, bucket.busyAgents)
    ensures points == NonEmptyPoints(values)
  {
    PruneValuesAt(bucket.values, bucket.busyAgents);
    assert values[..|values|] == values;
  }

  /** The loop over one bucket's coordinates: prune each list and emit it if
      anything is left. */
  method UpdateBucket(bucket: Bucket) returns (pruned: Bucket, points: seq<HeatPoint>)
    ensures pruned == PruneBucket(bucket)
    ensures points == NonEmptyPoints(pruned.values)
  {
    var values := bucket.values;
    points := [];
    var subKey := 0;
    while subKey < |values|
      invariant PrunedUpTo(bucket, subKey, values, points)
    {
      values, points := PruneEntry(bucket, subKey, values, points);
      subKey := subKey + 1;
    }
    PrunedAll(bucket, values, points);
    pruned := bucket.(values := values);
  }

  // ---------------------------------------------------------------------
  // updateLayers: the whole table

  /** `key >= range[0] && key <= range[1]`. */
  predicate InRange(h: nat, lo: int, hi: int) {
    lo <= h <= hi
  }

  /** The first in-range `null` entry below `n`, or `n`. */
  function FirstNullInRange(slots: seq<Slot>, lo: int, hi: int, n: nat): (f: nat)
    requires n <= |slots|
    ensures f <= n
    ensures f < n ==> InRange(f, lo, hi) && slots[f].Null?
    ensures forall h :: 0 <= h < f ==> !(InRange(h, lo, hi) && slots[h].Null?)
    decreases n
  {
    if n == 0 then 0
    else
      var f := FirstNullInRange(slots, lo, hi, n - 1);
      if f < n - 1 then f
      else if InRange(n - 1, lo, hi) && slots[n - 1].Null? then n - 1
      else n
  }

  lemma FirstNullIs(slots: seq<Slot>, lo: int, hi: int, k: nat)
    requires k < |slots| && InRange(k, lo, hi) && slots[k].Null?
    requires forall h :: 0 <= h < k ==> !(InRange(h, lo, hi) && slots[h].Null?)
    ensures FirstNullInRange(slots, lo, hi, |slots|) == k
  {
  }

  /** A bucket after a completed visit. */
  function PruneSlot(s: Slot, h: nat, lo: int, hi: int): Slot {
    if InRange(h, lo, hi) && s.Present? then Present(PruneBucket(s.bucket)) else s
  }

  /** What visiting bucket `h` adds to the emitted points. */
  function Emitted(slots: seq<Slot>, lo: int, hi: int, h: nat): seq<HeatPoint> {
    if h < |slots| && InRange(h, lo, hi) && slots[h].Present?
    then NonEmptyPoints(PruneBucket(slots[h].bucket).values)
    else []
  }

  /** `Emitted` for every bucket of the table. */
  function EmittedAll(slots: seq<Slot>, lo: int, hi: int): nat -> seq<HeatPoint> {
    (h: nat) => Emitted(slots, lo, hi, h)
  }

  /** The table and the emitted points after the heat part of `updateLayers`.
      The buckets are visited in index order; an in-range `null` entry makes
      `.values` throw there, and since the pruning is done in place, the
      buckets visited before it stay pruned. */
  datatype Outcome = Outcome(slots: seq<Slot>, points: Result<seq<HeatPoint>>)

  function UpdateOutcome(slots: seq<Slot>, lo: int, hi: int): (o: Outcome)
    ensures |o.slots| == |slots|
  {
    var f := FirstNullInRange(slots, lo, hi, |slots|);
    Outcome(seq(|slots|, h requires 0 <= h < |slots| => if h < f then PruneSlot(slots[h], h, lo, hi) else slots[h]),
            if f < |slots| then Fail(NullBucket(f)) else Ok(Concat(EmittedAll(slots, lo, hi), |slots|)))
  }

  /** Pruning a bucket changes only its visitor lists: the busy agents, the
      stamp count and the coordinates stay, every list becomes a subsequence
      of itself, and no busy agent loses an occurrence. */
  lemma PruneBucketSpec(b: Bucket, k: nat)
    requires k < |b.values|
    ensures var p := PruneBucket(b);
            && p.busyAgents == b.busyAgents && p.stamps == b.stamps
            && |p.values| == |b.values| && p.values[k].coord == b.values[k].coord
            && IsSubseq(p.values[k].visitors, b.values[k].visitors)
            && forall x :: x in b.busyAgents ==> Count(p.values[k].visitors, x) == Count(b.values[k].visitors, x)
  {
    PruneValuesAt(b.values, b.busyAgents);
    PrunedSubseq(b.values[k].visitors, b.busyAgents);
    forall x | x in b.busyAgents
      ensures Count(Pruned(b.values[k].visitors, b.busyAgents), x) == Count(b.values[k].visitors, x)
    {
      PrunedKeepsBusy(b.values[k].visitors, b.busyAgents, x);
    }
  }

  /** `updateLayers` throws exactly when the range holds a `null` entry, and
      then reports the first one. Only in-range buckets change, and only
      those before that entry. */
  lemma UpdateSlots(slots: seq<Slot>, lo: int, hi: int, h: nat)
    requires h < |slots|
    ensures var o := UpdateOutcome(slots, lo, hi);
            && (o.points.Fail? <==> exists g :: 0 <= g < |slots| && InRange(g, lo, hi) && slots[g].Null?)
            && (o.points.Fail? ==> o.points.error == NullBucket(FirstNullInRange(slots, lo, hi, |slots|)))
            && (o.slots[h] != slots[h] ==> InRange(h, lo, hi) && slots[h].Present? && o.slots[h].Present?)
            && (o.points.Ok? ==> o.slots[h] == PruneSlot(slots[h], h, lo, hi))
  {
  }

  /** Every emitted point comes from an in-range bucket, and the points of
      each in-range bucket are emitted. */
  lemma UpdatePoints(slots: seq<Slot>, lo: int, hi: int, q: HeatPoint)
    requires UpdateOutcome(slots, lo, hi).points.Ok?
    ensures q in UpdateOutcome(slots, lo, hi).points.value <==>
              exists h :: 0 <= h < |slots| && q in Emitted(slots, lo, hi, h)
  {
    ConcatMembers(EmittedAll(slots, lo, hi), |slots|, q);
    forall h: nat | h < |slots|
      ensures q in EmittedAll(slots, lo, hi)(h) <==> q in Emitted(slots, lo, hi, h)
    {
      assert EmittedAll(slots, lo, hi)(h) == Emitted(slots, lo, hi, h);
    }
  }

  /** A point is emitted for an in-range bucket exactly when a pruned list is
      non-empty, with that list's length as weight, so every weight is at
      least 1. */
  lemma EmittedSpec(slots: seq<Slot>, lo: int, hi: int, h: nat, q: HeatPoint)
    requires h < |slots| && InRange(h, lo, hi) && slots[h].Present?
    ensures var vs := slots[h].bucket.values;
            q in Emitted(slots, lo, hi, h) <==>
              exists k :: 0 <= k < |vs| && Pruned(vs[k].visitors, slots[h].bucket.busyAgents) != [] &&
                q == HeatPoint(vs[k].coord, |Pruned(vs[k].visitors, slots[h].bucket.busyAgents)|)
    ensures q in Emitted(slots, lo, hi, h) ==> q.w >= 1
  {
    var b := slots[h].bucket;
    PruneValuesAt(b.values, b.busyAgents);
    NonEmptyPointsMembers(PruneBucket(b).values, q);
  }

  /** The emitted points after one more bucket. */
  lemma EmittedStep(slots: seq<Slot>, lo: int, hi: int, key: nat)
    ensures Concat(EmittedAll(slots, lo, hi), key + 1) ==
              Concat(EmittedAll(slots, lo, hi), key) + Emitted(slots, lo, hi, key)
  {
    ConcatSnoc(EmittedAll(slots, lo, hi), key);
    assert EmittedAll(slots, lo, hi)(key) == Emitted(slots, lo, hi, key);
  }

  /** The buckets below `key` visited: none of them an in-range `null`
      entry, each pruned in `cur` (the rest as in `start`), and `heat` the
      points they emitted. */
  predicate Visited(start: seq<Slot>, lo: int, hi: int, key: nat, cur: seq<Slot>, heat: seq<HeatPoint>) {
    && key <= |start| == |cur|
    && (forall h :: 0 <= h < key ==> !(InRange(h, lo, hi) && start[h].Null?))
    && (forall h :: 0 <= h < |start| ==>
          cur[h] == if h < key then PruneSlot(start[h], h, lo, hi) else start[h])
    && heat == Concat(EmittedAll(start, lo, hi), key)
  }

  /** One bucket of the table loop that is not an in-range `null` entry. */
  method VisitBucket(ghost start: seq<Slot>, lo: int, hi: int, key: nat,
                     cur: seq<Slot>, heat: seq<HeatPoint>)
    returns (cur': seq<Slot>, heat': seq<HeatPoint>)
    requires key < |start| && Visited(start, lo, hi, key, cur, heat)
    requires !(InRange(key, lo, hi) && cur[key].Null?)
    ensures Visited(start, lo, hi, key + 1, cur', heat')
  {
    EmittedStep(start, lo, hi, key);
    cur', heat' := cur, heat;
    if InRange(key, lo, hi) && cur[key].Present? {
      var pruned, points := UpdateBucket(cur[key].bucket);
      cur' := cur[key := Present(pruned)];
      heat' := heat + points;
    }
  }

  /** The visit stops at an in-range `null` entry: the table is as
      `UpdateOutcome` says, and the update fails there. */
  lemma StoppedAtNull(start: seq<Slot>, lo: int, hi: int, key: nat, cur: seq<Slot>, heat: seq<HeatPoint>)
    requires key < |start| && Visited(start, lo, hi, key, cur, heat)
    requires InRange(key, lo, hi) && cur[key].Null?
    ensures cur == UpdateOutcome(start, lo, hi).slots
    ensures UpdateOutcome(start, lo, hi).points == Fail(NullBucket(key))
  {
    FirstNullIs(start, lo, hi, key);
  }

  /** The visit of every bucket: the table and the points are as
      `UpdateOutcome` says. */
  lemma VisitedAll(start: seq<Slot>, lo: int, hi: int, cur: seq<Slot>, heat: seq<HeatPoint>)
    requires Visited(start, lo, hi, |start|, cur, heat)
    ensures cur == UpdateOutcome(start, lo, hi).slots
    ensures UpdateOutcome(start, lo, hi).points == Ok(heat)
  {
    var f := FirstNullInRange(start, lo, hi, |start|);
    assert f == |start|;
  }

  /** The time table behind `abmTimePaths` / `activeTimePaths`: one heap
      object, so every field that holds it sees its in-place changes. */
  class TimeTable {
    var slots: seq<Slot>

    constructor (s: seq<Slot>)
      ensures slots == s
    {
      slots := s;
    }

    /** The heat part of `updateLayers` on this table with range
        `[lo, hi]`. */
    method UpdateHeat(lo: int, hi: int) returns (r: Result<seq<HeatPoint>>)
      modifies this
      ensures slots == UpdateOutcome(old(slots), lo, hi).slots
      ensures r == UpdateOutcome(old(slots), lo, hi).points
    {
      ghost var start := slots;
      var heatLayerFormed: seq<HeatPoint> := [];
      var key := 0;
      while key < |slots|
        invariant Visited(start, lo, hi, key, slots, heatLayerFormed)
      {
        if InRange(key, lo, hi) && slots[key].Null? {
          StoppedAtNull(start, lo, hi, key, slots, heatLayerFormed);
          return Fail(NullBucket(key));
        }
        slots, heatLayerFormed := VisitBucket(start, lo, hi, key, slots, heatLayerFormed);
        key := key + 1;
      }
      VisitedAll(start, lo, hi, slots, heatLayerFormed);
      r := Ok(heatLayerFormed);
    }
  }
}
