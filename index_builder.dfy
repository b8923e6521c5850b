/** The single pass of `computeLoop` over the ABM records: the five structures
    it builds, each specified as a fold over the records (or over their path
    samples) and characterised by a closed form; then the loop itself. */
module IndexBuilder {
  import opened SeqUtil
  import opened AbmTypes

  /** Added to the hour of a timestamp to get a display hour. */
  const HourOffset: nat := 8
  const SecondsPerHour: nat := 3600
  const SliceSeconds: nat := 300

  /** `Math.floor(v / 3600) + 8` for a non-negative timestamp. */
  function Hour(t: nat): nat { t / SecondsPerHour + HourOffset }

  /** `Math.floor(v / 300) * 300` for a non-negative timestamp. */
  function SliceKey(t: nat): nat { t / SliceSeconds * SliceSeconds }

  // ---------------------------------------------------------------------
  // #0 agentIndexes: agent id -> position in abmCore

  function AgentIndexesOf(rs: seq<AgentRecord>): map<AgentId, nat>
    decreases |rs|
  {
    if rs == [] then map[]
    else AgentIndexesOf(rs[..|rs| - 1])[rs[|rs| - 1].agent.id := |rs| - 1]
  }

  /** Every id of the input has an entry, nothing else does, and the entry is
      the position of the LAST record carrying that id. */
  lemma {:induction false} AgentIndexLastWins(rs: seq<AgentRecord>, id: AgentId)
    ensures id in AgentIndexesOf(rs) <==> exists k :: 0 <= k < |rs| && rs[k].agent.id == id
    ensures id in AgentIndexesOf(rs) ==>
              var k := AgentIndexesOf(rs)[id];
              k < |rs| && rs[k].agent.id == id &&
              forall j :: k < j < |rs| ==> rs[j].agent.id != id
    decreases |rs|
  {
    if rs != [] {
      var p := rs[..|rs| - 1];
      AgentIndexLastWins(p, id);
      if id != rs[|rs| - 1].agent.id && exists k :: 0 <= k < |rs| && rs[k].agent.id == id {
        var k :| 0 <= k < |rs| && rs[k].agent.id == id;
        assert p[k].agent.id == id;
      }
    }
  }

  predicate DistinctIds(rs: seq<AgentRecord>) {
    forall i, j :: 0 <= i < j < |rs| ==> rs[i].agent.id != rs[j].agent.id
  }

  /** With distinct ids the index has exactly one entry per record, and each
      entry is that record's position. */
  lemma {:induction false} AgentIndexOnePerAgent(rs: seq<AgentRecord>)
    requires DistinctIds(rs)
    ensures |AgentIndexesOf(rs)| == |rs|
    ensures forall k :: 0 <= k < |rs| ==>
              rs[k].agent.id in AgentIndexesOf(rs) && AgentIndexesOf(rs)[rs[k].agent.id] == k
    decreases |rs|
  {
    if rs != [] {
      var p := rs[..|rs| - 1];
      var last := rs[|rs| - 1].agent.id;
      AgentIndexOnePerAgent(p);
      AgentIndexLastWins(p, last);
      assert last !in AgentIndexesOf(p);
    }
  }

  // ---------------------------------------------------------------------
  // #1 trips: every agent's trips, tagged with the agent's id

  function TripCount(who: AgentRecord): nat {
    match who.trips
    case None => 0
    case Some(ts) => |ts|
  }

  /** A record's trips with `agent` overwritten by the record's id. */
  function TagTrips(who: AgentRecord): (r: seq<Trip>)
    ensures |r| == TripCount(who)
  {
    match who.trips
    case None => []
    case Some(ts) => seq(|ts|, i requires 0 <= i < |ts| => ts[i].(agent := who.agent.id))
  }

  function TripsOf(rs: seq<AgentRecord>): seq<Trip>
    decreases |rs|
  {
    if rs == [] then [] else TripsOf(rs[..|rs| - 1]) + TagTrips(rs[|rs| - 1])
  }

  /** Number of trips of the records `rs`. */
  function TotalTrips(rs: seq<AgentRecord>): nat
    decreases |rs|
  {
    if rs == [] then 0 else TotalTrips(rs[..|rs| - 1]) + TripCount(rs[|rs| - 1])
  }

  lemma {:induction false} TripsLength(rs: seq<AgentRecord>)
    ensures |TripsOf(rs)| == TotalTrips(rs)
    decreases |rs|
  {
    if rs != [] {
      TripsLength(rs[..|rs| - 1]);
    }
  }

  /** The trip list is the records' trips concatenated in input order: trip `i`
      of record `k` sits after all trips of the records before `k`, with its
      `agent` set to record `k`'s id and every other field kept. */
  lemma {:induction false} TripsInOrder(rs: seq<AgentRecord>, k: nat, i: nat)
    requires k < |rs| && rs[k].trips.Some? && i < |rs[k].trips.value|
    ensures |TripsOf(rs)| == TotalTrips(rs)
    ensures TotalTrips(rs[..k]) + i < |TripsOf(rs)|
    ensures TripsOf(rs)[TotalTrips(rs[..k]) + i] == rs[k].trips.value[i].(agent := rs[k].agent.id)
    decreases |rs|
  {
    TripsLength(rs);
    var p := rs[..|rs| - 1];
    if k == |rs| - 1 {
      TripsOfLast(rs, i);
    } else {
      assert p[k] == rs[k];
      TripsInOrder(p, k, i);
      assert p[..k] == rs[..k];
      TripsOfPrefix(rs, TotalTrips(p[..k]) + i);
    }
  }

  /** Trip `i` of the last record follows all trips of the records before it. */
  lemma TripsOfLast(rs: seq<AgentRecord>, i: nat)
    requires rs != [] && rs[|rs| - 1].trips.Some? && i < |rs[|rs| - 1].trips.value|
    ensures TotalTrips(rs[..|rs| - 1]) + i < |TripsOf(rs)|
    ensures TripsOf(rs)[TotalTrips(rs[..|rs| - 1]) + i] ==
              rs[|rs| - 1].trips.value[i].(agent := rs[|rs| - 1].agent.id)
  {
    var p := rs[..|rs| - 1];
    TripsLength(p);
    assert TripsOf(rs) == TripsOf(p) + TagTrips(rs[|rs| - 1]);
  }

  /** The trips of all records but the last are a prefix of all trips. */
  lemma TripsOfPrefix(rs: seq<AgentRecord>, j: nat)
    requires rs != [] && j < |TripsOf(rs[..|rs| - 1])|
    ensures j < |TripsOf(rs)| && TripsOf(rs)[j] == TripsOf(rs[..|rs| - 1])[j]
  {
    assert TripsOf(rs) == TripsOf(rs[..|rs| - 1]) + TagTrips(rs[|rs| - 1]);
  }

  /** A record after section #1 has run on it. `trip["agent"] = agent_id`
      writes into the record's own trip objects, so the record keeps its
      trips with `agent` overwritten and is otherwise as it was. */
  function TaggedRecord(who: AgentRecord): (r: AgentRecord)
    ensures r.agent == who.agent && r.path == who.path && r.timestamps == who.timestamps
    ensures r.trips.Some? <==> who.trips.Some?
    ensures TagTrips(r) == TagTrips(who)
  {
    if who.trips.Some? then who.(trips := Some(TagTrips(who))) else who
  }

  /** `abmCore` after the pass. */
  function TaggedRecords(rs: seq<AgentRecord>): (r: seq<AgentRecord>)
    ensures |r| == |rs|
  {
    seq(|rs|, k requires 0 <= k < |rs| => TaggedRecord(rs[k]))
  }

  /** The records after the pass and the trip list hold the same trip
      objects: trip `i` of record `k` is the trip list's entry
      `TotalTrips(rs[..k]) + i`. */
  lemma TaggedTripsShared(rs: seq<AgentRecord>, k: nat, i: nat)
    requires k < |rs| && rs[k].trips.Some? && i < |rs[k].trips.value|
    ensures var t := TaggedRecords(rs)[k];
            && t.agent == rs[k].agent && t.trips.Some? && |t.trips.value| == |rs[k].trips.value|
            && TotalTrips(rs[..k]) + i < |TripsOf(rs)|
            && t.trips.value[i] == TripsOf(rs)[TotalTrips(rs[..k]) + i]
  {
    TripsInOrder(rs, k, i);
  }

  // ---------------------------------------------------------------------
  // #2 abmFilterData: stringified attribute value -> agent ids

  /** An entry of `who.agent` that is filed: neither the `id` nor the `source`
      key, and not one of the sentinel values. */
  predicate Qualifies(e: (string, string)) {
    e.0 != "id" && e.0 != "source" && e.1 != "unknown" && e.1 != "nil"
  }

  /** Files `id` once under the value of every qualifying entry, in order. */
  function AddEntries(m: map<string, seq<AgentId>>, id: AgentId, es: seq<(string, string)>): map<string, seq<AgentId>>
    decreases |es|
  {
    if es == [] then m
    else
      var m' := AddEntries(m, id, es[..|es| - 1]);
      var e := es[|es| - 1];
      if Qualifies(e) then m'[e.1 := Get(m', e.1) + [id]] else m'
  }

  function FilterOf(rs: seq<AgentRecord>): map<string, seq<AgentId>>
    decreases |rs|
  {
    if rs == [] then map[]
    else AddEntries(FilterOf(rs[..|rs| - 1]), rs[|rs| - 1].agent.id, rs[|rs| - 1].agent.entries)
  }

  /** How many qualifying entries carry the value `v`. */
  function CountValue(es: seq<(string, string)>, v: string): nat
    decreases |es|
  {
    if es == [] then 0
    else CountValue(es[..|es| - 1], v) + (if Qualifies(es[|es| - 1]) && es[|es| - 1].1 == v then 1 else 0)
  }

  /** The ids filed under `v`, record by record: an id once per qualifying entry. */
  function FilterIds(rs: seq<AgentRecord>, v: string): seq<AgentId>
    decreases |rs|
  {
    if rs == [] then []
    else FilterIds(rs[..|rs| - 1], v) + Repeat(rs[|rs| - 1].agent.id, CountValue(rs[|rs| - 1].agent.entries, v))
  }

  lemma {:induction false} AddEntriesGet(m: map<string, seq<AgentId>>, id: AgentId, es: seq<(string, string)>, v: string)
    ensures Get(AddEntries(m, id, es), v) == Get(m, v) + Repeat(id, CountValue(es, v))
    ensures v in AddEntries(m, id, es) <==> v in m || CountValue(es, v) > 0
    decreases |es|
  {
    if es != [] {
      AddEntriesGet(m, id, es[..|es| - 1], v);
    }
  }

  /** The filter index as built holds, under each value, exactly the ids of
      `FilterIds` (no deduplication), and has a key exactly for the values some
      qualifying entry carries. */
  lemma {:induction false} FilterIndexContents(rs: seq<AgentRecord>, v: string)
    ensures Get(FilterOf(rs), v) == FilterIds(rs, v)
    ensures v in FilterOf(rs) <==> FilterIds(rs, v) != []
    decreases |rs|
  {
    if rs != [] {
      var p := rs[..|rs| - 1];
      FilterIndexContents(p, v);
      AddEntriesGet(FilterOf(p), rs[|rs| - 1].agent.id, rs[|rs| - 1].agent.entries, v);
    }
  }

  lemma {:induction false} CountValuePositive(es: seq<(string, string)>, v: string)
    ensures CountValue(es, v) > 0 <==> exists i :: 0 <= i < |es| && Qualifies(es[i]) && es[i].1 == v
    decreases |es|
  {
    if es != [] {
      var p := es[..|es| - 1];
      CountValuePositive(p, v);
      if exists i :: 0 <= i < |es| && Qualifies(es[i]) && es[i].1 == v {
        var i :| 0 <= i < |es| && Qualifies(es[i]) && es[i].1 == v;
        if i < |p| { assert p[i] == es[i]; }
      }
    }
  }

  /** An id is filed under `v` exactly when one of its records has a
      qualifying entry whose value is `v`. */
  lemma {:induction false} FilterIdsMembers(rs: seq<AgentRecord>, v: string, x: AgentId)
    ensures x in FilterIds(rs, v) <==>
              exists k, i :: 0 <= k < |rs| && 0 <= i < |rs[k].agent.entries| &&
                             rs[k].agent.id == x && Qualifies(rs[k].agent.entries[i]) &&
                             rs[k].agent.entries[i].1 == v
    decreases |rs|
  {
    if rs != [] {
      var p := rs[..|rs| - 1];
      var last := rs[|rs| - 1];
      FilterIdsMembers(p, v, x);
      RepeatMembers(last.agent.id, CountValue(last.agent.entries, v), x);
      CountValuePositive(last.agent.entries, v);
      if exists k, i :: 0 <= k < |rs| && 0 <= i < |rs[k].agent.entries| &&
                        rs[k].agent.id == x && Qualifies(rs[k].agent.entries[i]) &&
                        rs[k].agent.entries[i].1 == v {
        var k, i :| 0 <= k < |rs| && 0 <= i < |rs[k].agent.entries| &&
                    rs[k].agent.id == x && Qualifies(rs[k].agent.entries[i]) &&
                    rs[k].agent.entries[i].1 == v;
        if k < |p| { assert p[k] == rs[k]; }
      }
    }
  }

  // ---------------------------------------------------------------------
  // #3 path samples

  /** One (timestamp, path point) pair of a record, with what the loop body
      reads from the record. */
  datatype Sample = Sample(agent: AgentId, t: nat, coord: CoordKey, first: bool,
                           mode: string, agentAge: string, residentOrVisitor: string)

  /** Every timestamp has a path point, so `who.path[i]` is defined. */
  predicate PathCovers(who: AgentRecord) {
    |who.timestamps| <= |who.path|
  }

  predicate AllCovered(rs: seq<AgentRecord>) {
    forall k :: 0 <= k < |rs| ==> PathCovers(rs[k])
  }

  function SampleAt(who: AgentRecord, i: nat): Sample
    requires i < |who.timestamps| && i < |who.path|
  {
    Sample(who.agent.id, who.timestamps[i], who.path[i], i == 0,
           who.agent.mode, who.agent.agentAge, who.agent.residentOrVisitor)
  }

  /** The first `n` samples of a record. */
  function AgentSamples(who: AgentRecord, n: nat): (r: seq<Sample>)
    requires n <= |who.timestamps| && n <= |who.path|
    ensures |r| == n
    decreases n
  {
    if n == 0 then [] else AgentSamples(who, n - 1) + [SampleAt(who, n - 1)]
  }

  /** All samples, record by record, in input order. */
  function Samples(rs: seq<AgentRecord>): seq<Sample>
    requires AllCovered(rs)
    decreases |rs|
  {
    if rs == [] then []
    else Samples(rs[..|rs| - 1]) + AgentSamples(rs[|rs| - 1], |rs[|rs| - 1].timestamps|)
  }

  // ---------------------------------------------------------------------
  // #3 timePaths: hour bucket -> {busyAgents, values, stamps}

  const EmptyBucket := Bucket([], [], 0)

  /** `timePaths[h] || {}`: the bucket at `h`, or a fresh empty one. */
  function BucketAt(table: seq<Slot>, h: nat): Bucket {
    if h < |table| && table[h].Present? then table[h].bucket else EmptyBucket
  }

  /** `timePaths[h] = b` on a JavaScript array: assigning past the end
      lengthens it and leaves holes in between. */
  function Put(table: seq<Slot>, h: nat, b: Bucket): seq<Slot>
    decreases h - |table|
  {
    if h < |table| then table[h := Present(b)]
    else Put(table + [Hole], h, b)
  }

  /** The array grows to `h + 1` if needed; only index `h` changes, and the
      indexes added before it are holes. */
  lemma {:induction false} PutEffect(table: seq<Slot>, h: nat, b: Bucket)
    ensures |Put(table, h, b)| == if h < |table| then |table| else h + 1
    ensures forall k :: 0 <= k < |Put(table, h, b)| ==>
              Put(table, h, b)[k] == if k == h then Present(b) else if k < |table| then table[k] else Hole
    decreases h - |table|
  {
    if h >= |table| {
      PutEffect(table + [Hole], h, b);
    }
  }

  lemma BucketAtPut(table: seq<Slot>, h: nat, b: Bucket, g: nat)
    ensures BucketAt(Put(table, h, b), g) == if g == h then b else BucketAt(table, g)
  {
    PutEffect(table, h, b);
  }

  /** Position of the first entry for coordinate `c`, or `|vs|` if there is none. */
  function Find(vs: seq<CoordVisitors>, c: CoordKey): (k: nat)
    ensures k <= |vs|
    ensures k < |vs| ==> vs[k].coord == c
    ensures forall j :: 0 <= j < k ==> vs[j].coord != c
    decreases |vs|
  {
    if vs == [] then 0 else if vs[0].coord == c then 0 else 1 + Find(vs[1..], c)
  }

  /** `values[c] || []`. */
  function Lookup(vs: seq<CoordVisitors>, c: CoordKey): seq<AgentId> {
    var k := Find(vs, c);
    if k < |vs| then vs[k].visitors else []
  }

  /** The keys of `values`, in `Object.entries` order. */
  function Coords(vs: seq<CoordVisitors>): (r: seq<CoordKey>)
    ensures |r| == |vs|
  {
    seq(|vs|, k requires 0 <= k < |vs| => vs[k].coord)
  }

  lemma CoordsFind(vs: seq<CoordVisitors>, c: CoordKey)
    ensures c in Coords(vs) <==> Find(vs, c) < |vs|
  {
    var f := Find(vs, c);
    if c in Coords(vs) {
      var k :| 0 <= k < |vs| && Coords(vs)[k] == c;
      assert vs[k].coord == c;
      assert f <= k;
    }
    if f < |vs| {
      assert Coords(vs)[f] == c;
    }
  }

  /** `values[c] = values[c] || []; if (!values[c].includes(id)) values[c].push(id)`. */
  function AddVisit(vs: seq<CoordVisitors>, c: CoordKey, id: AgentId): seq<CoordVisitors> {
    var k := Find(vs, c);
    if k == |vs| then vs + [CoordVisitors(c, [id])]
    else if id in vs[k].visitors then vs
    else vs[k := CoordVisitors(c, vs[k].visitors + [id])]
  }

  /** `Find` is determined by its contract: the first match, or the length. */
  lemma FindIs(vs: seq<CoordVisitors>, c: CoordKey, k: nat)
    requires k <= |vs| && (k < |vs| ==> vs[k].coord == c)
    requires forall j :: 0 <= j < k ==> vs[j].coord != c
    ensures Find(vs, c) == k
  {
  }

  /** Visiting `c` changes only `c`'s list, by the deduplicating push, and adds
      `c` at the end of the key order if it is new. */
  lemma {:induction false} AddVisitEffect(vs: seq<CoordVisitors>, c: CoordKey, id: AgentId, d: CoordKey)
    ensures Lookup(AddVisit(vs, c, id), d) ==
              if d != c then Lookup(vs, d)
              else if id in Lookup(vs, c) then Lookup(vs, c)
              else Lookup(vs, c) + [id]
    ensures Coords(AddVisit(vs, c, id)) == if c in Coords(vs) then Coords(vs) else Coords(vs) + [c]
  {
    var k := Find(vs, c);
    var ws := AddVisit(vs, c, id);
    CoordsFind(vs, c);
    var kd := Find(vs, d);
    if k == |vs| {
      assert Coords(ws) == Coords(vs) + [c];
      if d != c {
        FindIs(ws, d, if kd < |vs| then kd else |ws|);
      } else {
        FindIs(ws, d, k);
      }
    } else if id !in vs[k].visitors {
      assert Coords(ws) == Coords(vs);
      if d != c {
        FindIs(ws, d, if kd < |vs| then kd else |ws|);
      } else {
        FindIs(ws, d, k);
      }
    }
  }

  function StepBucket(b: Bucket, s: Sample): Bucket {
    Bucket(if s.first then b.busyAgents + [s.agent] else b.busyAgents,
           AddVisit(b.values, s.coord, s.agent),
           b.stamps + 1)
  }

  /** The effect of one sample on `timePaths`. */
  function TableStep(table: seq<Slot>, s: Sample): seq<Slot> {
    Put(table, Hour(s.t), StepBucket(BucketAt(table, Hour(s.t)), s))
  }

  function TableOf(xs: seq<Sample>): seq<Slot>
    decreases |xs|
  {
    if xs == [] then [] else TableStep(TableOf(xs[..|xs| - 1]), xs[|xs| - 1])
  }

  /** Samples falling in hour bucket `h`. */
  function HourCount(xs: seq<Sample>, h: nat): nat
    decreases |xs|
  {
    if xs == [] then 0
    else HourCount(xs[..|xs| - 1], h) + (if Hour(xs[|xs| - 1].t) == h then 1 else 0)
  }

  /** Ids of the first samples of their records that fall in bucket `h`. */
  function BusyIds(xs: seq<Sample>, h: nat): seq<AgentId>
    decreases |xs|
  {
    if xs == [] then []
    else
      var s := xs[|xs| - 1];
      BusyIds(xs[..|xs| - 1], h) + (if Hour(s.t) == h && s.first then [s.agent] else [])
  }

  /** Coordinates of the samples in bucket `h`, with repeats, in order. */
  function CoordsIn(xs: seq<Sample>, h: nat): seq<CoordKey>
    decreases |xs|
  {
    if xs == [] then []
    else
      var s := xs[|xs| - 1];
      CoordsIn(xs[..|xs| - 1], h) + (if Hour(s.t) == h then [s.coord] else [])
  }

  /** Ids of the samples at coordinate `c` in bucket `h`, with repeats, in order. */
  function IdsAt(xs: seq<Sample>, h: nat, c: CoordKey): seq<AgentId>
    decreases |xs|
  {
    if xs == [] then []
    else
      var s := xs[|xs| - 1];
      IdsAt(xs[..|xs| - 1], h, c) + (if Hour(s.t) == h && s.coord == c then [s.agent] else [])
  }

  /** A bucket exists exactly for the hours some sample falls in; the table
      built by the pass has holes but never a null slot. */
  lemma {:induction false} TableSlots(xs: seq<Sample>, h: nat)
    ensures h < |TableOf(xs)| ==> !TableOf(xs)[h].Null?
    ensures (h < |TableOf(xs)| && TableOf(xs)[h].Present?) <==> HourCount(xs, h) > 0
    decreases |xs|
  {
    if xs != [] {
      var p := xs[..|xs| - 1];
      var s := xs[|xs| - 1];
      TableSlots(p, h);
      PutEffect(TableOf(p), Hour(s.t), StepBucket(BucketAt(TableOf(p), Hour(s.t)), s));
    }
  }

  /** Bucket `h` counts its samples in `stamps`, lists as busy the agents whose
      first sample falls in it (in order, once per record), and keys `values`
      by the coordinates seen in it, once each, in first-seen order. */
  lemma {:induction false} TableBuckets(xs: seq<Sample>, h: nat)
    ensures BucketAt(TableOf(xs), h).stamps == HourCount(xs, h)
    ensures BucketAt(TableOf(xs), h).busyAgents == BusyIds(xs, h)
    ensures Coords(BucketAt(TableOf(xs), h).values) == Dedup(CoordsIn(xs, h))
    decreases |xs|
  {
    if xs != [] {
      var p := xs[..|xs| - 1];
      var s := xs[|xs| - 1];
      TableBuckets(p, h);
      var b := BucketAt(TableOf(p), Hour(s.t));
      assert TableOf(xs) == Put(TableOf(p), Hour(s.t), StepBucket(b, s));
      BucketAtPut(TableOf(p), Hour(s.t), StepBucket(b, s), h);
      if !(Hour(s.t) == h && s.first) {
        assert BusyIds(xs, h) == BusyIds(p, h);
      }
      if Hour(s.t) == h {
        var cs := CoordsIn(p, h);
        assert CoordsIn(xs, h) == cs + [s.coord];
        AddVisitEffect(b.values, s.coord, s.agent, s.coord);
        DedupSnoc(cs, s.coord);
        DedupMembers(cs, s.coord);
        assert BucketAt(TableOf(xs), h).values == AddVisit(b.values, s.coord, s.agent);
        assert Coords(b.values) == Dedup(cs);
        assert s.coord in Coords(b.values) <==> s.coord in cs;
        assert Coords(BucketAt(TableOf(xs), h).values) == Dedup(cs + [s.coord]);
        assert Dedup(CoordsIn(xs, h)) == Dedup(cs + [s.coord]);
      } else {
        assert CoordsIn(xs, h) == CoordsIn(p, h);
        assert BucketAt(TableOf(xs), h) == BucketAt(TableOf(p), h);
        assert BucketAt(TableOf(xs), h).stamps == HourCount(xs, h);
        assert BucketAt(TableOf(xs), h).busyAgents == BusyIds(xs, h);
      }
    }
  }

  /** The visitor list of coordinate `c` in bucket `h` holds every agent that
      was sampled there, once, in first-seen order. */
  lemma {:induction false} TableVisitors(xs: seq<Sample>, h: nat, c: CoordKey)
    ensures Lookup(BucketAt(TableOf(xs), h).values, c) == Dedup(IdsAt(xs, h, c))
    ensures Distinct(Lookup(BucketAt(TableOf(xs), h).values, c))
    ensures forall v :: v in Lookup(BucketAt(TableOf(xs), h).values, c) <==> v in IdsAt(xs, h, c)
    decreases |xs|
  {
    DedupDistinct(IdsAt(xs, h, c));
    forall v ensures v in Dedup(IdsAt(xs, h, c)) <==> v in IdsAt(xs, h, c) {
      DedupMembers(IdsAt(xs, h, c), v);
    }
    if xs != [] {
      var p := xs[..|xs| - 1];
      var s := xs[|xs| - 1];
      TableVisitors(p, h, c);
      var b := BucketAt(TableOf(p), Hour(s.t));
      assert TableOf(xs) == Put(TableOf(p), Hour(s.t), StepBucket(b, s));
      BucketAtPut(TableOf(p), Hour(s.t), StepBucket(b, s), h);
      if Hour(s.t) == h {
        AddVisitEffect(b.values, s.coord, s.agent, c);
        if s.coord == c {
          var ids := IdsAt(p, h, c);
          assert IdsAt(xs, h, c) == ids + [s.agent];
          DedupSnoc(ids, s.agent);
          DedupMembers(ids, s.agent);
          assert BucketAt(TableOf(xs), h).values == AddVisit(b.values, s.coord, s.agent);
          assert Lookup(b.values, c) == Dedup(ids);
        } else {
          assert IdsAt(xs, h, c) == IdsAt(p, h, c);
        }
      } else {
        assert IdsAt(xs, h, c) == IdsAt(p, h, c);
      }
    }
  }

  /** Every visitor list of the table built by the pass is non-empty. */
  predicate NonEmptyLists(table: seq<Slot>) {
    forall h, k :: 0 <= h < |table| && table[h].Present? && 0 <= k < |table[h].bucket.values| ==>
      table[h].bucket.values[k].visitors != []
  }

  lemma {:induction false} TableNonEmptyLists(xs: seq<Sample>)
    ensures NonEmptyLists(TableOf(xs))
    decreases |xs|
  {
    if xs != [] {
      var p := xs[..|xs| - 1];
      var s := xs[|xs| - 1];
      TableNonEmptyLists(p);
      var t := TableOf(p);
      var h := Hour(s.t);
      var b := BucketAt(t, h);
      assert forall k :: 0 <= k < |b.values| ==> b.values[k].visitors != [];
      var vs := AddVisit(b.values, s.coord, s.agent);
      assert forall k :: 0 <= k < |vs| ==> vs[k].visitors != [];
      PutEffect(t, h, StepBucket(b, s));
    }
  }

  /** Ids of the records whose first timestamp falls in bucket `h`, in order. */
  function FirstHourIds(rs: seq<AgentRecord>, h: nat): seq<AgentId>
    decreases |rs|
  {
    if rs == [] then []
    else
      var who := rs[|rs| - 1];
      FirstHourIds(rs[..|rs| - 1], h) +
        (if |who.timestamps| > 0 && Hour(who.timestamps[0]) == h then [who.agent.id] else [])
  }

  lemma {:induction false} BusyIdsAppend(xs: seq<Sample>, ys: seq<Sample>, h: nat)
    ensures BusyIds(xs + ys, h) == BusyIds(xs, h) + BusyIds(ys, h)
    decreases |ys|
  {
    if ys != [] {
      assert (xs + ys)[..|xs + ys| - 1] == xs + ys[..|ys| - 1];
      BusyIdsAppend(xs, ys[..|ys| - 1], h);
    } else {
      assert xs + ys == xs;
    }
  }

  lemma {:induction false} BusyIdsOfAgent(who: AgentRecord, n: nat, h: nat)
    requires n <= |who.timestamps| && n <= |who.path|
    ensures BusyIds(AgentSamples(who, n), h) ==
              if n > 0 && Hour(who.timestamps[0]) == h then [who.agent.id] else []
    decreases n
  {
    if n > 0 {
      BusyIdsOfAgent(who, n - 1, h);
    }
  }

  /** Over a whole load, bucket `h`'s busy agents are the ids of the records
      whose FIRST timestamp is in `h`: one entry per such record, nowhere else. */
  lemma {:induction false} BusyAgentsAreFirstSamples(rs: seq<AgentRecord>, h: nat)
    requires AllCovered(rs)
    ensures BucketAt(TableOf(Samples(rs)), h).busyAgents == FirstHourIds(rs, h)
    decreases |rs|
  {
    TableBuckets(Samples(rs), h);
    BusyIdsOfRecords(rs, h);
  }

  lemma {:induction false} BusyIdsOfRecords(rs: seq<AgentRecord>, h: nat)
    requires AllCovered(rs)
    ensures BusyIds(Samples(rs), h) == FirstHourIds(rs, h)
    decreases |rs|
  {
    if rs != [] {
      var p := rs[..|rs| - 1];
      var who := rs[|rs| - 1];
      assert AllCovered(p);
      BusyIdsOfRecords(p, h);
      BusyIdsAppend(Samples(p), AgentSamples(who, |who.timestamps|), h);
      BusyIdsOfAgent(who, |who.timestamps|, h);
    }
  }

  // ---------------------------------------------------------------------
  // #3 simpleTimeData: 300-second slice -> category -> agent ids

  /** `m[k] = m[k] || []; m[k].push(a)`. */
  function Push(m: map<string, seq<AgentId>>, k: string, a: AgentId): map<string, seq<AgentId>> {
    m[k := Get(m, k) + [a]]
  }

  /** The four pushes of one sample into its slice: under "all", the mode,
      the age and the resident/visitor class, in that order, unguarded. */
  function PushCategories(m: map<string, seq<AgentId>>, s: Sample): map<string, seq<AgentId>> {
    Push(Push(Push(Push(m, "all", s.agent), s.mode, s.agent), s.agentAge, s.agent),
         s.residentOrVisitor, s.agent)
  }

  function SliceStep(st: SliceTable, s: Sample): SliceTable {
    var key := SliceKey(s.t);
    st[key := PushCategories(if key in st then st[key] else map[], s)]
  }

  function SlicesOf(xs: seq<Sample>): SliceTable
    decreases |xs|
  {
    if xs == [] then map[] else SliceStep(SlicesOf(xs[..|xs| - 1]), xs[|xs| - 1])
  }

  /** How many of a sample's four categories are `cat`. */
  function Multiplicity(s: Sample, cat: string): nat {
    (if cat == "all" then 1 else 0) + (if s.mode == cat then 1 else 0) +
    (if s.agentAge == cat then 1 else 0) + (if s.residentOrVisitor == cat then 1 else 0)
  }

  /** The ids pushed under slice `key` and category `cat`, sample by sample. */
  function SliceIds(xs: seq<Sample>, key: nat, cat: string): seq<AgentId>
    decreases |xs|
  {
    if xs == [] then []
    else
      var s := xs[|xs| - 1];
      SliceIds(xs[..|xs| - 1], key, cat) +
        Repeat(s.agent, if SliceKey(s.t) == key then Multiplicity(s, cat) else 0)
  }

  function SliceList(st: SliceTable, key: nat, cat: string): seq<AgentId> {
    if key in st then Get(st[key], cat) else []
  }

  /** One push as seen from key `cat`. */
  lemma PushGet(m: map<string, seq<AgentId>>, k: string, a: AgentId, cat: string)
    ensures Get(Push(m, k, a), cat) == Get(m, cat) + (if k == cat then [a] else [])
  {
  }

  /** Appending one more guarded push to `g + Repeat(a, n)`. */
  lemma RepeatMore(g: seq<AgentId>, a: AgentId, n: nat, b: bool)
    ensures g + Repeat(a, n) + (if b then [a] else []) == g + Repeat(a, n + if b then 1 else 0)
  {
    if b {
      assert Repeat(a, n + 1) == Repeat(a, n) + [a];
      assert g + Repeat(a, n) + [a] == g + (Repeat(a, n) + [a]);
    } else {
      assert g + Repeat(a, n) + [] == g + Repeat(a, n);
    }
  }

  lemma PushCategoriesGet(m: map<string, seq<AgentId>>, s: Sample, cat: string)
    ensures Get(PushCategories(m, s), cat) == Get(m, cat) + Repeat(s.agent, Multiplicity(s, cat))
  {
    var a := s.agent;
    var g := Get(m, cat);
    var m1 := Push(m, "all", a);
    var m2 := Push(m1, s.mode, a);
    var m3 := Push(m2, s.agentAge, a);
    var b1, b2, b3, b4 := "all" == cat, s.mode == cat, s.agentAge == cat, s.residentOrVisitor == cat;
    var n1 := if b1 then 1 else 0;
    var n2 := n1 + if b2 then 1 else 0;
    var n3 := n2 + if b3 then 1 else 0;
    PushGet(m, "all", a, cat);
    assert g == g + Repeat(a, 0);
    RepeatMore(g, a, 0, b1);
    PushGet(m1, s.mode, a, cat);
    RepeatMore(g, a, n1, b2);
    PushGet(m2, s.agentAge, a, cat);
    RepeatMore(g, a, n2, b3);
    PushGet(m3, s.residentOrVisitor, a, cat);
    RepeatMore(g, a, n3, b4);
  }

  /** Slice `key` lists, under category `cat`, one id per sample in the slice
      per matching category: nothing is deduplicated. A slice exists exactly
      when some sample falls in it. */
  lemma {:induction false} SliceContents(xs: seq<Sample>, key: nat, cat: string)
    ensures SliceList(SlicesOf(xs), key, cat) == SliceIds(xs, key, cat)
    decreases |xs|
  {
    if xs != [] {
      var p := xs[..|xs| - 1];
      var s := xs[|xs| - 1];
      SliceContents(p, key, cat);
      if SliceKey(s.t) == key {
        PushCategoriesGet(if key in SlicesOf(p) then SlicesOf(p)[key] else map[], s, cat);
      } else {
        assert SliceIds(xs, key, cat) == SliceIds(p, key, cat) + [];
      }
    }
  }

  /** A slice key is present exactly when some sample falls in that slice. */
  lemma {:induction false} SliceKeys(xs: seq<Sample>, key: nat)
    ensures key in SlicesOf(xs) <==> exists i :: 0 <= i < |xs| && SliceKey(xs[i].t) == key
    decreases |xs|
  {
    if xs != [] {
      var p := xs[..|xs| - 1];
      SliceKeys(p, key);
      if exists i :: 0 <= i < |xs| && SliceKey(xs[i].t) == key {
        var i :| 0 <= i < |xs| && SliceKey(xs[i].t) == key;
        if i < |p| { assert p[i] == xs[i]; }
      }
    }
  }

  // ---------------------------------------------------------------------
  // The whole pass

  datatype Indexes = Indexes(agentIndexes: map<AgentId, nat>, trips: seq<Trip>,
                             filterData: map<string, seq<AgentId>>,
                             timePaths: seq<Slot>, simpleTimes: SliceTable,
                             records: seq<AgentRecord>)

  /** Position of the first record with fewer path points than timestamps. */
  function FirstUncovered(rs: seq<AgentRecord>): (k: nat)
    ensures k <= |rs|
    ensures forall j :: 0 <= j < k ==> PathCovers(rs[j])
    ensures k < |rs| ==> !PathCovers(rs[k])
    decreases |rs|
  {
    if rs == [] then 0 else if !PathCovers(rs[0]) then 0 else 1 + FirstUncovered(rs[1..])
  }

  /** What the pass produces: a TypeError at the first missing path point, or
      the five structures and the records with their trips tagged. */
  function IndexesOf(rs: seq<AgentRecord>): Result<Indexes> {
    var k := FirstUncovered(rs);
    if k < |rs| then Fail(MissingPathPoint(k, |rs[k].path|))
    else Ok(Indexes(AgentIndexesOf(rs), TripsOf(rs), FilterOf(rs),
                    TableOf(Samples(rs)), SlicesOf(Samples(rs)), TaggedRecords(rs)))
  }

  /** The specification functions on one more record. */
  lemma PrefixStep(rs: seq<AgentRecord>, j: nat)
    requires j < |rs|
    ensures AgentIndexesOf(rs[..j + 1]) == AgentIndexesOf(rs[..j])[rs[j].agent.id := j]
    ensures TripsOf(rs[..j + 1]) == TripsOf(rs[..j]) + TagTrips(rs[j])
    ensures TaggedRecords(rs[..j + 1]) == TaggedRecords(rs[..j]) + [TaggedRecord(rs[j])]
    ensures FilterOf(rs[..j + 1]) == AddEntries(FilterOf(rs[..j]), rs[j].agent.id, rs[j].agent.entries)
    ensures AllCovered(rs[..j + 1]) <==> AllCovered(rs[..j]) && PathCovers(rs[j])
    ensures AllCovered(rs[..j + 1]) ==>
              Samples(rs[..j + 1]) == Samples(rs[..j]) + AgentSamples(rs[j], |rs[j].timestamps|)
  {
    assert rs[..j + 1][..j] == rs[..j];
    assert forall k :: 0 <= k < j ==> rs[..j + 1][k] == rs[..j][k];
  }

  lemma FilterStep(m: map<string, seq<AgentId>>, id: AgentId, es: seq<(string, string)>, e: nat)
    requires e < |es|
    ensures AddEntries(m, id, es[..e + 1]) ==
              var m' := AddEntries(m, id, es[..e]);
              if Qualifies(es[e]) then Push(m', es[e].1, id) else m'
  {
    assert es[..e + 1][..e] == es[..e];
  }

  /** A record with too few path points is the first such record once all
      records before it are known to be complete. */
  lemma FirstUncoveredIs(rs: seq<AgentRecord>, k: nat)
    requires k < |rs| && AllCovered(rs[..k]) && !PathCovers(rs[k])
    ensures FirstUncovered(rs) == k
  {
    assert forall j :: 0 <= j < k ==> rs[..k][j] == rs[j];
  }

  /** Sample `i` of `who` into its hour bucket: the bucket is created on
      demand, its stamp count goes up, the coordinate's visitor list gets the
      agent unless already there, and the first sample marks the agent busy. */
  method AddToHour(timePaths: seq<Slot>, who: AgentRecord, i: nat)
    returns (r: seq<Slot>)
    requires i < |who.timestamps| && i < |who.path|
    ensures r == TableStep(timePaths, SampleAt(who, i))
  {
    var h := Hour(who.timestamps[i]);
    var bucket := BucketAt(timePaths, h);
    var coords := who.path[i];
    var values := AddVisit(bucket.values, coords, who.agent.id);
    var busyAgents := if i == 0 then bucket.busyAgents + [who.agent.id] else bucket.busyAgents;
    r := Put(timePaths, h, Bucket(busyAgents, values, bucket.stamps + 1));
  }

  /** Sample `i` of `who` into its 300-second slice, under all four categories. */
  method AddToSlice(simpleTimeData: SliceTable, who: AgentRecord, i: nat)
    returns (r: SliceTable)
    requires i < |who.timestamps| && i < |who.path|
    ensures r == SliceStep(simpleTimeData, SampleAt(who, i))
  {
    ghost var s := SampleAt(who, i);
    var slice := SliceKey(who.timestamps[i]);
    var agentId := who.agent.id;
    var cats := if slice in simpleTimeData then simpleTimeData[slice] else map[];
    ghost var cats0 := cats;
    cats := Push(cats, "all", agentId);
    cats := Push(cats, who.agent.mode, agentId);
    cats := Push(cats, who.agent.agentAge, agentId);
    cats := Push(cats, who.agent.residentOrVisitor, agentId);
    assert cats == PushCategories(cats0, s);
    r := simpleTimeData[slice := cats];
  }

  /** The first `i + 1` samples of `who` extend its first `i`. */
  lemma SamplesSnoc(before: seq<Sample>, who: AgentRecord, i: nat)
    requires i < |who.timestamps| && i < |who.path|
    ensures before + AgentSamples(who, i + 1) == (before + AgentSamples(who, i)) + [SampleAt(who, i)]
  {
  }

  /** After the first `i` samples of `who`: `done` are all samples so far,
      and the structures are their table and slices. */
  predicate Tracks(before: seq<Sample>, who: AgentRecord, i: nat, done: seq<Sample>,
                   timePaths: seq<Slot>, simpleTimeData: SliceTable)
  {
    i <= |who.timestamps| && i <= |who.path| && done == before + AgentSamples(who, i) &&
    timePaths == TableOf(done) && simpleTimeData == SlicesOf(done)
  }

  /** Sample `i` of `who` into both structures: they go on being the table
      and the slices of all samples so far. */
  method AddSample(ghost before: seq<Sample>, who: AgentRecord, i: nat, ghost done: seq<Sample>,
                   timePaths: seq<Slot>, simpleTimeData: SliceTable)
    returns (ghost done': seq<Sample>, timePaths': seq<Slot>, simpleTimeData': SliceTable)
    requires i < |who.timestamps| && i < |who.path|
    requires Tracks(before, who, i, done, timePaths, simpleTimeData)
    ensures Tracks(before, who, i + 1, done', timePaths', simpleTimeData')
  {
    done' := done + [SampleAt(who, i)];
    SamplesSnoc(before, who, i);
    assert done'[..|done|] == done;
    timePaths' := AddToHour(timePaths, who, i);
    simpleTimeData' := AddToSlice(simpleTimeData, who, i);
  }

  /** Section #3 of the loop body for one record: every (timestamp, path
      point) pair goes into its hour bucket and its 300-second slice, after
      the samples `before` of the earlier records. Reports `covered == false`
      where `who.path[i]` would be undefined. */
  method AddTimeData(ghost before: seq<Sample>, who: AgentRecord,
                     timePaths0: seq<Slot>, simpleTimeData0: SliceTable)
    returns (covered: bool, timePaths: seq<Slot>, simpleTimeData: SliceTable)
    requires timePaths0 == TableOf(before) && simpleTimeData0 == SlicesOf(before)
    ensures covered == PathCovers(who)
    ensures covered ==>
              timePaths == TableOf(before + AgentSamples(who, |who.timestamps|)) &&
              simpleTimeData == SlicesOf(before + AgentSamples(who, |who.timestamps|))
  {
    timePaths, simpleTimeData := timePaths0, simpleTimeData0;
    var i := 0;
    ghost var done := before;
    assert before + AgentSamples(who, 0) == before;
    while i < |who.timestamps|
      invariant Tracks(before, who, i, done, timePaths, simpleTimeData)
    {
      if i >= |who.path| {
        return false, timePaths, simpleTimeData;
      }
      done, timePaths, simpleTimeData := AddSample(before, who, i, done, timePaths, simpleTimeData);
      i := i + 1;
    }
    covered := true;
  }

  /** Section #1 for one record: each of its trips gets `agent` overwritten
      in place and is pushed, in order. Returns the trip list and the record
      as the writes leave it. */
  method AddTrips(trips0: seq<Trip>, who: AgentRecord) returns (trips: seq<Trip>, tagged: AgentRecord)
    ensures trips == trips0 + TagTrips(who)
    ensures tagged == TaggedRecord(who)
  {
    trips := trips0;
    tagged := who;
    if who.trips.Some? {
      var ts := who.trips.value;
      var n := 0;
      while n < |ts|
        invariant n <= |ts| == |who.trips.value|
        invariant forall j :: 0 <= j < |ts| ==>
                    ts[j] == if j < n then who.trips.value[j].(agent := who.agent.id) else who.trips.value[j]
        invariant trips == trips0 + TagTrips(who)[..n]
      {
        assert TagTrips(who)[..n + 1] == TagTrips(who)[..n] + [who.trips.value[n].(agent := who.agent.id)];
        ts := ts[n := ts[n].(agent := who.agent.id)];
        trips := trips + [ts[n]];
        n := n + 1;
      }
      assert TagTrips(who)[..n] == TagTrips(who) == ts;
      tagged := who.(trips := Some(ts));
    } else {
      assert trips0 + TagTrips(who) == trips0;
    }
  }

  /** Section #2 for one record: the id is filed under the value of every
      entry that is neither `id` nor `source` and not a sentinel value. */
  method AddFilterEntries(data0: map<string, seq<AgentId>>, who: AgentRecord)
    returns (data: map<string, seq<AgentId>>)
    ensures data == AddEntries(data0, who.agent.id, who.agent.entries)
  {
    data := data0;
    var entries := who.agent.entries;
    var e := 0;
    while e < |entries|
      invariant e <= |entries|
      invariant data == AddEntries(data0, who.agent.id, entries[..e])
    {
      FilterStep(data0, who.agent.id, entries, e);
      var (key, value) := entries[e];
      if key != "id" && key != "source" {
        if value != "unknown" && value != "nil" {
          data := Push(data, value, who.agent.id);
        }
      }
      e := e + 1;
    }
    assert entries[..e] == entries;
  }

  /** The five structures and the tagged records after the first `index`
      records. */
  predicate BuiltUpTo(rs: seq<AgentRecord>, index: nat, agentIndexes: map<AgentId, nat>,
                      trips: seq<Trip>, filterData: map<string, seq<AgentId>>,
                      timePaths: seq<Slot>, simpleTimeData: SliceTable, records: seq<AgentRecord>)
    requires index <= |rs|
  {
    && records == TaggedRecords(rs[..index])
    && AllCovered(rs[..index])
    && agentIndexes == AgentIndexesOf(rs[..index])
    && trips == TripsOf(rs[..index])
    && filterData == FilterOf(rs[..index])
    && timePaths == TableOf(Samples(rs[..index]))
    && simpleTimeData == SlicesOf(Samples(rs[..index]))
  }

  /** The body of the loop over `abmCore` for record `index`. */
  method AddRecord(abmCore: seq<AgentRecord>, index: nat, agentIndexes0: map<AgentId, nat>,
                   trips0: seq<Trip>, filterData0: map<string, seq<AgentId>>,
                   timePaths0: seq<Slot>, simpleTimeData0: SliceTable, records0: seq<AgentRecord>)
    returns (covered: bool, agentIndexes: map<AgentId, nat>, trips: seq<Trip>,
             filterData: map<string, seq<AgentId>>, timePaths: seq<Slot>, simpleTimeData: SliceTable,
             records: seq<AgentRecord>)
    requires index < |abmCore|
    requires BuiltUpTo(abmCore, index, agentIndexes0, trips0, filterData0, timePaths0, simpleTimeData0, records0)
    ensures covered == PathCovers(abmCore[index])
    ensures covered ==> BuiltUpTo(abmCore, index + 1, agentIndexes, trips, filterData, timePaths, simpleTimeData, records)
  {
    var who := abmCore[index];
    var agentId := who.agent.id;
    // #0 position of the agent
    agentIndexes := agentIndexes0[agentId := index];
    // #1 trips
    var tagged;
    trips, tagged := AddTrips(trips0, who);
    records := records0 + [tagged];
    // #2 filter set
    filterData := AddFilterEntries(filterData0, who);
    // #3 time data
    covered, timePaths, simpleTimeData := AddTimeData(Samples(abmCore[..index]), who, timePaths0, simpleTimeData0);
    PrefixStep(abmCore, index);
  }

  /** `computeLoop`'s pass over `abmCore`: the five structures are filled
      record by record; a record with a missing path point stops the pass
      before anything is committed. */
  method BuildIndexes(abmCore: seq<AgentRecord>) returns (r: Result<Indexes>)
    ensures r == IndexesOf(abmCore)
  {
    var agentIndexes: map<AgentId, nat> := map[];
    var abmFilterData: map<string, seq<AgentId>> := map[];
    var timePaths: seq<Slot> := [];
    var simpleTimeData: SliceTable := map[];
    var trips: seq<Trip> := [];
    var records: seq<AgentRecord> := [];
    var index := 0;
    while index < |abmCore|
      invariant index <= |abmCore|
      invariant BuiltUpTo(abmCore, index, agentIndexes, trips, abmFilterData, timePaths, simpleTimeData, records)
    {
      var covered;
      covered, agentIndexes, trips, abmFilterData, timePaths, simpleTimeData, records :=
        AddRecord(abmCore, index, agentIndexes, trips, abmFilterData, timePaths, simpleTimeData, records);
      if !covered {
        // `who.path[i].toString()` on undefined: nothing is committed
        FirstUncoveredIs(abmCore, index);
        return Fail(MissingPathPoint(index, |abmCore[index].path|));
      }
      index := index + 1;
    }
    assert abmCore[..index] == abmCore;
    r := Ok(Indexes(agentIndexes, trips, abmFilterData, timePaths, simpleTimeData, records));
  }
}
