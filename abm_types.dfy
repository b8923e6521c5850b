/** The entities of the agent-based-model (ABM) result set and of the
    structures derived from it. */
module AbmTypes {
  import opened SeqUtil

  type AgentId = string

  /** A path point's `toString()` form, treated as an opaque key. */
  type CoordKey = string

  /** Why an action stops with a JavaScript TypeError. The first two are
      raised before the action commits anything; a `null` bucket is met in
      `updateLayers` after earlier buckets were pruned in place, and, inside
      `filterAbmCore`, after the narrowed set and the filtered table were
      committed. */
  datatype Error =
    | MissingPathPoint(agent: nat, sample: nat)  // `who.path[i]` is undefined
    | UnknownFilterKey(key: string)              // `filterSet[key]` is undefined
    | NullBucket(hour: nat)                      // `heatLayerData[key]` is null

  datatype Result<T> = Ok(value: T) | Fail(error: Error)

  /** One trip of an agent; `agent` is overwritten with the owner's id on load.
      Durations and lengths are carried, never computed on. */
  datatype Trip = Trip(agent: AgentId, origin: CoordKey, destination: CoordKey,
                       pathIndexes: seq<int>, duration: real, length: real)

  /** The `agent` block of a record. `entries` is `Object.entries(who.agent)`
      with every value stringified (it includes the `id` and `source` keys);
      the other fields are the values read directly by name. */
  datatype AgentProps = AgentProps(id: AgentId, entries: seq<(string, string)>,
                                   mode: string, agentAge: string,
                                   residentOrVisitor: string)

  /** One raw simulation record. `trips` may be absent; timestamps are seconds
      from simulation start. */
  datatype AgentRecord = AgentRecord(agent: AgentProps, trips: Option<seq<Trip>>,
                                     path: seq<CoordKey>, timestamps: seq<nat>)

  /** One entry of a bucket's `values` object: a coordinate and its visitors. */
  datatype CoordVisitors = CoordVisitors(coord: CoordKey, visitors: seq<AgentId>)

  /** One hour bucket of `timePaths`. `values` keeps the insertion order that
      `Object.entries` reports. */
  datatype Bucket = Bucket(busyAgents: seq<AgentId>, values: seq<CoordVisitors>, stamps: nat)

  /** One index of the `timePaths` array. `Hole` is an index never assigned
      (skipped by `Object.entries`); `Null` is what a hole becomes after a
      `JSON.parse(JSON.stringify(..))` copy (reported by `Object.entries`). */
  datatype Slot = Hole | Null | Present(bucket: Bucket)

  /** `simpleTimeData`: 300-second slice -> category -> agent ids. */
  type SliceTable = map<nat, map<string, seq<AgentId>>>

  /** One point of the heat (aggregation) layer. */
  datatype HeatPoint = HeatPoint(c: CoordKey, w: nat)

  /** `m[k] || []` for a list-valued object. */
  function Get(m: map<string, seq<AgentId>>, k: string): seq<AgentId> {
    if k in m then m[k] else []
  }
}
