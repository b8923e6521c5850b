/** The acceptance rule and the polling loop of `updateWindLayer`: a wind
    result is stored when it is complete, when none is stored yet, or when it
    has more features than the stored one; the calculation is requested
    again until a complete result arrives. */
module WindPoller {
  import opened SeqUtil

  /** A GeoJSON feature of the wind result, treated as opaque. */
  type Feature = string

  /** The stored wind result (`source.options.data`). */
  datatype WindData = WindData(features: seq<Feature>)

  /** One fetched result: `complete` (an absent flag counts as `false`) and
      its data. */
  datatype WindResponse = WindResponse(complete: bool, data: WindData)

  /** Number of stored features, or -1 when nothing is stored. */
  function StoredCount(stored: Option<WindData>): int {
    if stored.None? then -1 else |stored.value.features|
  }

  /** `receivedCompleteResult || newResults`. */
  predicate Accepts(stored: Option<WindData>, resp: WindResponse) {
    resp.complete || stored.None? || |resp.data.features| > |stored.value.features|
  }

  /** One fetch: the new stored result, and whether to poll again. */
  datatype Step = Step(stored: Option<WindData>, again: bool)

  function WindStep(stored: Option<WindData>, resp: WindResponse): (s: Step)
    ensures s.stored == stored || s.stored == Some(resp.data)
    ensures s.again <==> !resp.complete
  {
    Step(if Accepts(stored, resp) then Some(resp.data) else stored, !resp.complete)
  }

  /** A result is stored exactly when it is complete, nothing is stored, or it
      has strictly more features; a rejected result leaves the stored one
      untouched. */
  lemma WindStepStores(stored: Option<WindData>, resp: WindResponse)
    ensures (resp.complete || stored.None? || |resp.data.features| > StoredCount(stored)) ==>
              WindStep(stored, resp).stored == Some(resp.data)
    ensures !(resp.complete || stored.None? || |resp.data.features| > StoredCount(stored)) ==>
              WindStep(stored, resp).stored == stored
  {
  }

  /** Without a complete result the stored feature count never goes down;
      once something is stored it stays stored. */
  lemma WindStepMonotone(stored: Option<WindData>, resp: WindResponse)
    ensures !resp.complete ==> StoredCount(WindStep(stored, resp).stored) >= StoredCount(stored)
    ensures WindStep(stored, resp).stored.Some?
  {
  }

  /** Receiving the same result twice changes nothing the second time. */
  lemma WindStepIdempotent(stored: Option<WindData>, resp: WindResponse)
    ensures WindStep(WindStep(stored, resp).stored, resp) == WindStep(stored, resp)
  {
  }

  /** The stored result and the number of fetches after polling with the
      successive results `resps`, stopping at the first complete one (or when
      the supplied results run out). */
  datatype Run = Run(stored: Option<WindData>, polls: nat)

  function WindRun(stored: Option<WindData>, resps: seq<WindResponse>): (r: Run)
    ensures r.polls <= |resps|
    ensures resps != [] ==> r.polls >= 1
    decreases |resps|
  {
    if resps == [] then Run(stored, 0)
    else
      var s := WindStep(stored, resps[0]);
      if !s.again then Run(s.stored, 1)
      else
        var r := WindRun(s.stored, resps[1..]);
        Run(r.stored, r.polls + 1)
  }

  /** Polling goes on exactly while results are incomplete: every fetch but
      the last returned an incomplete result, and the last was complete unless
      the results ran out. */
  lemma {:induction false} WindRunPolls(stored: Option<WindData>, resps: seq<WindResponse>)
    ensures var r := WindRun(stored, resps);
            && (forall i :: 0 <= i < r.polls - 1 ==> !resps[i].complete)
            && (r.polls < |resps| ==> resps[r.polls - 1].complete)
    decreases |resps|
  {
    if resps != [] && !resps[0].complete {
      WindRunPolls(WindStep(stored, resps[0]).stored, resps[1..]);
      var r := WindRun(stored, resps);
      forall i | 0 <= i < r.polls - 1 ensures !resps[i].complete {
        if i > 0 {
          assert resps[i] == resps[1..][i - 1];
        }
      }
      if r.polls < |resps| {
        assert resps[r.polls - 1] == resps[1..][r.polls - 2];
      }
    }
  }

  /** The first complete result ends the run, and it is what stays stored. */
  lemma {:induction false} WindRunComplete(stored: Option<WindData>, resps: seq<WindResponse>, c: nat)
    requires c < |resps| && resps[c].complete
    requires forall i :: 0 <= i < c ==> !resps[i].complete
    ensures WindRun(stored, resps) == Run(Some(resps[c].data), c + 1)
    decreases c
  {
    if c > 0 {
      assert forall i :: 0 <= i < c - 1 ==> resps[1..][i] == resps[i + 1];
      WindRunComplete(WindStep(stored, resps[0]).stored, resps[1..], c - 1);
    }
  }

  /** Over a run of incomplete results the stored feature count never
      decreases. */
  lemma {:induction false} WindRunMonotone(stored: Option<WindData>, resps: seq<WindResponse>)
    requires forall i :: 0 <= i < |resps| ==> !resps[i].complete
    ensures StoredCount(WindRun(stored, resps).stored) >= StoredCount(stored)
    decreases |resps|
  {
    if resps != [] {
      WindStepMonotone(stored, resps[0]);
      assert forall i :: 0 <= i < |resps| - 1 ==> resps[1..][i] == resps[i + 1];
      WindRunMonotone(WindStep(stored, resps[0]).stored, resps[1..]);
    }
  }
}
