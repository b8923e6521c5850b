/** The two small helpers at the end of the scenario actions: the list of
    bridges a design scenario opens, and whether a noise data set was computed
    for a given noise scenario. */
module ScenarioHelpers {
  import opened SeqUtil

  /** The bridge names a scenario can open. */
  datatype Bridge = BridgeVeddelHorizontal | BridgeHafencity | UnderpassVeddelNorth

  /** All bridges in the order `updateBridges` lists them. */
  const AllBridges: seq<Bridge> := [BridgeVeddelHorizontal, BridgeHafencity, UnderpassVeddelNorth]

  /** `updateBridges`: the horizontal Veddel bridge is always there, then the
      HafenCity bridge and the northern Veddel underpass if their flags (the
      arguments' truthiness) are set. */
  function UpdateBridges(bridgeHafencity: bool, underpassVeddel: bool): (r: seq<Bridge>)
    ensures |r| == 1 + (if bridgeHafencity then 1 else 0) + (if underpassVeddel then 1 else 0)
    ensures r[0] == BridgeVeddelHorizontal
    ensures BridgeHafencity in r <==> bridgeHafencity
    ensures UnderpassVeddelNorth in r <==> underpassVeddel
    ensures Distinct(r)
  {
    [BridgeVeddelHorizontal] +
      (if bridgeHafencity then [BridgeHafencity] else []) +
      (if underpassVeddel then [UnderpassVeddelNorth] else [])
  }

  /** The flags a bridge list stands for. */
  function BridgeFlags(bridges: seq<Bridge>): (bool, bool) {
    (BridgeHafencity in bridges, UnderpassVeddelNorth in bridges)
  }

  /** The list determines the flags it was built from, and keeps the fixed
      order of `AllBridges`. */
  lemma UpdateBridgesFlags(bridgeHafencity: bool, underpassVeddel: bool)
    ensures BridgeFlags(UpdateBridges(bridgeHafencity, underpassVeddel)) == (bridgeHafencity, underpassVeddel)
    ensures IsSubseq(UpdateBridges(bridgeHafencity, underpassVeddel), AllBridges)
  {
    var r := UpdateBridges(bridgeHafencity, underpassVeddel);
    assert AllBridges[1..] == [BridgeHafencity, UnderpassVeddelNorth];
    assert AllBridges[1..][1..] == [UnderpassVeddelNorth];
    assert r[1..] == (if bridgeHafencity then [BridgeHafencity] else []) +
                     (if underpassVeddel then [UnderpassVeddelNorth] else []);
    if bridgeHafencity {
      assert r[1..][1..] == (if underpassVeddel then [UnderpassVeddelNorth] else []);
      if underpassVeddel {
        assert r[1..][1..][1..] == [];
      } else {
        assert r[1..][1..] == [];
      }
    } else if underpassVeddel {
      assert r[1..] == [UnderpassVeddelNorth];
      assert r[1..][1..] == [];
    } else {
      assert r[1..] == [];
    }
  }

  /** The two parameters a noise scenario is matched on; JavaScript numbers,
      modelled without `NaN`. */
  datatype NoiseScenario = NoiseScenario(trafficQuota: real, maxSpeed: real)

  /** A noise result set, carrying the scenario it was computed for. */
  datatype NoiseDataSet = NoiseDataSet(noiseScenario: NoiseScenario)

  /** `isNoiseScenarioMatching`: traffic quota and maximum speed both agree. */
  function IsNoiseScenarioMatching(noiseDataSet: NoiseDataSet, noiseScenario: NoiseScenario): (r: bool)
    ensures r <==> noiseDataSet.noiseScenario == noiseScenario
  {
    noiseDataSet.noiseScenario.trafficQuota == noiseScenario.trafficQuota &&
    noiseDataSet.noiseScenario.maxSpeed == noiseScenario.maxSpeed
  }

  /** Matching is an equivalence on scenarios: a data set matches the scenario
      it was computed for, and matching is symmetric and transitive. */
  lemma NoiseMatchingEquivalence(a: NoiseScenario, b: NoiseScenario, c: NoiseScenario)
    ensures IsNoiseScenarioMatching(NoiseDataSet(a), a)
    ensures IsNoiseScenarioMatching(NoiseDataSet(a), b) ==> IsNoiseScenarioMatching(NoiseDataSet(b), a)
    ensures IsNoiseScenarioMatching(NoiseDataSet(a), b) && IsNoiseScenarioMatching(NoiseDataSet(b), c) ==>
              IsNoiseScenarioMatching(NoiseDataSet(a), c)
  {
  }
}
