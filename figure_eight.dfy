/**
 * FigureEightController: the cached neighbour list of ConsensusFailure
 * (15 entries), but only the headway term, with the fixed gain 0.006, plus
 * a bias chosen by the parity test `carid % 1` on the index read from the
 * vehicle's own id. An integer modulo 1 is always 0, so the bias is +0.005
 * for every vehicle. The configured consensus gains are stored and never
 * used.
 */
module FigureEight {
  import opened Kinematics
  import opened Numerics
  import opened VehicleIds
  import opened NeighbourCache
  import Consensus
  import ConsensusFailure

  /** The fixed gain on the mean headway difference. */
  const HeadwayGain: real := 0.006

  /** `-.005 if carid % 1 else +.005`. */
  function ParityBias(carid: int): (b: real)
    ensures b == 0.005
  {
    if carid % 1 != 0 then -0.005 else 0.005
  }

  /** The command for a vehicle whose own id reads back as `carid`: `a * ((1 - (v/v0)^4) + term)`. */
  function BiasedCommand(p: Consensus.Params, v: real, headSum: real, count: real, carid: int): real
    requires p.v0 != 0.0 && count != 0.0
  {
    p.a * (Consensus.SelfTerm(v, p.v0) + (HeadwayGain * (headSum / count) + ParityBias(carid)))
  }

  /**
   * The command computed from a cache, failing as the source does and in
   * its order: an empty cache divides by zero first, then the id without a
   * `_` or with a non-integer second field raises IndexError or ValueError,
   * then a zero `v0` divides by zero.
   */
  function CachedHeadwayLaw(p: Consensus.Params, v: real, h: real, selfId: VehicleId, info: seq<NeighbourInfo>): (r: Result<real>)
    ensures info == [] ==> r == Err(ZeroDivisionError)
    ensures info != [] && CarIndex(selfId).Err? ==> r == Err(CarIndex(selfId).error)
    ensures info != [] && CarIndex(selfId).Ok? ==> (r.Err? <==> p.v0 == 0.0)
    ensures r.Err? ==> (r.error == ZeroDivisionError <==> (info == [] || (CarIndex(selfId).Ok? && p.v0 == 0.0)))
  {
    if info == [] then Err(ZeroDivisionError)
    else match CarIndex(selfId)
      case Err(e) => Err(e)
      case Ok(carid) =>
        if p.v0 == 0.0 then Err(ZeroDivisionError)
        else Ok(BiasedCommand(p, v, Sum(CachedHeadwayDiffs(info, h)), |info| as real, carid))
  }

  /** One call of `get_accel`: the cache schedule of ConsensusFailure with this law. */
  function Tick(p: Consensus.Params, st: ConsensusFailure.CacheState, interval: nat, k: nat,
                env: Snapshot, self: VehicleId): (c: ConsensusFailure.Call)
    requires interval > 0 && env.Valid() && self in env.vehicles
    ensures c.state.info == CacheForCall(st.counter, interval, st.info, env, self, k)
    ensures c.command.Ok? ==> c.state.counter == st.counter + 1
    ensures c.command.Err? ==> c.state.counter == st.counter
  {
    var info := CacheForCall(st.counter, interval, st.info, env, self, k);
    var me := env.vehicles[self];
    var r := CachedHeadwayLaw(p, me.speed, me.headway, self, info);
    ConsensusFailure.Call(ConsensusFailure.CacheState(if r.Ok? then st.counter + 1 else st.counter, info), r)
  }

  /** The loop of `get_accel` over the cache: the sum of headway differences. */
  method AccumulateHeadways(info: seq<NeighbourInfo>, h: real) returns (headSum: real)
    ensures headSum == Sum(CachedHeadwayDiffs(info, h))
  {
    ghost var heads := CachedHeadwayDiffs(info, h);
    headSum := 0.0;
    for i := 0 to |info|
      invariant headSum == Sum(heads[..i])
    {
      SumStep(heads, i);
      headSum := headSum + (h - info[i].headway);
    }
    assert heads[..|info|] == heads;
  }

  class FigureEightController {
    const vehId: VehicleId
    const params: Consensus.Params
    const updateInterval: nat := 1
    const consensusCarCount: nat := 15
    var counter: nat
    var consensusInfo: seq<NeighbourInfo>

    function State(): ConsensusFailure.CacheState
      reads this
    {
      ConsensusFailure.CacheState(counter, consensusInfo)
    }

    constructor (vehId: VehicleId, params: Consensus.Params)
      ensures this.vehId == vehId && this.params == params
      ensures counter == 0 && consensusInfo == []
    {
      this.vehId := vehId;
      this.params := params;
      counter := 0;
      consensusInfo := [];
    }

    /** `get_accel`: refresh the cache if due, sum the headway differences, add the bias, count the call. */
    method GetAccel(env: Snapshot) returns (r: Result<real>)
      requires env.Valid() && vehId in env.vehicles
      modifies this
      ensures ConsensusFailure.Call(State(), r) ==
              Tick(params, old(State()), updateInterval, consensusCarCount, env, vehId)
    {
      ResyncsIsModulo(counter, updateInterval);
      if counter % updateInterval == 0 {
        consensusInfo := Rebuild(env, vehId, consensusCarCount);
      }
      var v := env.vehicles[vehId].speed;
      var h := env.vehicles[vehId].headway;
      var info := consensusInfo;
      assert info == CacheForCall(old(counter), updateInterval, old(consensusInfo), env, vehId, consensusCarCount);
      var headSum := AccumulateHeadways(info, h);
      if |info| == 0 {
        r := Err(ZeroDivisionError);
      } else {
        var carid := CarIndex(vehId);
        if carid.Err? {
          r := Err(carid.error);
        } else if params.v0 == 0.0 {
          r := Err(ZeroDivisionError);
        } else {
          r := Ok(BiasedCommand(params, v, headSum, |info| as real, carid.value));
        }
      }
      assert r == CachedHeadwayLaw(params, v, h, vehId, info);
      if r.Ok? {
        counter := counter + 1;
      }
    }
  }

  /**
   * Whatever index the id carries, every vehicle gets the same +0.005: the
   * command is `a * ((1 - (v/v0)^4) + 0.006 * mean + 0.005)`, the same for
   * any two ids that parse.
   */
  lemma ParityIsIrrelevant(p: Consensus.Params, v: real, h: real, id1: VehicleId, id2: VehicleId, info: seq<NeighbourInfo>)
    requires CarIndex(id1).Ok? && CarIndex(id2).Ok?
    ensures CachedHeadwayLaw(p, v, h, id1, info) == CachedHeadwayLaw(p, v, h, id2, info)
  {
  }

  /** The fleet ids `idm_<k>` always parse, so for them only the cache and `v0` can fail. */
  lemma FleetIdsNeverFailToParse(p: Consensus.Params, v: real, h: real, k: nat, info: seq<NeighbourInfo>)
    ensures CachedHeadwayLaw(p, v, h, IdmId(k), info).Err? <==> (info == [] || p.v0 == 0.0)
  {
    IdmIdIndex(k);
  }

  /** The configured consensus gains are ignored: only `v0` and `a` enter the command. */
  lemma ConsensusGainsIgnored(p: Consensus.Params, q: Consensus.Params, v: real, h: real,
                              selfId: VehicleId, info: seq<NeighbourInfo>)
    requires p.v0 == q.v0 && p.a == q.a
    ensures CachedHeadwayLaw(p, v, h, selfId, info) == CachedHeadwayLaw(q, v, h, selfId, info)
  {
    if info != [] && CarIndex(selfId).Ok? && p.v0 != 0.0 {
      var hs := Sum(CachedHeadwayDiffs(info, h));
      var carid := CarIndex(selfId).value;
      assert BiasedCommand(p, v, hs, |info| as real, carid) == BiasedCommand(q, v, hs, |info| as real, carid);
    }
  }

  /**
   * A cache whose headways all equal the vehicle's own gives no headway
   * term: the command is the self-term plus the bias, `a * ((1 - (v/v0)^4) + 0.005)`.
   */
  lemma MatchingHeadwaysGiveBiasedSelfTerm(p: Consensus.Params, v: real, h: real, selfId: VehicleId,
                                          info: seq<NeighbourInfo>)
    requires info != [] && p.v0 != 0.0 && CarIndex(selfId).Ok?
    requires forall i :: 0 <= i < |info| ==> info[i].headway == h
    ensures CachedHeadwayLaw(p, v, h, selfId, info) == Ok(BiasedSelfCommand(p, v))
  {
    SumOfZeros(CachedHeadwayDiffs(info, h));
    ZeroHeadwaySumLeavesBias(p, v, |info| as real, CarIndex(selfId).value);
  }

  /** `a * ((1 - (v/v0)^4) + 0.005)`: the command when the headway term is zero. */
  function BiasedSelfCommand(p: Consensus.Params, v: real): real
    requires p.v0 != 0.0
  {
    p.a * (Consensus.SelfTerm(v, p.v0) + 0.005)
  }

  lemma ZeroHeadwaySumLeavesBias(p: Consensus.Params, v: real, count: real, carid: int)
    requires p.v0 != 0.0 && count != 0.0
    ensures BiasedCommand(p, v, 0.0, count, carid) == BiasedSelfCommand(p, v)
  {
    assert 0.0 / count == 0.0;
  }
}
