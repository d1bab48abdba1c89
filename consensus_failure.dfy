/**
 * ConsensusFailureController: the consensus law over a cached list of the
 * nearest vehicles. A call first rebuilds the cache when
 * `counter % update_interval == 0`, then averages, over the cached entries,
 * the differences between the vehicle's own headway, speed and acceleration
 * and the cached ones, and finally increments the counter. Nothing after
 * the cache assignment is undone by a ZeroDivisionError, but the counter is
 * only incremented when the command is computed.
 */
module ConsensusFailure {
  import opened Kinematics
  import opened Numerics
  import opened NeighbourCache
  import Consensus

  /** The controller's mutable part: `self.counter` and `self.consensus_info`. */
  datatype CacheState = CacheState(counter: nat, info: seq<NeighbourInfo>)

  /** The state a call leaves and the command it returns (or the exception it raises). */
  datatype Call = Call(state: CacheState, command: Result<real>)

  /**
   * The command computed from a cache: own speed `v`, headway `h` and
   * acceleration `acc` against the cached entries, each sum divided by the
   * cache length.
   */
  function CachedConsensus(p: Consensus.Params, v: real, h: real, acc: real, info: seq<NeighbourInfo>): (r: Result<real>)
    ensures r.Err? <==> (info == [] || p.v0 == 0.0)
    ensures r.Err? ==> r.error == ZeroDivisionError
  {
    Consensus.Combine(p, v, Sum(CachedHeadwayDiffs(info, h)), Sum(CachedSpeedDiffs(info, v)),
                      Sum(CachedAccelDiffs(info, acc)), |info| as real)
  }

  /**
   * A call computes a command, rather than raising ZeroDivisionError,
   * exactly when the cache it works with is non-empty and the desired speed
   * is non-zero.
   */
  predicate Succeeds(p: Consensus.Params, st: CacheState, interval: nat, k: nat, env: Snapshot, self: VehicleId)
    requires interval > 0 && env.Valid() && self in env.vehicles
  {
    CacheForCall(st.counter, interval, st.info, env, self, k) != [] && p.v0 != 0.0
  }

  /** The state a call leaves: the cache it works with, and the counter moved on by one when the call succeeds. */
  function Step(p: Consensus.Params, st: CacheState, interval: nat, k: nat, env: Snapshot, self: VehicleId): (next: CacheState)
    requires interval > 0 && env.Valid() && self in env.vehicles
    ensures next.info == CacheForCall(st.counter, interval, st.info, env, self, k)
    ensures next.counter == (if Succeeds(p, st, interval, k, env, self) then st.counter + 1 else st.counter)
  {
    var info := CacheForCall(st.counter, interval, st.info, env, self, k);
    CacheState(if info != [] && p.v0 != 0.0 then st.counter + 1 else st.counter, info)
  }

  /** One call of `get_accel` on the state `st`, as a function of the state and the snapshot. */
  function Tick(p: Consensus.Params, st: CacheState, interval: nat, k: nat, env: Snapshot, self: VehicleId): (c: Call)
    requires interval > 0 && env.Valid() && self in env.vehicles
    ensures c.state == Step(p, st, interval, k, env, self)
    ensures c.state.info == CacheForCall(st.counter, interval, st.info, env, self, k)
    ensures c.command.Ok? <==> Succeeds(p, st, interval, k, env, self)
    ensures c.command.Ok? <==> c.state.counter == st.counter + 1
    ensures c.command.Err? ==> c.state.counter == st.counter && c.command.error == ZeroDivisionError
  {
    var next := Step(p, st, interval, k, env, self);
    var me := env.vehicles[self];
    Call(next, CachedConsensus(p, me.speed, me.headway, GetVehicleAccel(env, self), next.info))
  }

  class ConsensusFailureController {
    const vehId: VehicleId
    const params: Consensus.Params
    const updateInterval: nat := 1
    const consensusCarCount: nat := 20
    var counter: nat
    var consensusInfo: seq<NeighbourInfo>

    function State(): CacheState
      reads this
    {
      CacheState(counter, consensusInfo)
    }

    constructor (vehId: VehicleId, params: Consensus.Params)
      ensures this.vehId == vehId && this.params == params
      ensures counter == 0 && consensusInfo == []
    {
      this.vehId := vehId;
      this.params := params;
      counter := 0;
      consensusInfo := [];
    }

    /** `get_accel`: refresh the cache if due, accumulate over it, combine, count the call. */
    method GetAccel(env: Snapshot) returns (r: Result<real>)
      requires env.Valid() && vehId in env.vehicles
      modifies this
      ensures Call(State(), r) == Tick(params, old(State()), updateInterval, consensusCarCount, env, vehId)
    {
      ResyncsIsModulo(counter, updateInterval);
      if counter % updateInterval == 0 {
        consensusInfo := Rebuild(env, vehId, consensusCarCount);
      }
      var v := env.vehicles[vehId].speed;
      var h := env.vehicles[vehId].headway;
      var a := GetVehicleAccel(env, vehId);
      var info := consensusInfo;
      assert info == CacheForCall(old(counter), updateInterval, old(consensusInfo), env, vehId, consensusCarCount);
      var headSum, velSum, accSum := AccumulateDiffs(info, h, v, a);
      r := Consensus.Combine(params, v, headSum, velSum, accSum, |info| as real);
      assert r == CachedConsensus(params, v, h, a, info);
      if r.Ok? {
        counter := counter + 1;
      }
    }
  }

  /** The loop of `get_accel` over the cache: the three sums of differences, entry by entry. */
  method AccumulateDiffs(info: seq<NeighbourInfo>, h: real, v: real, a: real)
    returns (headSum: real, velSum: real, accSum: real)
    ensures headSum == Sum(CachedHeadwayDiffs(info, h))
    ensures velSum == Sum(CachedSpeedDiffs(info, v))
    ensures accSum == Sum(CachedAccelDiffs(info, a))
  {
    ghost var heads := CachedHeadwayDiffs(info, h);
    ghost var vels := CachedSpeedDiffs(info, v);
    ghost var accs := CachedAccelDiffs(info, a);
    headSum, velSum, accSum := 0.0, 0.0, 0.0;
    for i := 0 to |info|
      invariant headSum == Sum(heads[..i])
      invariant velSum == Sum(vels[..i])
      invariant accSum == Sum(accs[..i])
    {
      SumStep(heads, i);
      SumStep(vels, i);
      SumStep(accs, i);
      headSum := headSum + (h - info[i].headway);
      velSum := velSum + (v - info[i].speed);
      accSum := accSum + (a - info[i].accel);
    }
    assert heads[..|info|] == heads && vels[..|info|] == vels && accs[..|info|] == accs;
  }

  /**
   * When every cached entry matches the vehicle's own headway, speed and
   * acceleration, all three consensus terms vanish and the command is the
   * bare self-term `a * (1 - (v/v0)^4)`.
   */
  lemma MatchingCacheGivesSelfTerm(p: Consensus.Params, v: real, h: real, acc: real, info: seq<NeighbourInfo>)
    requires info != [] && p.v0 != 0.0
    requires forall i :: 0 <= i < |info| ==> info[i].headway == h && info[i].speed == v && info[i].accel == acc
    ensures CachedConsensus(p, v, h, acc, info) == Ok(Consensus.SelfCommand(p, v))
  {
    SumOfZeros(CachedHeadwayDiffs(info, h));
    SumOfZeros(CachedSpeedDiffs(info, v));
    SumOfZeros(CachedAccelDiffs(info, acc));
  }

  /**
   * A vehicle that is alone on the network (or keeps no neighbours) gets an
   * empty cache and every call fails with ZeroDivisionError, leaving the
   * counter where it was.
   */
  lemma NoNeighboursFails(p: Consensus.Params, st: CacheState, interval: nat, k: nat, env: Snapshot, self: VehicleId)
    requires interval > 0 && env.Valid() && self in env.vehicles
    requires Resyncs(st.counter, interval)
    requires k == 0 || (|env.ids| == 1 && self in env.ids)
    ensures Tick(p, st, interval, k, env, self) == Call(CacheState(st.counter, []), Err(ZeroDivisionError))
  {
    NearestLength(env, self, k);
  }

  /**
   * The controller as constructed (counter 0, interval 1) rebuilds its
   * cache on every call, from the current snapshot, whatever it held.
   */
  lemma EveryCallRebuilds(p: Consensus.Params, st: CacheState, k: nat, env: Snapshot, self: VehicleId)
    requires env.Valid() && self in env.vehicles
    ensures Tick(p, st, 1, k, env, self).state.info == Rebuild(env, self, k)
  {
    FirstAndUnitIntervalCallsRebuild(st.counter, 1);
  }

  /**
   * With a longer interval, a call between rebuilds reads the kept cache:
   * the neighbours' current state does not enter the command, only the
   * vehicle's own does.
   */
  lemma FrozenCacheIgnoresNeighbours(p: Consensus.Params, st: CacheState, interval: nat, k: nat,
                                     env1: Snapshot, env2: Snapshot, self: VehicleId)
    requires interval > 0 && env1.Valid() && env2.Valid()
    requires self in env1.vehicles && self in env2.vehicles
    requires !Resyncs(st.counter, interval)
    requires env1.vehicles[self] == env2.vehicles[self] && env1.simStep == env2.simStep
    ensures Tick(p, st, interval, k, env1, self) == Tick(p, st, interval, k, env2, self)
  {
    CacheFrozenBetweenRebuilds(st.counter, interval, st.info, env1, env2, self, k);
  }

  /** Every snapshot of a run can be given to the law for vehicle `self`. */
  predicate RunnableOn(envs: seq<Snapshot>, self: VehicleId)
  {
    forall t :: 0 <= t < |envs| ==> envs[t].Valid() && self in envs[t].vehicles
  }

  /** The state after the first `n` calls of a run on `envs[0], envs[1], ...`, starting from `st`. */
  function Run(p: Consensus.Params, st: CacheState, interval: nat, k: nat, envs: seq<Snapshot>, self: VehicleId, n: nat): CacheState
    requires interval > 0 && RunnableOn(envs, self) && n <= |envs|
    decreases n
  {
    if n == 0 then st
    else Step(p, Run(p, st, interval, k, envs, self, n - 1), interval, k, envs[n - 1], self)
  }

  /** Each of the first `n` calls of the run computes a command. */
  predicate FirstCallsSucceed(p: Consensus.Params, st: CacheState, interval: nat, k: nat,
                              envs: seq<Snapshot>, self: VehicleId, n: nat)
    requires interval > 0 && RunnableOn(envs, self) && n <= |envs|
    decreases n
  {
    n == 0 ||
    (FirstCallsSucceed(p, st, interval, k, envs, self, n - 1) &&
     Succeeds(p, Run(p, st, interval, k, envs, self, n - 1), interval, k, envs[n - 1], self))
  }

  /** When the first `t` calls succeed, call `t` of a run starting at counter `c` sees counter `c + t`. */
  lemma {:induction false} SuccessfulRunCountsCalls(p: Consensus.Params, st: CacheState, interval: nat, k: nat,
                                                    envs: seq<Snapshot>, self: VehicleId, t: nat)
    requires interval > 0 && RunnableOn(envs, self) && t <= |envs|
    requires FirstCallsSucceed(p, st, interval, k, envs, self, t)
    ensures Run(p, st, interval, k, envs, self, t).counter == st.counter + t
    decreases t
  {
    if t > 0 {
      SuccessfulRunCountsCalls(p, st, interval, k, envs, self, t - 1);
      var before := Run(p, st, interval, k, envs, self, t - 1);
      assert Succeeds(p, before, interval, k, envs[t - 1], self);
      assert Run(p, st, interval, k, envs, self, t) == Step(p, before, interval, k, envs[t - 1], self);
    }
  }

  /**
   * The resync schedule of a successful run: call `t` rebuilds exactly when
   * `(c + t) % interval == 0`; from a fresh controller (counter 0), on calls
   * `0, N, 2N, ...` for interval `N`.
   */
  lemma SuccessfulRunResyncSchedule(p: Consensus.Params, st: CacheState, interval: nat, k: nat,
                                    envs: seq<Snapshot>, self: VehicleId, t: nat)
    requires interval > 0 && RunnableOn(envs, self)
    requires t < |envs| && FirstCallsSucceed(p, st, interval, k, envs, self, t)
    ensures Resyncs(Run(p, st, interval, k, envs, self, t).counter, interval) <==> Resyncs(st.counter + t, interval)
    ensures Resyncs(Run(p, st, interval, k, envs, self, t).counter, interval) ==>
      Step(p, Run(p, st, interval, k, envs, self, t), interval, k, envs[t], self).info == Rebuild(envs[t], self, k)
  {
    SuccessfulRunCountsCalls(p, st, interval, k, envs, self, t);
  }
}
