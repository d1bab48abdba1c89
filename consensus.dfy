/**
 * ConsensusController: the fleet-wide consensus law. Every tick it sums,
 * over the fleet ids `idm_0 .. idm_{n-1}` (the vehicle itself included),
 * the differences between its own headway, speed and acceleration and each
 * vehicle's, divides each sum by `n - 1` and adds the gain-scaled means to
 * the IDM self-term `1 - (v/v0)^4`.
 */
module Consensus {
  import opened Kinematics
  import opened Numerics
  import opened VehicleIds

  /** Desired speed, gain and the three consensus gains (the controller also accepts `s0` and stores `delta`, and uses neither). */
  datatype Params = Params(v0: real, a: real, cHeadway: real, cVelocity: real, cAcceleration: real)

  /** `1 - (v / v0)**4`: the exponent is fixed at 4 whatever delta is configured. */
  function SelfTerm(v: real, v0: real): real
    requires v0 != 0.0
  {
    1.0 - Pow(v / v0, 4)
  }

  /** `a * (1 - (v/v0)**4)`: the command when every consensus term is zero. */
  function SelfCommand(p: Params, v: real): real
    requires p.v0 != 0.0
  {
    p.a * SelfTerm(v, p.v0)
  }

  /**
   * `a * ((1 - (v/v0)**4) + c_h*(head_sum/count) - c_v*(vel_sum/count) - c_a*(acc_sum/count))`,
   * raising ZeroDivisionError on a zero count or a zero desired speed.
   */
  function Combine(p: Params, v: real, headSum: real, velSum: real, accSum: real, count: real): (r: Result<real>)
    ensures r.Err? <==> (count == 0.0 || p.v0 == 0.0)
    ensures r.Err? ==> r.error == ZeroDivisionError
    ensures r.Ok? && headSum == 0.0 && velSum == 0.0 && accSum == 0.0 ==> r.value == SelfCommand(p, v)
  {
    if count == 0.0 || p.v0 == 0.0 then Err(ZeroDivisionError)
    else Ok(p.a * (SelfTerm(v, p.v0) + p.cHeadway * (headSum / count)
                   - p.cVelocity * (velSum / count) - p.cAcceleration * (accSum / count)))
  }

  /** The kernel knows every fleet id `idm_0 .. idm_{n-1}` the law queries. */
  predicate FleetKnown(env: Snapshot)
  {
    forall k :: 0 <= k < |env.ids| ==> IdmId(k) in env.vehicles
  }

  /** The terms `h - c_head` the headway loop adds, in loop order. */
  function HeadwayDiffs(env: Snapshot, h: real): (s: seq<real>)
    requires FleetKnown(env)
    ensures |s| == |env.ids|
  {
    seq(|env.ids|, k requires 0 <= k < |env.ids| => h - env.vehicles[IdmId(k)].headway)
  }

  /** The terms `v - c_vel` the velocity loop adds. */
  function SpeedDiffs(env: Snapshot, v: real): (s: seq<real>)
    requires FleetKnown(env)
    ensures |s| == |env.ids|
  {
    seq(|env.ids|, k requires 0 <= k < |env.ids| => v - env.vehicles[IdmId(k)].speed)
  }

  /** The terms `acc - abs(c_vel - c_prev_vel) / sim_step` the acceleration loop adds. */
  function AccelDiffs(env: Snapshot, acc: real): (s: seq<real>)
    requires env.Valid() && FleetKnown(env)
    ensures |s| == |env.ids|
  {
    seq(|env.ids|, k requires 0 <= k < |env.ids| =>
      acc - Abs(env.vehicles[IdmId(k)].speed - env.vehicles[IdmId(k)].previousSpeed) / env.simStep)
  }

  /** What `ConsensusController.get_accel` returns. */
  function FleetAccel(p: Params, env: Snapshot, self: VehicleId): (r: Result<real>)
    requires env.Valid() && self in env.vehicles && FleetKnown(env)
    ensures r.Err? <==> (|env.ids| == 1 || p.v0 == 0.0)
    ensures r.Err? ==> r.error == ZeroDivisionError
  {
    var me := env.vehicles[self];
    Combine(p, me.speed,
            Sum(HeadwayDiffs(env, me.headway)),
            Sum(SpeedDiffs(env, me.speed)),
            Sum(AccelDiffs(env, GetVehicleAccel(env, self))),
            (|env.ids| - 1) as real)
  }

  /** `ConsensusController.get_accel`: three accumulator loops over the fleet, then the combination. */
  method GetAccel(p: Params, env: Snapshot, self: VehicleId) returns (r: Result<real>)
    requires env.Valid() && self in env.vehicles && FleetKnown(env)
    ensures r == FleetAccel(p, env, self)
  {
    var v := env.vehicles[self].speed;
    var h := env.vehicles[self].headway;
    var n := |env.ids|;
    var headSum := AccumulateHeadways(env, h);
    var velSum := AccumulateSpeeds(env, v);
    var pv := env.vehicles[self].previousSpeed;
    var acc := (v - pv) / env.simStep;
    var accSum := AccumulateAccels(env, acc);
    r := Combine(p, v, headSum, velSum, accSum, (n - 1) as real);
  }

  /** The headway loop: `head_sum += h - c_head` for `idm_0 .. idm_{n-1}`. */
  method AccumulateHeadways(env: Snapshot, h: real) returns (headSum: real)
    requires FleetKnown(env)
    ensures headSum == Sum(HeadwayDiffs(env, h))
  {
    ghost var heads := HeadwayDiffs(env, h);
    var n := |env.ids|;
    headSum := 0.0;
    var cid := 0;
    while cid < n
      invariant 0 <= cid <= n
      invariant headSum == Sum(heads[..cid])
    {
      var cHead := env.vehicles[IdmId(cid)].headway;
      SumStep(heads, cid);
      headSum := headSum + (h - cHead);
      cid := cid + 1;
    }
    assert heads[..n] == heads;
  }

  /** The velocity loop: `vel_sum += v - c_vel`. */
  method AccumulateSpeeds(env: Snapshot, v: real) returns (velSum: real)
    requires FleetKnown(env)
    ensures velSum == Sum(SpeedDiffs(env, v))
  {
    ghost var vels := SpeedDiffs(env, v);
    var n := |env.ids|;
    velSum := 0.0;
    var cid := 0;
    while cid < n
      invariant 0 <= cid <= n
      invariant velSum == Sum(vels[..cid])
    {
      var cVel := env.vehicles[IdmId(cid)].speed;
      SumStep(vels, cid);
      velSum := velSum + (v - cVel);
      cid := cid + 1;
    }
    assert vels[..n] == vels;
  }

  /** The acceleration loop: `acc_sum += acc - abs(c_vel - c_prev_vel) / sim_step`. */
  method AccumulateAccels(env: Snapshot, acc: real) returns (accSum: real)
    requires env.Valid() && FleetKnown(env)
    ensures accSum == Sum(AccelDiffs(env, acc))
  {
    ghost var accs := AccelDiffs(env, acc);
    var n := |env.ids|;
    accSum := 0.0;
    var cid := 0;
    while cid < n
      invariant 0 <= cid <= n
      invariant accSum == Sum(accs[..cid])
    {
      var cVel := env.vehicles[IdmId(cid)].speed;
      var cPrevVel := env.vehicles[IdmId(cid)].previousSpeed;
      var cAcc := Abs(cVel - cPrevVel) / env.simStep;
      SumStep(accs, cid);
      accSum := accSum + (acc - cAcc);
      cid := cid + 1;
    }
    assert accs[..n] == accs;
  }

  /** Every fleet vehicle shares self's speed, previous speed and headway. */
  predicate UniformFleet(env: Snapshot, self: VehicleId)
    requires self in env.vehicles && FleetKnown(env)
  {
    var me := env.vehicles[self];
    forall k :: 0 <= k < |env.ids| ==>
      && env.vehicles[IdmId(k)].speed == me.speed
      && env.vehicles[IdmId(k)].previousSpeed == me.previousSpeed
      && env.vehicles[IdmId(k)].headway == me.headway
  }

  /**
   * A fleet moving in lockstep with a non-negative acceleration has all
   * three consensus terms zero: the command is the bare self-term.
   */
  lemma UniformFleetGivesSelfTerm(p: Params, env: Snapshot, self: VehicleId)
    requires env.Valid() && self in env.vehicles && FleetKnown(env)
    requires UniformFleet(env, self)
    requires env.vehicles[self].speed >= env.vehicles[self].previousSpeed
    requires |env.ids| != 1 && p.v0 != 0.0
    ensures FleetAccel(p, env, self) == Ok(SelfCommand(p, env.vehicles[self].speed))
  {
    LockstepSumsVanish(env, self);
  }

  lemma LockstepSumsVanish(env: Snapshot, self: VehicleId)
    requires env.Valid() && self in env.vehicles && FleetKnown(env)
    requires UniformFleet(env, self)
    requires env.vehicles[self].speed >= env.vehicles[self].previousSpeed
    ensures Sum(HeadwayDiffs(env, env.vehicles[self].headway)) == 0.0
    ensures Sum(SpeedDiffs(env, env.vehicles[self].speed)) == 0.0
    ensures Sum(AccelDiffs(env, GetVehicleAccel(env, self))) == 0.0
  {
    var me := env.vehicles[self];
    SumOfZeros(HeadwayDiffs(env, me.headway));
    SumOfZeros(SpeedDiffs(env, me.speed));
    var acc := GetVehicleAccel(env, self);
    var accs := AccelDiffs(env, acc);
    assert Abs(me.speed - me.previousSpeed) / env.simStep == acc;
    forall k | 0 <= k < |accs| ensures accs[k] == 0.0 {
    }
    SumOfZeros(accs);
  }

  /**
   * The acceleration loop takes `abs` of the others' accelerations but not
   * of self's, so a fleet decelerating in lockstep (acceleration `acc < 0`)
   * leaves an acceleration sum of `2 * n * acc` instead of zero.
   */
  lemma DeceleratingUniformFleetKeepsAccelTerm(p: Params, env: Snapshot, self: VehicleId)
    requires env.Valid() && self in env.vehicles && FleetKnown(env)
    requires UniformFleet(env, self)
    requires env.vehicles[self].speed < env.vehicles[self].previousSpeed
    requires |env.ids| > 1 && p.v0 != 0.0
    ensures FleetAccel(p, env, self) ==
      Combine(p, env.vehicles[self].speed, 0.0, 0.0,
              (|env.ids| as real) * (2.0 * GetVehicleAccel(env, self)), (|env.ids| - 1) as real)
    ensures p.a != 0.0 && p.cAcceleration != 0.0 ==>
      FleetAccel(p, env, self) != Ok(SelfCommand(p, env.vehicles[self].speed))
  {
    var me := env.vehicles[self];
    var accSum := (|env.ids| as real) * (2.0 * GetVehicleAccel(env, self));
    SumOfZeros(HeadwayDiffs(env, me.headway));
    SumOfZeros(SpeedDiffs(env, me.speed));
    DeceleratingAccelSum(env, self);
    if p.a != 0.0 && p.cAcceleration != 0.0 {
      AccelSumShowsInCommand(p, me.speed, accSum, (|env.ids| - 1) as real);
    }
  }

  /** The acceleration sum of a fleet decelerating in lockstep: `n * 2 * acc`, negative. */
  lemma DeceleratingAccelSum(env: Snapshot, self: VehicleId)
    requires env.Valid() && self in env.vehicles && FleetKnown(env)
    requires UniformFleet(env, self)
    requires env.vehicles[self].speed < env.vehicles[self].previousSpeed
    requires |env.ids| > 0
    ensures Sum(AccelDiffs(env, GetVehicleAccel(env, self)))
            == (|env.ids| as real) * (2.0 * GetVehicleAccel(env, self)) < 0.0
  {
    var acc := GetVehicleAccel(env, self);
    var n := |env.ids| as real;
    LockstepDecelerationDiffs(env, self);
    var accs := AccelDiffs(env, acc);
    assert |accs| as real == n;
    SumOfConstant(accs, 2.0 * acc);
    PositiveTimesNegative(n, 2.0 * acc);
  }

  lemma LockstepDecelerationDiffs(env: Snapshot, self: VehicleId)
    requires env.Valid() && self in env.vehicles && FleetKnown(env)
    requires UniformFleet(env, self)
    requires env.vehicles[self].speed < env.vehicles[self].previousSpeed
    ensures GetVehicleAccel(env, self) < 0.0
    ensures forall k :: 0 <= k < |env.ids| ==>
      AccelDiffs(env, GetVehicleAccel(env, self))[k] == 2.0 * GetVehicleAccel(env, self)
  {
    var me := env.vehicles[self];
    var acc := GetVehicleAccel(env, self);
    assert Abs(me.speed - me.previousSpeed) / env.simStep == -acc;
  }

  /** A non-zero acceleration sum moves the command off the self-term when both gains are non-zero. */
  lemma AccelSumShowsInCommand(p: Params, v: real, accSum: real, count: real)
    requires count != 0.0 && p.v0 != 0.0 && p.a != 0.0 && p.cAcceleration != 0.0 && accSum != 0.0
    ensures Combine(p, v, 0.0, 0.0, accSum, count) != Ok(SelfCommand(p, v))
  {
    var m := accSum / count;
    assert m != 0.0;
    var d := p.cAcceleration * m;
    NonZeroProduct(p.cAcceleration, m);
    NonZeroProduct(p.a, d);
    assert Combine(p, v, 0.0, 0.0, accSum, count).value == p.a * (SelfTerm(v, p.v0) - d);
    assert p.a * (SelfTerm(v, p.v0) - d) == SelfCommand(p, v) - p.a * d;
  }

  /**
   * The loops include the vehicle itself (when it is `idm_j`): it adds
   * nothing to the headway and velocity sums, and `acc - abs(acc)` to the
   * acceleration sum, which is zero only when it is not decelerating.
   */
  lemma SelfContribution(env: Snapshot, self: VehicleId, j: nat)
    requires env.Valid() && self in env.vehicles && FleetKnown(env)
    requires j < |env.ids| && IdmId(j) == self
    ensures var heads := HeadwayDiffs(env, env.vehicles[self].headway);
      Sum(heads) == Sum(heads[..j] + heads[j + 1..])
    ensures var vels := SpeedDiffs(env, env.vehicles[self].speed);
      Sum(vels) == Sum(vels[..j] + vels[j + 1..])
    ensures var acc := GetVehicleAccel(env, self); var accs := AccelDiffs(env, acc);
      Sum(accs) == Sum(accs[..j] + accs[j + 1..]) + (acc - Abs(acc))
  {
    var me := env.vehicles[self];
    SumWithout(HeadwayDiffs(env, me.headway), j);
    SumWithout(SpeedDiffs(env, me.speed), j);
    var acc := GetVehicleAccel(env, self);
    SumWithout(AccelDiffs(env, acc), j);
    AbsOverPositive(me.speed - me.previousSpeed, env.simStep);
  }

  /**
   * With all gains zero the law is the self-term alone; at the desired
   * speed that is zero (the four-car ring with `v = v0 = 10`, `a = 1`).
   */
  lemma ZeroGainsGiveSelfTerm(p: Params, env: Snapshot, self: VehicleId)
    requires env.Valid() && self in env.vehicles && FleetKnown(env)
    requires p.cHeadway == 0.0 && p.cVelocity == 0.0 && p.cAcceleration == 0.0
    requires |env.ids| != 1 && p.v0 != 0.0
    ensures FleetAccel(p, env, self) == Ok(SelfCommand(p, env.vehicles[self].speed))
    ensures env.vehicles[self].speed == p.v0 ==> FleetAccel(p, env, self) == Ok(0.0)
  {
  }
}
