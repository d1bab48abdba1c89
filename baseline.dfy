/**
 * BaselineController: a linear law built from the desired-speed ratio and,
 * when the leader is closer than 40 distance units, the speed difference to
 * the leader.
 */
module Baseline {
  import opened Kinematics
  import opened Numerics

  /** The parameters the law reads (the controller also stores T, b, delta and s0 but never uses them). */
  datatype Params = Params(v0: real, a: real)

  /** The fixed proximity threshold below which the leader's speed matters. */
  const ProximityThreshold: real := 40.0

  /** The kernel can answer the queries the law makes about the leader it reports. */
  predicate LeaderKnown(env: Snapshot, self: VehicleId)
    requires self in env.vehicles
  {
    env.vehicles[self].leader.Some? ==> env.vehicles[self].leader.value in env.vehicles
  }

  /** A leader exists and `norm(lp - p)`, the gap along the road, is below the threshold. */
  predicate LeaderInRange(env: Snapshot, self: VehicleId)
    requires self in env.vehicles && LeaderKnown(env, self)
  {
    var me := env.vehicles[self];
    me.leader.Some? && Abs(env.vehicles[me.leader.value].position - me.position) < ProximityThreshold
  }

  /** `slowing`: the speed difference to the leader when it is in range, else 0. */
  function Slowing(env: Snapshot, self: VehicleId): (s: real)
    requires self in env.vehicles && LeaderKnown(env, self)
    ensures !LeaderInRange(env, self) ==> s == 0.0
    ensures LeaderInRange(env, self) ==>
      s == env.vehicles[self].speed - env.vehicles[env.vehicles[self].leader.value].speed
  {
    var me := env.vehicles[self];
    if me.leader.Some? && Abs(env.vehicles[me.leader.value].position - me.position) < ProximityThreshold
    then me.speed - env.vehicles[me.leader.value].speed
    else 0.0
  }

  /** `BaselineController.get_accel`. */
  function GetAccel(p: Params, env: Snapshot, self: VehicleId): (r: Result<real>)
    requires env.Valid() && self in env.vehicles && LeaderKnown(env, self)
    ensures r.Err? <==> p.v0 == 0.0
    ensures r.Err? ==> r.error == ZeroDivisionError
    ensures r.Ok? && !LeaderInRange(env, self) ==>
      r.value == p.a * (1.0 - env.vehicles[self].speed / p.v0)
    ensures r.Ok? && LeaderInRange(env, self) ==>
      r.value == p.a * ((1.0 - env.vehicles[self].speed / p.v0)
                        + (env.vehicles[self].speed - env.vehicles[env.vehicles[self].leader.value].speed))
  {
    if p.v0 == 0.0 then Err(ZeroDivisionError)
    else Ok(p.a * ((1.0 - env.vehicles[self].speed / p.v0) + Slowing(env, self)))
  }

  /**
   * With a positive gain, a slower leader inside the threshold raises the
   * command above the free-road value `a * (1 - v/v0)`: the term called
   * `slowing` adds `v - lv`, which is positive exactly when the leader is slower.
   */
  lemma SlowerLeaderInRangeRaisesCommand(p: Params, env: Snapshot, self: VehicleId)
    requires env.Valid() && self in env.vehicles && LeaderKnown(env, self)
    requires p.a > 0.0 && p.v0 != 0.0 && LeaderInRange(env, self)
    ensures GetAccel(p, env, self).Ok?
    ensures GetAccel(p, env, self).value > p.a * (1.0 - env.vehicles[self].speed / p.v0)
            <==> env.vehicles[env.vehicles[self].leader.value].speed < env.vehicles[self].speed
  {
    var me := env.vehicles[self];
    var lv := env.vehicles[me.leader.value].speed;
    var free := 1.0 - me.speed / p.v0;
    assert GetAccel(p, env, self).value == p.a * free + p.a * (me.speed - lv);
    if lv < me.speed {
      assert p.a * (me.speed - lv) > 0.0;
    } else {
      assert p.a * (me.speed - lv) <= 0.0;
    }
  }
}
