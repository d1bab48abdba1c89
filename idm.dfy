/**
 * IDMController: the Intelligent Driver Model (Treiber, Hennecke and
 * Helbing, 2000) with the headway floored away from zero.
 *
 * `np.sqrt(a * b)` is not computed: the caller passes its value `sqrtAB`,
 * constrained by `sqrtAB * sqrtAB == a * b` when `a * b > 0`. When
 * `a * b < 0` numpy's root is NaN, the whole dynamic part of the desired
 * gap is NaN, and Python's `max(0, nan)` keeps 0, so `s_star` is `s0`.
 * When `a * b == 0` with `a, b >= 0` the root is `+0.0` and numpy's division
 * gives `-inf` (for `v*(v - lead_vel) < 0`) or NaN (for `0/0`), which `max`
 * also drops; only `v*(v - lead_vel) > 0` gives an infinite gap. A product
 * of `-0.0` (one factor negative) flips those infinities; signed zeros are
 * not modelled. `sqrtAB` is unused whenever `a * b <= 0` (any positive value
 * will do).
 */
module Idm {
  import opened Kinematics
  import opened Numerics

  datatype Params = Params(v0: real, T: real, a: real, b: real, delta: nat, s0: real)

  /** Headways closer to zero than this are replaced by it. */
  const MinHeadway: real := 0.001

  /** `if abs(h) < 1e-3: h = 1e-3`. */
  function FloorHeadway(h: real): (r: real)
    ensures Abs(r) >= MinHeadway
    ensures Abs(h) >= MinHeadway ==> r == h
    ensures Abs(h) < MinHeadway ==> r == MinHeadway
  {
    if Abs(h) < MinHeadway then MinHeadway else h
  }

  /** The kernel can answer the speed query for the leader it reports, unless that is `''`. */
  predicate LeaderKnown(env: Snapshot, self: VehicleId)
    requires self in env.vehicles
  {
    var l := env.vehicles[self].leader;
    l.Some? && l.value != "" ==> l.value in env.vehicles
  }

  /** The leader's speed, or `None` when the leader is `None` or `''` ("no car ahead"). */
  function LeadSpeed(env: Snapshot, self: VehicleId): (s: Option<real>)
    requires self in env.vehicles && LeaderKnown(env, self)
    ensures s.None? <==> env.vehicles[self].leader in {None, Some("")}
  {
    match env.vehicles[self].leader
    case None => None
    case Some(l) => if l == "" then None else Some(env.vehicles[l].speed)
  }

  /** The dynamic part `v*T + v*(v - lead_vel) / (2*sqrt(a*b))` of the desired gap. */
  function DynamicGap(p: Params, v: real, leadVel: real, sqrtAB: real): real
    requires sqrtAB > 0.0
  {
    v * p.T + v * (v - leadVel) / (2.0 * sqrtAB)
  }

  /**
   * With a leader, the dynamic part is NaN or `-inf` and `max(0, ...)` drops
   * it: a negative `a * b` (NaN root), or a zero root over a non-positive
   * `v*(v - lead_vel)`.
   */
  predicate DynamicPartDropped(p: Params, v: real, leadVel: real)
  {
    p.a * p.b < 0.0 || (p.a * p.b == 0.0 && v * (v - leadVel) <= 0.0)
  }

  /** `s_star`: 0 without a leader, else `s0 + max(0, DynamicGap)`. */
  function DesiredGap(p: Params, v: real, lead: Option<real>, sqrtAB: real): (g: real)
    requires sqrtAB > 0.0
    ensures lead.None? ==> g == 0.0
    ensures lead.Some? && DynamicPartDropped(p, v, lead.value) ==> g == p.s0
    ensures lead.Some? && !DynamicPartDropped(p, v, lead.value) ==>
      g >= p.s0 && g >= p.s0 + DynamicGap(p, v, lead.value, sqrtAB)
    ensures lead.Some? && !DynamicPartDropped(p, v, lead.value) ==>
      g == p.s0 || g == p.s0 + DynamicGap(p, v, lead.value, sqrtAB)
  {
    match lead
    case None => 0.0
    case Some(lv) =>
      if DynamicPartDropped(p, v, lv) then p.s0
      else
        var dyn := DynamicGap(p, v, lv, sqrtAB);
        p.s0 + (if 0.0 >= dyn then 0.0 else dyn)
  }

  /** `a * (1 - (v/v0)**delta)`: the command on a free road. */
  function FreeRoad(p: Params, v: real): real
    requires p.v0 != 0.0
  {
    p.a * (1.0 - Pow(v / p.v0, p.delta))
  }

  /** `a * (1 - (v/v0)**delta - (s_star/h)**2)` for an already floored headway `h`. */
  function Command(p: Params, v: real, h: real, sStar: real): real
    requires p.v0 != 0.0 && h != 0.0
  {
    p.a * (1.0 - Pow(v / p.v0, p.delta) - Pow(sStar / h, 2))
  }

  /** The IDM on numbers: speed `v`, raw headway `h`, the leader's speed if any. */
  function Law(p: Params, v: real, h: real, lead: Option<real>, sqrtAB: real): (r: Result<real>)
    requires sqrtAB > 0.0
    ensures r.Err? <==> p.v0 == 0.0
    ensures r.Err? ==> r.error == ZeroDivisionError
  {
    if p.v0 == 0.0 then Err(ZeroDivisionError)
    else Ok(Command(p, v, FloorHeadway(h), DesiredGap(p, v, lead, sqrtAB)))
  }

  /** `IDMController.get_accel`. */
  function GetAccel(p: Params, env: Snapshot, self: VehicleId, sqrtAB: real): (r: Result<real>)
    requires env.Valid() && self in env.vehicles && LeaderKnown(env, self)
    requires sqrtAB > 0.0 && (p.a * p.b > 0.0 ==> sqrtAB * sqrtAB == p.a * p.b)
    requires LeadSpeed(env, self).Some? && p.a * p.b == 0.0 ==>
      env.vehicles[self].speed * (env.vehicles[self].speed - LeadSpeed(env, self).value) <= 0.0
    ensures r.Err? <==> p.v0 == 0.0
    ensures r.Ok? && env.vehicles[self].leader in {None, Some("")} ==>
      r.value == FreeRoad(p, env.vehicles[self].speed)
    ensures r.Ok? && p.a >= 0.0 ==> r.value <= FreeRoad(p, env.vehicles[self].speed)
  {
    var me := env.vehicles[self];
    var r := Law(p, me.speed, me.headway, LeadSpeed(env, self), sqrtAB);
    if p.v0 == 0.0 then r
    else FreeRoadBound(p, me.speed, me.headway, LeadSpeed(env, self), sqrtAB); r
  }

  /** A helper for the bound lemmas: `x ** 2` is `x * x`, non-negative, and positive for `x != 0`. */
  lemma SquareNonNegative(x: real)
    ensures Pow(x, 2) == x * x >= 0.0
    ensures x != 0.0 ==> Pow(x, 2) > 0.0
  {
    assert Pow(x, 2) == x * (x * Pow(x, 0));
    if x < 0.0 {
      var y := -x;
      assert y > 0.0 && y * y > 0.0;
      assert x * x == y * y;
    } else if x > 0.0 {
      assert x * x > 0.0;
    }
  }

  /**
   * The interaction term only ever lowers the command: with a non-negative
   * gain the result is at most the free-road value, and it equals it
   * without a leader.
   */
  lemma FreeRoadBound(p: Params, v: real, h: real, lead: Option<real>, sqrtAB: real)
    requires sqrtAB > 0.0 && p.v0 != 0.0
    ensures lead.None? ==> Law(p, v, h, lead, sqrtAB).value == FreeRoad(p, v)
    ensures p.a >= 0.0 ==> Law(p, v, h, lead, sqrtAB).value <= FreeRoad(p, v)
  {
    var q := DesiredGap(p, v, lead, sqrtAB) / FloorHeadway(h);
    SquareNonNegative(q);
    if lead.None? {
      assert q == 0.0;
    }
    if p.a >= 0.0 {
      assert p.a * Pow(q, 2) >= 0.0;
    }
  }

  /**
   * With a positive gain the command reaches the free-road value exactly
   * when the desired gap is zero (always without a leader; with one, only
   * if `s0 + max(0, ...)` is 0).
   */
  lemma FreeRoadIffNoDesiredGap(p: Params, v: real, h: real, lead: Option<real>, sqrtAB: real)
    requires sqrtAB > 0.0 && p.v0 != 0.0 && p.a > 0.0
    ensures Law(p, v, h, lead, sqrtAB).value == FreeRoad(p, v) <==> DesiredGap(p, v, lead, sqrtAB) == 0.0
  {
    var g := DesiredGap(p, v, lead, sqrtAB);
    var h' := FloorHeadway(h);
    var q := g / h';
    SquareNonNegative(q);
    assert Law(p, v, h, lead, sqrtAB).value == FreeRoad(p, v) - p.a * Pow(q, 2);
    if g != 0.0 {
      assert g == q * h';
      assert q != 0.0;
      PositiveProduct(p.a, Pow(q, 2));
    } else {
      assert q == 0.0;
    }
  }

  /** Every headway closer to zero than 1e-3 gives the command at headway 1e-3. */
  lemma HeadwayFloorIsInvisible(p: Params, v: real, h: real, lead: Option<real>, sqrtAB: real)
    requires sqrtAB > 0.0 && Abs(h) < MinHeadway
    ensures Law(p, v, h, lead, sqrtAB) == Law(p, v, MinHeadway, lead, sqrtAB)
    ensures FloorHeadway(FloorHeadway(h)) == FloorHeadway(h)
  {
    assert FloorHeadway(MinHeadway) == MinHeadway;
  }

  /**
   * With `a * b < 0` the NaN root drops out through `max(0, nan)`: the
   * desired gap is `s0`, so neither the leader's speed nor the value passed
   * for the root changes the command.
   */
  lemma NegativeRootProductIgnoresLeaderSpeed(p: Params, v: real, h: real, lv1: real, lv2: real,
                                              root1: real, root2: real)
    requires root1 > 0.0 && root2 > 0.0 && p.a * p.b < 0.0
    ensures Law(p, v, h, Some(lv1), root1) == Law(p, v, h, Some(lv2), root2)
  {
    assert DesiredGap(p, v, Some(lv1), root1) == DesiredGap(p, v, Some(lv2), root2);
  }

  /**
   * With a zero root (`a * b == 0`) and a leader no slower than a forward
   * moving vehicle, or a standing vehicle, the `-inf` or NaN gap is dropped
   * by `max`: the command is that of the minimum gap `s0`, whatever value is
   * passed for the root.
   */
  lemma ZeroRootKeepsMinimumGap(p: Params, v: real, h: real, lv: real, sqrtAB: real)
    requires sqrtAB > 0.0 && p.a * p.b == 0.0 && v * (v - lv) <= 0.0 && p.v0 != 0.0
    ensures Law(p, v, h, Some(lv), sqrtAB) == Ok(Command(p, v, FloorHeadway(h), p.s0))
  {
    assert DynamicPartDropped(p, v, lv);
  }

  /** A zero gain with no leader: the root is never taken and the command is 0. */
  lemma ZeroGainWithoutLeaderIsZero(p: Params, env: Snapshot, self: VehicleId, sqrtAB: real)
    requires env.Valid() && self in env.vehicles && LeaderKnown(env, self)
    requires env.vehicles[self].leader in {None, Some("")}
    requires p.a == 0.0 && p.v0 != 0.0 && sqrtAB > 0.0
    ensures GetAccel(p, env, self, sqrtAB) == Ok(0.0)
  {
  }

  /** A standing vehicle with no leader and `v0 = 30`, `delta = 4` is commanded its full `a`. */
  lemma StandstillAcceleratesAtFullGain(p: Params, h: real, sqrtAB: real)
    requires sqrtAB > 0.0 && p.v0 == 30.0 && p.delta == 4
    ensures Law(p, 0.0, h, None, sqrtAB) == Ok(p.a)
  {
    assert 0.0 / p.v0 == 0.0;
    assert Pow(0.0 / p.v0, p.delta) == 0.0;
    var h' := FloorHeadway(h);
    assert DesiredGap(p, 0.0, None, sqrtAB) / h' == 0.0;
    SquareNonNegative(0.0);
  }
}
