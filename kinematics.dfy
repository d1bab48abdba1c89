/**
 * The read-only kinematic snapshot every acceleration law is given once per
 * simulation tick (what the controllers read through `env.k.vehicle` and
 * `env.sim_step`), and the outcome types of a law.
 */
module Kinematics {

  datatype Option<T> = None | Some(value: T)

  /** The Python exceptions a law can raise. */
  datatype LawError = ZeroDivisionError | IndexError | ValueError

  datatype Result<T> = Ok(value: T) | Err(error: LawError)

  type VehicleId = string

  datatype Pos2 = Pos2(x: real, y: real)

  /** What the simulation kernel reports about one vehicle. */
  datatype VehicleState = VehicleState(
    speed: real,
    previousSpeed: real,
    headway: real,
    position: real,
    position2d: Pos2,
    leader: Option<VehicleId>)

  /**
   * One tick of the kernel: `ids` is `get_ids()` in the kernel's order,
   * `vehicles` answers the per-id queries (it may also answer for ids that
   * are not active, such as a leader reported by id), `simStep` is
   * `env.sim_step`.
   */
  datatype Snapshot = Snapshot(ids: seq<VehicleId>, vehicles: map<VehicleId, VehicleState>, simStep: real)
  {
    predicate Valid()
    {
      && simStep > 0.0
      && (forall i, j :: 0 <= i < j < |ids| ==> ids[i] != ids[j])
      && (forall i :: 0 <= i < |ids| ==> ids[i] in vehicles)
    }
  }

  /** `get_vehicle_accel`: the acceleration over the last tick. */
  function GetVehicleAccel(env: Snapshot, id: VehicleId): (acc: real)
    requires env.Valid() && id in env.vehicles
    ensures acc * env.simStep == env.vehicles[id].speed - env.vehicles[id].previousSpeed
    ensures acc >= 0.0 <==> env.vehicles[id].speed >= env.vehicles[id].previousSpeed
  {
    (env.vehicles[id].speed - env.vehicles[id].previousSpeed) / env.simStep
  }
}
