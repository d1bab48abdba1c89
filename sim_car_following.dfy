/**
 * SimCarFollowingController: leaves the acceleration to the simulator's own
 * car-following model by returning no command.
 */
module SimCarFollowing {
  import opened Kinematics

  /** `SimCarFollowingController.get_accel`: `None` whatever the snapshot. */
  function GetAccel(env: Snapshot, self: VehicleId): (r: Option<real>)
    ensures r.None?
  {
    None
  }
}
