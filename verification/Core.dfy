/**
 The command vocabulary every stage shares (src/ros_mcp/contracts/core.py).
 */
module Core {
  import opened RealMath
  import opened Geometry

  datatype Direction = Translate(along: Translation) | RotateLeft | RotateRight {
    predicate IsRotation() { !Translate? }
  }

  datatype MoveTarget = MoveTarget(direction: Direction, distance: Option<real>, angleDeg: Option<real>) {
    /** The controller's two assertions: a translation carries a distance, a rotation an angle. */
    predicate WellFormed() {
      if direction.IsRotation() then angleDeg.Some? else distance.Some?
    }
  }

  datatype NavigateTarget = NavigateTarget(x: real, y: real, yaw: Option<real>)

  datatype Constraints = Constraints(
    maxLinear: real, maxAngular: real, maxLinearAccel: real, maxAngularAccel: real,
    maxMoveDistance: real, maxNavigationDistance: real, obstacleStopDistance: real) {

    /** What the configuration loader guarantees of every limit. */
    predicate Positive() {
      && maxLinear > 0.0 && maxAngular > 0.0 && maxLinearAccel > 0.0 && maxAngularAccel > 0.0
      && maxMoveDistance > 0.0 && maxNavigationDistance > 0.0 && obstacleStopDistance >= 0.0
    }
  }

  datatype ErrorCode =
    | SensorStale | Cancelled | ActionTimeout | SafetyRejected | PermissionDenied | RobotNotReady
    | CapabilityUnavailable | InvalidFrame | NavigationFailed | InternalError | InvalidArgument
}
