/** The compile-time feature switches of the robot (`Flags.*`), taken as parameters. */
module Flags {

  /** Flags.DriveTrain.* */
  datatype DriveTrainFlags = DriveTrainFlags(
    enabled: bool,
    enableDriveMotors: bool,
    drivePidControl: bool,
    enableTurnMotors: bool,
    turnPidControl: bool,
    swerveModuleOptimization: bool,
    enableCosineCompensator: bool,
    enableLockedHeadingMode: bool,
    enableLimeyApriltagsOdometryFusing: bool,
    enableOculusOdometryFusing: bool,
    enableAngularVelocityCompensationTeleop: bool)
  {
    /** Whether a closed-loop drive velocity setpoint reaches the drive controller. */
    predicate DriveSetpointsEnabled() {
      enabled && enableDriveMotors && drivePidControl
    }

    /** Whether a closed-loop turn position setpoint reaches the turn controller. */
    predicate TurnSetpointsEnabled() {
      enabled && enableTurnMotors && turnPidControl
    }
  }
}
