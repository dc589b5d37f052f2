/**
 * The swerve drivetrain: four modules in the fixed order FL, FR, BL, BR and
 * the heading lock.  `drive` gates on the drivetrain flag, runs the heading
 * lock, builds chassis speeds, optionally corrects rotational skew, turns the
 * speeds into module states and hands state i to module i with debug index i.
 *
 * WPILib's kinematics, wheel-speed desaturation and frame conversions are
 * library code and arrive as the functions of a `Library` value.  The gyro
 * and the match phase arrive as a `RobotInputs` value.
 */
module DriveTrain {
  import opened Common
  import opened MathUtil
  import opened Rotation2d
  import opened Flags
  import opened SwerveModule
  import opened HeadingLock

  /** Robot-relative or field-relative chassis velocities (m/s, m/s, rad/s). */
  datatype ChassisSpeeds = ChassisSpeeds(vx: real, vy: real, omega: real)

  /** The WPILib library functions the drivetrain calls. */
  datatype Library = Library(
    /** kinematics.toSwerveModuleStates, in the order FL, FR, BL, BR. */
    toModuleStates: ChassisSpeeds -> Quad<ModuleState>,
    /** desaturateWheelSpeeds against the manual-drive speed limit. */
    desaturate: Quad<ModuleState> -> Quad<ModuleState>,
    /** ChassisSpeeds.fromFieldRelativeSpeeds(speeds, heading). */
    fromFieldRelative: (ChassisSpeeds, Rotation) -> ChassisSpeeds,
    /** ChassisSpeeds.fromRobotRelativeSpeeds(speeds, heading). */
    fromRobotRelative: (ChassisSpeeds, Rotation) -> ChassisSpeeds)

  /** What the drivetrain reads from the rest of the robot during one call. */
  datatype RobotInputs = RobotInputs(gyro: Rotation, yawRate: real, teleop: bool)

  /** The drivetrain's state: its four modules and its heading lock. */
  datatype DriveTrain = DriveTrain(modules: Quad<Module>, lock: LockState)

  /** The skew correction coefficient `drive` uses in teleop. */
  const SkewCoefficient: real := 0.3

  /** The per-module heading tolerance (radians) of the zeroing routine. */
  const ZeroTolerance: real := 0.04

  /** A freshly constructed drivetrain: every module seeded from its power-on readings, lock off. */
  function Construct(powerOn: Quad<ModuleSensors>): (r: DriveTrain)
    ensures r.lock == HeadingLock.Initial && WellFormed(r.lock)
    ensures forall i | 0 <= i < 4 :: r.modules.Get(i) == SwerveModule.Construct(powerOn.Get(i))
  {
    DriveTrain(Quad(SwerveModule.Construct(powerOn.fl), SwerveModule.Construct(powerOn.fr),
                    SwerveModule.Construct(powerOn.bl), SwerveModule.Construct(powerOn.br)),
               HeadingLock.Initial)
  }

  /**
   * angularVelocitySkewCorrection: when the scaled yaw rate is non-zero,
   * re-express the robot-relative speeds in the frame the robot will face
   * after turning by that angle; otherwise leave them alone.
   */
  function AngularVelocitySkewCorrection(lib: Library, robotRelative: ChassisSpeeds, inputs: RobotInputs, coefficient: real): (r: ChassisSpeeds)
    ensures inputs.yawRate * coefficient == 0.0 ==> r == robotRelative
    ensures inputs.yawRate * coefficient != 0.0 ==>
      r == lib.fromFieldRelative(lib.fromRobotRelative(robotRelative, inputs.gyro),
                                 RotateBy(inputs.gyro, FromRadians(inputs.yawRate * coefficient)))
  {
    var angularVelocity := FromRadians(inputs.yawRate * coefficient);
    if Radians(angularVelocity) != 0.0 then
      var fieldRelative := lib.fromRobotRelative(robotRelative, inputs.gyro);
      lib.fromFieldRelative(fieldRelative, RotateBy(inputs.gyro, angularVelocity))
    else
      robotRelative
  }

  /**
   * The chassis speeds `drive` builds from the stick values and the
   * (lock-adjusted) rotation rate: robot-relative as given, or converted from
   * the field frame at the gyro heading; skew-corrected only in teleop with
   * the compensation flag on, and then only while the robot is turning.
   */
  function DriveSpeeds(flags: DriveTrainFlags, lib: Library, inputs: RobotInputs, forward: real, sideways: real, rot: real, fieldRelative: bool): (r: ChassisSpeeds)
    ensures var base := if fieldRelative then lib.fromFieldRelative(ChassisSpeeds(forward, sideways, rot), inputs.gyro)
                        else ChassisSpeeds(forward, sideways, rot);
      && (!(flags.enableAngularVelocityCompensationTeleop && inputs.teleop) ==> r == base)
      && (inputs.yawRate == 0.0 ==> r == base)
      && (flags.enableAngularVelocityCompensationTeleop && inputs.teleop && inputs.yawRate != 0.0 ==>
            r == lib.fromFieldRelative(lib.fromRobotRelative(base, inputs.gyro),
                                       RotateBy(inputs.gyro, FromRadians(inputs.yawRate * SkewCoefficient))))
  {
    var speeds := if fieldRelative then lib.fromFieldRelative(ChassisSpeeds(forward, sideways, rot), inputs.gyro)
                  else ChassisSpeeds(forward, sideways, rot);
    if flags.enableAngularVelocityCompensationTeleop && inputs.teleop then
      AngularVelocitySkewCorrection(lib, speeds, inputs, SkewCoefficient)
    else
      speeds
  }

  /** Hands state i to module i through the debug-index path, with debug index i. */
  function SetModuleStates(flags: DriveTrainFlags, cos: real -> real, modules: Quad<Module>, states: Quad<ModuleState>): (r: Quad<Module>)
    requires CosineBounded(cos)
    ensures forall i | 0 <= i < 4 :: r.Get(i) == SetDesiredStateIndexed(flags, cos, modules.Get(i), states.Get(i), i)
    ensures forall i | 0 <= i < 4 ::
      var target := Target(flags, modules.Get(i).sensors, states.Get(i));
      && r.Get(i).log == modules.Get(i).log + [RecordTarget(i, target)] + Dispatch(flags, Commanded(flags, cos, modules.Get(i).sensors, target))
      && OnlyTurnRelativeDiffers(modules.Get(i).sensors, r.Get(i).sensors)
  {
    var r := Quad(SetDesiredStateIndexed(flags, cos, modules.fl, states.fl, 0),
                  SetDesiredStateIndexed(flags, cos, modules.fr, states.fr, 1),
                  SetDesiredStateIndexed(flags, cos, modules.bl, states.bl, 2),
                  SetDesiredStateIndexed(flags, cos, modules.br, states.br, 3));
    EachModuleRecordsAndSends(flags, cos, modules, states, r);
    r
  }

  /** Module by module, the debug-index path records the optimised target in the module's own slot, then sends its setpoints. */
  lemma EachModuleRecordsAndSends(flags: DriveTrainFlags, cos: real -> real, modules: Quad<Module>, states: Quad<ModuleState>, r: Quad<Module>)
    requires CosineBounded(cos)
    requires r == Quad(SetDesiredStateIndexed(flags, cos, modules.fl, states.fl, 0),
                       SetDesiredStateIndexed(flags, cos, modules.fr, states.fr, 1),
                       SetDesiredStateIndexed(flags, cos, modules.bl, states.bl, 2),
                       SetDesiredStateIndexed(flags, cos, modules.br, states.br, 3))
    ensures forall i | 0 <= i < 4 :: r.Get(i) == SetDesiredStateIndexed(flags, cos, modules.Get(i), states.Get(i), i)
    ensures forall i | 0 <= i < 4 ::
      var target := Target(flags, modules.Get(i).sensors, states.Get(i));
      && r.Get(i).log == modules.Get(i).log + [RecordTarget(i, target)] + Dispatch(flags, Commanded(flags, cos, modules.Get(i).sensors, target))
      && OnlyTurnRelativeDiffers(modules.Get(i).sensors, r.Get(i).sensors)
  {
    forall i | 0 <= i < 4
      ensures r.Get(i) == SetDesiredStateIndexed(flags, cos, modules.Get(i), states.Get(i), i)
      ensures var target := Target(flags, modules.Get(i).sensors, states.Get(i));
        && r.Get(i).log == modules.Get(i).log + [RecordTarget(i, target)] + Dispatch(flags, Commanded(flags, cos, modules.Get(i).sensors, target))
        && OnlyTurnRelativeDiffers(modules.Get(i).sensors, r.Get(i).sensors)
    {
      var after := SetDesiredStateIndexed(flags, cos, modules.Get(i), states.Get(i), i);
      assert r.Get(i) == after;
    }
  }

  /**
   * drive(forward, sideways, rot, fieldRelative).  `None` is the null-pointer
   * failure of the heading lock; a disabled drivetrain does nothing.
   */
  function Drive(flags: DriveTrainFlags, cos: real -> real, lib: Library, inputs: RobotInputs, dt: DriveTrain,
                 forward: real, sideways: real, rot: real, fieldRelative: bool): (r: Option<DriveTrain>)
    requires CosineBounded(cos)
    ensures !flags.enabled ==> r == Some(dt)
    ensures flags.enabled ==>
      (r.None? <==> ApplyLockHeadingMode(flags.enableLockedHeadingMode, dt.lock, forward, sideways, rot, inputs.gyro).NullLockedHeading?)
    ensures flags.enabled && r.Some? ==>
      var step := ApplyLockHeadingMode(flags.enableLockedHeadingMode, dt.lock, forward, sideways, rot, inputs.gyro);
      && r.value.lock == step.lock
      && r.value.modules == SetModuleStates(flags, cos, dt.modules,
           lib.desaturate(lib.toModuleStates(DriveSpeeds(flags, lib, inputs, forward, sideways, step.rot, fieldRelative))))
  {
    if !flags.enabled then Some(dt)
    else
      match ApplyLockHeadingMode(flags.enableLockedHeadingMode, dt.lock, forward, sideways, rot, inputs.gyro)
      case NullLockedHeading => None
      case Stepped(lock, rot') =>
        var states := lib.desaturate(lib.toModuleStates(DriveSpeeds(flags, lib, inputs, forward, sideways, rot', fieldRelative)));
        Some(DriveTrain(SetModuleStates(flags, cos, dt.modules, states), lock))
  }

  /** A drivetrain whose lock is well formed never fails to drive, and its lock stays well formed. */
  lemma DriveKeepsLockWellFormed(flags: DriveTrainFlags, cos: real -> real, lib: Library, inputs: RobotInputs, dt: DriveTrain,
                                 forward: real, sideways: real, rot: real, fieldRelative: bool)
    requires CosineBounded(cos)
    requires WellFormed(dt.lock)
    ensures var r := Drive(flags, cos, lib, inputs, dt, forward, sideways, rot, fieldRelative);
      r.Some? && WellFormed(r.value.lock)
  {
  }

  /**
   * Each module i gets, in order, the debug record of its optimised target in
   * slot i and then the setpoints for that target; its absolute readings do
   * not change.
   */
  lemma DriveDispatchesInModuleOrder(flags: DriveTrainFlags, cos: real -> real, lib: Library, inputs: RobotInputs, dt: DriveTrain,
                                     forward: real, sideways: real, rot: real, fieldRelative: bool, i: nat)
    requires CosineBounded(cos)
    requires i < 4
    requires flags.enabled
    requires Drive(flags, cos, lib, inputs, dt, forward, sideways, rot, fieldRelative).Some?
    ensures var step := ApplyLockHeadingMode(flags.enableLockedHeadingMode, dt.lock, forward, sideways, rot, inputs.gyro);
      var states := lib.desaturate(lib.toModuleStates(DriveSpeeds(flags, lib, inputs, forward, sideways, step.rot, fieldRelative)));
      var before := dt.modules.Get(i);
      var after := Drive(flags, cos, lib, inputs, dt, forward, sideways, rot, fieldRelative).value.modules.Get(i);
      var target := Target(flags, before.sensors, states.Get(i));
      && after.log == before.log + [RecordTarget(i, target)] + Dispatch(flags, Commanded(flags, cos, before.sensors, target))
      && OnlyTurnRelativeDiffers(before.sensors, after.sensors)
  {
    var step := ApplyLockHeadingMode(flags.enableLockedHeadingMode, dt.lock, forward, sideways, rot, inputs.gyro);
    var states := lib.desaturate(lib.toModuleStates(DriveSpeeds(flags, lib, inputs, forward, sideways, step.rot, fieldRelative)));
    assert Drive(flags, cos, lib, inputs, dt, forward, sideways, rot, fieldRelative).value.modules
      == SetModuleStates(flags, cos, dt.modules, states);
  }

  /** Without the lock, skew correction and field-relative mode, the kinematics see exactly the driver's speeds. */
  lemma PlainDriveUsesDriverSpeeds(flags: DriveTrainFlags, lib: Library, inputs: RobotInputs, forward: real, sideways: real, rot: real)
    requires !flags.enableAngularVelocityCompensationTeleop
    ensures DriveSpeeds(flags, lib, inputs, forward, sideways, rot, false) == ChassisSpeeds(forward, sideways, rot)
    ensures ApplyLockHeadingMode(false, HeadingLock.Initial, forward, sideways, rot, inputs.gyro) == Stepped(HeadingLock.Initial, rot)
  {
  }

  /** setHeadingLockMode on the drivetrain: only the lock flag changes. */
  function SetHeadingLockMode(dt: DriveTrain, on: bool): (r: DriveTrain)
    ensures r.modules == dt.modules
    ensures r.lock.lockedHeadingMode == on && r.lock.lockedHeading == dt.lock.lockedHeading
  {
    dt.(lock := HeadingLock.SetHeadingLockMode(dt.lock, on))
  }

  /**
   * consumeRawModuleStates: state i to module i through the plain optimising
   * path, with no debug record and no drivetrain-level gate; the lock is untouched.
   */
  function ConsumeRawModuleStates(flags: DriveTrainFlags, cos: real -> real, dt: DriveTrain, states: Quad<ModuleState>): (r: DriveTrain)
    requires CosineBounded(cos)
    ensures r.lock == dt.lock
    ensures forall i | 0 <= i < 4 :: r.modules.Get(i) == SetDesiredState(flags, cos, dt.modules.Get(i), states.Get(i))
    ensures forall i | 0 <= i < 4 ::
      SendsSetpointsOf(flags, cos, dt.modules.Get(i), r.modules.Get(i), Target(flags, dt.modules.Get(i).sensors, states.Get(i)))
  {
    var m := dt.modules;
    var q := Quad(SetDesiredState(flags, cos, m.fl, states.fl), SetDesiredState(flags, cos, m.fr, states.fr),
                  SetDesiredState(flags, cos, m.bl, states.bl), SetDesiredState(flags, cos, m.br, states.br));
    EachModuleSendsItsSetpoints(flags, cos, m, states, q);
    dt.(modules := q)
  }

  /** Module by module, the plain optimising path sends only the setpoints of the optimised target. */
  lemma EachModuleSendsItsSetpoints(flags: DriveTrainFlags, cos: real -> real, m: Quad<Module>, states: Quad<ModuleState>, q: Quad<Module>)
    requires CosineBounded(cos)
    requires q == Quad(SetDesiredState(flags, cos, m.fl, states.fl), SetDesiredState(flags, cos, m.fr, states.fr),
                       SetDesiredState(flags, cos, m.bl, states.bl), SetDesiredState(flags, cos, m.br, states.br))
    ensures forall i | 0 <= i < 4 :: q.Get(i) == SetDesiredState(flags, cos, m.Get(i), states.Get(i))
    ensures forall i | 0 <= i < 4 :: SendsSetpointsOf(flags, cos, m.Get(i), q.Get(i), Target(flags, m.Get(i).sensors, states.Get(i)))
  {
    forall i | 0 <= i < 4
      ensures q.Get(i) == SetDesiredState(flags, cos, m.Get(i), states.Get(i))
      ensures SendsSetpointsOf(flags, cos, m.Get(i), q.Get(i), Target(flags, m.Get(i).sensors, states.Get(i)))
    {
    }
  }

  /**
   * Module i gets only the setpoints of its optimised target, with no debug
   * record, and its absolute readings do not change.
   */
  lemma ConsumeRawModuleStatesEffects(flags: DriveTrainFlags, cos: real -> real, dt: DriveTrain, states: Quad<ModuleState>, i: nat)
    requires CosineBounded(cos)
    requires i < 4
    ensures var before := dt.modules.Get(i);
      var after := ConsumeRawModuleStates(flags, cos, dt, states).modules.Get(i);
      var target := Target(flags, before.sensors, states.Get(i));
      && after.log == before.log + Dispatch(flags, Commanded(flags, cos, before.sensors, target))
      && OnlyTurnRelativeDiffers(before.sensors, after.sensors)
      && (forall c | c in after.log[|before.log|..] :: !c.RecordTarget?)
  {
    var before := dt.modules.Get(i);
    var after := ConsumeRawModuleStates(flags, cos, dt, states).modules.Get(i);
    var target := Target(flags, before.sensors, states.Get(i));
    assert after == SetDesiredStateNoOptimize(flags, cos, before, target);
    assert after.log[|before.log|..] == Dispatch(flags, Commanded(flags, cos, before.sensors, target));
  }

  /**
   * consumeChassisSpeeds: kinematics straight into consumeRawModuleStates,
   * without desaturation.  The lock is untouched, and module i gets exactly
   * the setpoints of its optimised kinematic state, with no debug record.
   */
  function ConsumeChassisSpeeds(flags: DriveTrainFlags, cos: real -> real, lib: Library, dt: DriveTrain, speeds: ChassisSpeeds): (r: DriveTrain)
    requires CosineBounded(cos)
    ensures r.lock == dt.lock
    ensures forall i | 0 <= i < 4 ::
      SendsSetpointsOf(flags, cos, dt.modules.Get(i), r.modules.Get(i),
                       Target(flags, dt.modules.Get(i).sensors, lib.toModuleStates(speeds).Get(i)))
  {
    ConsumeRawModuleStates(flags, cos, dt, lib.toModuleStates(speeds))
  }

  /**
   * The autonomous path and `drive` differ only in desaturation and in the
   * debug record: with an identity desaturation and no lock or skew
   * correction, module i ends with the same sensors and the same commands
   * after its debug record.
   */
  lemma ConsumeMatchesDriveUpToRecord(flags: DriveTrainFlags, cos: real -> real, lib: Library, inputs: RobotInputs, dt: DriveTrain,
                                      forward: real, sideways: real, rot: real, i: nat)
    requires CosineBounded(cos)
    requires i < 4
    requires flags.enabled && !flags.enableLockedHeadingMode && !flags.enableAngularVelocityCompensationTeleop
    requires forall q :: lib.desaturate(q) == q
    ensures var d := Drive(flags, cos, lib, inputs, dt, forward, sideways, rot, false);
      var c := ConsumeChassisSpeeds(flags, cos, lib, dt, ChassisSpeeds(forward, sideways, rot));
      var before := dt.modules.Get(i);
      && d.Some?
      && d.value.modules.Get(i).sensors == c.modules.Get(i).sensors
      && d.value.modules.Get(i).log[|before.log| + 1..] == c.modules.Get(i).log[|before.log|..]
  {
    var states := lib.toModuleStates(ChassisSpeeds(forward, sideways, rot));
    var before := dt.modules.Get(i);
    var target := Target(flags, before.sensors, states.Get(i));
    assert lib.desaturate(states) == states;
    DriveDispatchesInModuleOrder(flags, cos, lib, inputs, dt, forward, sideways, rot, false, i);
    var d := Drive(flags, cos, lib, inputs, dt, forward, sideways, rot, false);
    var c := ConsumeChassisSpeeds(flags, cos, lib, dt, ChassisSpeeds(forward, sideways, rot));
    assert d.value.modules.Get(i) == SetDesiredStateNoOptimize(flags, cos, Record(before, i, target), target);
    assert c.modules.Get(i) == SetDesiredState(flags, cos, before, states.Get(i));
  }

  /** stop: every module sends zero volts (when enabled); the lock is untouched. */
  function Stop(flags: DriveTrainFlags, dt: DriveTrain): (r: DriveTrain)
    ensures r.lock == dt.lock
    ensures forall i | 0 <= i < 4 :: r.modules.Get(i) == SwerveModule.Stop(flags, dt.modules.Get(i))
    ensures !flags.enabled ==> r == dt
  {
    var m := dt.modules;
    dt.(modules := Quad(SwerveModule.Stop(flags, m.fl), SwerveModule.Stop(flags, m.fr),
                        SwerveModule.Stop(flags, m.bl), SwerveModule.Stop(flags, m.br)))
  }

  /** directDriveSpeed: the same open-loop drive output on every module. */
  function DirectDriveSpeed(flags: DriveTrainFlags, dt: DriveTrain, speed: real): (r: DriveTrain)
    ensures r.lock == dt.lock
    ensures forall i | 0 <= i < 4 :: r.modules.Get(i).sensors == dt.modules.Get(i).sensors
    ensures flags.enabled && flags.enableDriveMotors ==>
      forall i | 0 <= i < 4 :: r.modules.Get(i).log == dt.modules.Get(i).log + [DriveDutyCycle(speed)]
    ensures !(flags.enabled && flags.enableDriveMotors) ==> r == dt
  {
    var m := dt.modules;
    dt.(modules := Quad(DirectDrive(flags, m.fl, speed), DirectDrive(flags, m.fr, speed),
                        DirectDrive(flags, m.bl, speed), DirectDrive(flags, m.br, speed)))
  }

  /** directTurnSpeed: the same open-loop turn output on every module. */
  function DirectTurnSpeed(flags: DriveTrainFlags, dt: DriveTrain, speed: real): (r: DriveTrain)
    ensures r.lock == dt.lock
    ensures forall i | 0 <= i < 4 :: r.modules.Get(i).sensors == dt.modules.Get(i).sensors
    ensures flags.enabled && flags.enableTurnMotors ==>
      forall i | 0 <= i < 4 :: r.modules.Get(i).log == dt.modules.Get(i).log + [TurnDutyCycle(speed)]
    ensures !(flags.enabled && flags.enableTurnMotors) ==> r == dt
  {
    var m := dt.modules;
    dt.(modules := Quad(DirectTurn(flags, m.fl, speed), DirectTurn(flags, m.fr, speed),
                        DirectTurn(flags, m.bl, speed), DirectTurn(flags, m.br, speed)))
  }

  /** directDriveVoltage: the given drive voltage and zero turn voltage on every module. */
  function DirectDriveVoltage(flags: DriveTrainFlags, dt: DriveTrain, volts: real): (r: DriveTrain)
    ensures r.lock == dt.lock
    ensures forall i | 0 <= i < 4 :: r.modules.Get(i).sensors == dt.modules.Get(i).sensors
    ensures flags.enabled ==>
      forall i | 0 <= i < 4 :: r.modules.Get(i).log == dt.modules.Get(i).log + [DriveVoltage(volts), TurnVoltage(0.0)]
    ensures !flags.enabled ==> r == dt
  {
    var m := dt.modules;
    dt.(modules := Quad(SetVoltages(flags, m.fl, volts, 0.0), SetVoltages(flags, m.fr, volts, 0.0),
                        SetVoltages(flags, m.bl, volts, 0.0), SetVoltages(flags, m.br, volts, 0.0)))
  }

  // ---------------------------------------------------------------------------
  // Zeroing routine

  /** Whether every module's continuous CANcoder heading is within 0.04 rad of zero. */
  predicate AllNearZero(modules: Quad<Module>)
  {
    forall i | 0 <= i < 4 :: Abs(Radians(AbsoluteModulePosition(modules.Get(i).sensors).angle)) <= ZeroTolerance
  }

  /** Modules whose readings differ at most in their relative turn encoders are equally near zero. */
  lemma NearZeroIgnoresRelative(a: Quad<Module>, b: Quad<Module>)
    requires forall i | 0 <= i < 4 :: OnlyTurnRelativeDiffers(a.Get(i).sensors, b.Get(i).sensors)
    ensures AllNearZero(a) == AllNearZero(b)
  {
    forall i | 0 <= i < 4
      ensures AbsoluteModulePosition(a.Get(i).sensors) == AbsoluteModulePosition(b.Get(i).sensors)
    {
      assert a.Get(i).sensors.canCoderPosition == b.Get(i).sensors.canCoderPosition;
    }
  }

  /**
   * One pass of the zeroing command body: each module i zeroes with debug
   * index i.  It touches only the relative turn encoders, so it never changes
   * whether the modules are near zero.
   */
  function ZeroAll(flags: DriveTrainFlags, cos: real -> real, modules: Quad<Module>): (r: Quad<Module>)
    requires CosineBounded(cos)
    ensures forall i | 0 <= i < 4 :: r.Get(i) == RotateToAbsoluteZeroIndexed(flags, cos, modules.Get(i), i)
    ensures forall i | 0 <= i < 4 :: OnlyTurnRelativeDiffers(modules.Get(i).sensors, r.Get(i).sensors)
    ensures AllNearZero(r) == AllNearZero(modules)
  {
    var r := Quad(RotateToAbsoluteZeroIndexed(flags, cos, modules.fl, 0), RotateToAbsoluteZeroIndexed(flags, cos, modules.fr, 1),
                  RotateToAbsoluteZeroIndexed(flags, cos, modules.bl, 2), RotateToAbsoluteZeroIndexed(flags, cos, modules.br, 3));
    EachModuleZeroes(flags, cos, modules, r);
    NearZeroIgnoresRelative(modules, r);
    r
  }

  /** Module by module, the zeroing body is the indexed zeroing with the module's own index. */
  lemma EachModuleZeroes(flags: DriveTrainFlags, cos: real -> real, modules: Quad<Module>, r: Quad<Module>)
    requires CosineBounded(cos)
    requires r == Quad(RotateToAbsoluteZeroIndexed(flags, cos, modules.fl, 0), RotateToAbsoluteZeroIndexed(flags, cos, modules.fr, 1),
                       RotateToAbsoluteZeroIndexed(flags, cos, modules.bl, 2), RotateToAbsoluteZeroIndexed(flags, cos, modules.br, 3))
    ensures forall i | 0 <= i < 4 :: r.Get(i) == RotateToAbsoluteZeroIndexed(flags, cos, modules.Get(i), i)
    ensures forall i | 0 <= i < 4 :: OnlyTurnRelativeDiffers(modules.Get(i).sensors, r.Get(i).sensors)
  {
    forall i | 0 <= i < 4
      ensures r.Get(i) == RotateToAbsoluteZeroIndexed(flags, cos, modules.Get(i), i)
      ensures OnlyTurnRelativeDiffers(modules.Get(i).sensors, r.Get(i).sensors)
    {
    }
  }

  /** The final step of the zeroing command: every relative encoder is re-seeded from its CANcoder. */
  function ResetAll(modules: Quad<Module>): (r: Quad<Module>)
    ensures forall i | 0 <= i < 4 ::
      && r.Get(i).log == modules.Get(i).log
      && OnlyTurnRelativeDiffers(modules.Get(i).sensors, r.Get(i).sensors)
      && RelativeModulePosition(r.Get(i).sensors) == AbsoluteModulePosition(r.Get(i).sensors)
  {
    Quad(modules.fl.(sensors := ResetEncodersToAbsoluteValue(modules.fl.sensors)),
         modules.fr.(sensors := ResetEncodersToAbsoluteValue(modules.fr.sensors)),
         modules.bl.(sensors := ResetEncodersToAbsoluteValue(modules.bl.sensors)),
         modules.br.(sensors := ResetEncodersToAbsoluteValue(modules.br.sensors)))
  }

  /** The modules after the robot moves between two scheduler ticks: the plant gives the new readings. */
  function Advance(plant: (nat, Quad<Module>) -> Quad<ModuleSensors>, tick: nat, modules: Quad<Module>): (r: Quad<Module>)
    ensures forall i | 0 <= i < 4 :: r.Get(i).log == modules.Get(i).log && r.Get(i).sensors == plant(tick, modules).Get(i)
  {
    var s := plant(tick, modules);
    Quad(modules.fl.(sensors := s.fl), modules.fr.(sensors := s.fr), modules.bl.(sensors := s.bl), modules.br.(sensors := s.br))
  }

  /**
   * rotateToAbsoluteZeroCommand, one scheduler tick per iteration: run the
   * zeroing body, then stop once every module is within 0.04 rad of zero or
   * the timeout's tick budget is spent (at least one tick always runs), and
   * finally re-seed every relative encoder from its CANcoder whether or not
   * zero was reached.  `plant` gives the readings at the start of each later
   * tick; `trace` holds the modules after each tick's body.
   */
  method RotateToAbsoluteZeroCommand(flags: DriveTrainFlags, cos: real -> real, dt: DriveTrain,
                                     plant: (nat, Quad<Module>) -> Quad<ModuleSensors>, timeoutTicks: nat)
    returns (r: DriveTrain, trace: seq<Quad<Module>>, zeroed: bool)
    requires CosineBounded(cos)
    ensures 1 <= |trace| <= Max1(timeoutTicks)
    ensures trace[0] == ZeroAll(flags, cos, dt.modules)
    ensures forall k | 1 <= k < |trace| :: trace[k] == ZeroAll(flags, cos, Advance(plant, k, trace[k - 1]))
    ensures zeroed == AllNearZero(trace[|trace| - 1])
    ensures forall k | 0 <= k < |trace| - 1 :: !AllNearZero(trace[k])
    ensures |trace| < Max1(timeoutTicks) ==> zeroed
    ensures AllNearZero(dt.modules) ==> |trace| == 1 && zeroed
    ensures r.lock == dt.lock
    ensures r.modules == ResetAll(trace[|trace| - 1])
    ensures forall i | 0 <= i < 4 :: RelativeModulePosition(r.modules.Get(i).sensors) == AbsoluteModulePosition(r.modules.Get(i).sensors)
  {
    var pass := (k: nat, m: Quad<Module>) => ZeroAll(flags, cos, Advance(plant, k, m));
    var nearZero := (m: Quad<Module>) => AllNearZero(m);
    var first := ZeroAll(flags, cos, dt.modules);
    trace := RunUntil(pass, nearZero, first, Max1(timeoutTicks));
    zeroed := AllNearZero(trace[|trace| - 1]);
    forall k | 1 <= k < |trace|
      ensures trace[k] == ZeroAll(flags, cos, Advance(plant, k, trace[k - 1]))
    {
      assert IsStep(pass, trace, k);
    }
    forall k | 0 <= k < |trace| - 1
      ensures !AllNearZero(trace[k])
    {
      assert !nearZero(trace[k]);
    }
    r := DriveTrain(ResetAll(trace[|trace| - 1]), dt.lock);
  }

  /**
   * A RunCommand with an end condition and a tick budget, as the scheduler runs
   * it: the first pass has already run; each further tick k runs `step` on the
   * previous result, until `done` holds or `budget` passes have run.
   */
  method RunUntil<T(==)>(step: (nat, T) -> T, done: T -> bool, first: T, budget: nat) returns (trace: seq<T>)
    requires budget >= 1
    ensures 1 <= |trace| <= budget
    ensures trace[0] == first
    ensures forall k | 1 <= k < |trace| :: IsStep(step, trace, k)
    ensures forall k | 0 <= k < |trace| - 1 :: !done(trace[k])
    ensures |trace| < budget ==> done(trace[|trace| - 1])
    ensures done(first) ==> |trace| == 1
  {
    trace := [first];
    var last := first;
    while |trace| < budget && !done(last)
      invariant 1 <= |trace| <= budget
      invariant trace[0] == first
      invariant last == trace[|trace| - 1]
      invariant forall k | 1 <= k < |trace| :: IsStep(step, trace, k)
      invariant forall k | 0 <= k < |trace| - 1 :: !done(trace[k])
      invariant done(first) ==> |trace| == 1
    {
      var next := step(|trace|, last);
      ExtendSteps(step, trace, next);
      trace := trace + [next];
      last := next;
    }
  }

  /** Entry k of `trace` is `step` applied to tick k and entry k - 1. */
  predicate IsStep<T(==)>(step: (nat, T) -> T, trace: seq<T>, k: nat)
    requires 1 <= k < |trace|
  {
    trace[k] == step(k, trace[k - 1])
  }

  /** Appending the next step to a trace whose every entry follows from the one before keeps it so. */
  lemma ExtendSteps<T>(step: (nat, T) -> T, trace: seq<T>, next: T)
    requires |trace| >= 1
    requires forall k | 1 <= k < |trace| :: IsStep(step, trace, k)
    requires next == step(|trace|, trace[|trace| - 1])
    ensures forall k | 1 <= k < |trace + [next]| :: IsStep(step, trace + [next], k)
  {
    var t := trace + [next];
    forall k | 1 <= k < |t|
      ensures IsStep(step, t, k)
    {
      if k < |trace| {
        assert IsStep(step, trace, k);
        assert t[k] == trace[k] && t[k - 1] == trace[k - 1];
      }
    }
  }

  /** The timeout's tick budget: at least one tick runs. */
  function Max1(ticks: nat): (r: nat)
    ensures r >= 1 && r >= ticks
    ensures ticks >= 1 ==> r == ticks
  {
    if ticks == 0 then 1 else ticks
  }
}
