/**
 * One swerve module: a drive wheel steered by a turn motor, with three
 * readings of the wheel's heading.
 *
 *  - the relative encoder: the turn motor's integrated encoder, in radians;
 *  - the absolute encoder: the CANcoder's continuous position, in rotations,
 *    settable in software;
 *  - the absolutely-absolute encoder: the CANcoder's wrapping position, in
 *    rotations, which software cannot set.
 *
 * A module is its sensor readings plus the log of commands it has sent to its
 * motor controllers.  Every operation is a pure step from one module to the
 * next.
 */
module SwerveModule {
  import opened MathUtil
  import opened Rotation2d
  import opened Flags

  /** Above this angle error (degrees) a desired state is reversed instead of turned to. */
  const OptimizationThresholdDeg: real := 90.0

  /** Below this commanded speed (m/s) and turn velocity (rad/s) the module is at rest. */
  const RestThreshold: real := 0.01

  /** A wheel speed (m/s, signed) and a wheel heading. */
  datatype ModuleState = ModuleState(speed: real, angle: Rotation)

  /** `new SwerveModuleState()`: zero speed at heading zero. */
  const ZeroState: ModuleState := ModuleState(0.0, Zero)

  /** Distance driven (m) and wheel heading, as used for odometry. */
  datatype ModulePosition = ModulePosition(distance: real, angle: Rotation)

  /** The module's raw readings, in the units each device reports. */
  datatype ModuleSensors = ModuleSensors(
    drivePosition: real,            // m
    driveVelocity: real,            // m/s
    turnRelativePosition: real,     // rad, turn motor encoder
    turnRelativeVelocity: real,     // rad/s
    canCoderPosition: real,         // rotations, continuous
    canCoderVelocity: real,         // rotations/s
    canCoderAbsolutePosition: real) // rotations, wrapping

  /** A command sent to one of the module's motor controllers, or a debug record. */
  datatype ModuleCommand =
    | DriveVelocity(metersPerSecond: real)
    | TurnPosition(radians: real)
    | DriveVoltage(driveVolts: real)
    | TurnVoltage(turnVolts: real)
    | DriveDutyCycle(driveOutput: real)
    | TurnDutyCycle(turnOutput: real)
    | RecordTarget(debugIndex: nat, target: ModuleState)

  datatype Module = Module(sensors: ModuleSensors, log: seq<ModuleCommand>)

  // ---------------------------------------------------------------------------
  // Sensor accessors

  /** getTurnAbsEncoderPosition: the continuous CANcoder position in radians. */
  function TurnAbsEncoderPosition(s: ModuleSensors): (r: real)
    ensures r == s.canCoderPosition * 2.0 * Pi
  {
    s.canCoderPosition * 360.0 * Pi / 180.0
  }

  /** getTurnAbsEncoderVelocity: the CANcoder velocity in radians per second. */
  function TurnAbsEncoderVelocity(s: ModuleSensors): (r: real)
    ensures r == s.canCoderVelocity * 2.0 * Pi
  {
    s.canCoderVelocity * 360.0 * Pi / 180.0
  }

  /** getTurnAbsolutelyAbsolutePosition: the wrapping CANcoder position in radians. */
  function TurnAbsolutelyAbsolutePosition(s: ModuleSensors): (r: real)
    ensures Rotations(FromRadians(r)) == s.canCoderAbsolutePosition
    ensures r == TurnAbsEncoderPosition(s) <==> s.canCoderAbsolutePosition == s.canCoderPosition
  {
    s.canCoderAbsolutePosition * 2.0 * Pi
  }

  /** getAbsoluteModuleState: drive velocity and the continuous CANcoder heading. */
  function AbsoluteModuleState(s: ModuleSensors): (r: ModuleState)
    ensures r.speed == s.driveVelocity
    ensures Rotations(r.angle) == s.canCoderPosition
  {
    ModuleState(s.driveVelocity, FromRadians(TurnAbsEncoderPosition(s)))
  }

  /** getAbsoluteAbsoluteModuleState: drive velocity and the wrapping CANcoder heading. */
  function AbsoluteAbsoluteModuleState(s: ModuleSensors): (r: ModuleState)
    ensures r.speed == s.driveVelocity
    ensures Rotations(r.angle) == s.canCoderAbsolutePosition
  {
    ModuleState(s.driveVelocity, FromRadians(TurnAbsolutelyAbsolutePosition(s)))
  }

  /** getAbsoluteModulePosition: drive distance and the continuous CANcoder heading. */
  function AbsoluteModulePosition(s: ModuleSensors): (r: ModulePosition)
    ensures r.distance == s.drivePosition
    ensures Rotations(r.angle) == s.canCoderPosition
  {
    ModulePosition(s.drivePosition, FromRadians(TurnAbsEncoderPosition(s)))
  }

  /** getRelativeModuleState: drive velocity and the turn motor encoder heading. */
  function RelativeModuleState(s: ModuleSensors): (r: ModuleState)
    ensures r.speed == s.driveVelocity
    ensures Radians(r.angle) == s.turnRelativePosition
  {
    ModuleState(s.driveVelocity, FromRadians(s.turnRelativePosition))
  }

  /** getRelativeModulePosition: drive distance and the turn motor encoder heading. */
  function RelativeModulePosition(s: ModuleSensors): (r: ModulePosition)
    ensures r.distance == s.drivePosition
    ensures Radians(r.angle) == s.turnRelativePosition
  {
    ModulePosition(s.drivePosition, FromRadians(s.turnRelativePosition))
  }

  /** The heading every optimisation and compensation step compares against. */
  function CurrentAngle(s: ModuleSensors): Rotation
  {
    AbsoluteModuleState(s).angle
  }

  /** The two readings agree on everything except, possibly, the relative turn position. */
  predicate OnlyTurnRelativeDiffers(a: ModuleSensors, b: ModuleSensors)
  {
    a.(turnRelativePosition := 0.0) == b.(turnRelativePosition := 0.0)
  }

  // ---------------------------------------------------------------------------
  // Construction and encoder reseeding

  /**
   * The constructor's encoder seeding, from the readings at power-on: the
   * drive encoder is zeroed, the continuous CANcoder is set to the wrapping
   * one, and the relative encoder to the wrapping one in radians.
   */
  function Construct(powerOn: ModuleSensors): (r: Module)
    ensures r.log == []
    ensures r.sensors.drivePosition == 0.0
    ensures r.sensors.canCoderAbsolutePosition == powerOn.canCoderAbsolutePosition
    ensures TurnAbsEncoderPosition(r.sensors) == TurnAbsolutelyAbsolutePosition(r.sensors)
    ensures r.sensors.turnRelativePosition == TurnAbsolutelyAbsolutePosition(r.sensors)
    ensures r.sensors.driveVelocity == powerOn.driveVelocity
    ensures r.sensors.turnRelativeVelocity == powerOn.turnRelativeVelocity
    ensures r.sensors.canCoderVelocity == powerOn.canCoderVelocity
  {
    var zeroedDrive := powerOn.(drivePosition := 0.0);
    var seededCanCoder := zeroedDrive.(canCoderPosition := zeroedDrive.canCoderAbsolutePosition);
    var seeded := seededCanCoder.(turnRelativePosition := TurnAbsolutelyAbsolutePosition(seededCanCoder));
    Module(seeded, [])
  }

  /** Right after construction all three heading readings report the same heading. */
  lemma ConstructedReadingsAgree(powerOn: ModuleSensors)
    ensures var s := Construct(powerOn).sensors;
      && AbsoluteModuleState(s) == AbsoluteAbsoluteModuleState(s) == RelativeModuleState(s)
      && AbsoluteModulePosition(s) == RelativeModulePosition(s)
  {
  }

  /**
   * resetEncodersToAbsoluteValue: the relative encoder takes the continuous
   * CANcoder reading; nothing else changes.
   */
  function ResetEncodersToAbsoluteValue(s: ModuleSensors): (r: ModuleSensors)
    ensures OnlyTurnRelativeDiffers(s, r)
    ensures RelativeModulePosition(r) == AbsoluteModulePosition(r)
    ensures RelativeModuleState(r) == AbsoluteModuleState(r)
  {
    s.(turnRelativePosition := TurnAbsEncoderPosition(s))
  }

  // ---------------------------------------------------------------------------
  // State optimisation

  /** Whether `optimize` rewrites `desired`: the canonical angle error exceeds 90 degrees. */
  predicate NeedsReversal(desired: ModuleState, current: Rotation)
  {
    Abs(Minus(desired.angle, current).degrees) > OptimizationThresholdDeg
  }

  /**
   * Two states ask for the same wheel velocity vector: the same speed in the
   * same direction, or the opposite speed in the opposite direction.
   */
  predicate SameWheelVelocity(a: ModuleState, b: ModuleState)
  {
    || (a.speed == b.speed && SameDirection(a.angle, b.angle))
    || (a.speed == -b.speed && Minus(a.angle, b.angle).degrees == HalfTurnDeg)
  }

  /** The state `Optimize` returns when it reverses: opposite speed, heading turned by 180 degrees. */
  function Reversed(desired: ModuleState): ModuleState
  {
    ModuleState(-desired.speed, RotateBy(desired.angle, Rotation(HalfTurnDeg)))
  }

  /** A reversed state lies within 90 degrees of the current heading. */
  lemma ReversedWithinThreshold(desired: ModuleState, current: Rotation)
    requires NeedsReversal(desired, current)
    ensures Abs(Minus(Reversed(desired).angle, current).degrees) <= OptimizationThresholdDeg
  {
    var d := desired.angle.degrees;
    var c := current.degrees;
    var delta := Minus(desired.angle, current).degrees;
    var e := Minus(Reversed(desired).angle, current).degrees;
    calc {
      e;
      Wrap(Wrap(d + HalfTurnDeg) - c);
      { WrapOfSum(d + HalfTurnDeg, -c); }
      Wrap((d - c) + HalfTurnDeg);
      { WrapOfSum(d - c, HalfTurnDeg); }
      Wrap(delta + HalfTurnDeg);
    }
    if delta > OptimizationThresholdDeg {
      WrapUnique(delta + HalfTurnDeg, -1);
    } else {
      WrapUnique(delta + HalfTurnDeg, 0);
    }
  }

  /** A reversed state asks for the same wheel velocity as the original. */
  lemma ReversedSameWheelVelocity(desired: ModuleState)
    ensures Minus(Reversed(desired).angle, desired.angle).degrees == HalfTurnDeg
    ensures Reversed(desired).angle != desired.angle
  {
    var d := desired.angle.degrees;
    WrapOfSum(d + HalfTurnDeg, -d);
    HalfTurnIsNotWhole(d);
  }

  /**
   * optimize: reverse the wheel instead of turning it more than 90 degrees.
   * The result asks for the same wheel velocity, lies within 90 degrees of the
   * current heading, and differs from `desired` exactly when the angle error
   * exceeds 90 degrees.
   */
  function Optimize(desired: ModuleState, current: Rotation): (r: ModuleState)
    ensures Abs(Minus(r.angle, current).degrees) <= OptimizationThresholdDeg
    ensures SameWheelVelocity(r, desired)
    ensures Abs(r.speed) == Abs(desired.speed)
    ensures r == desired <==> !NeedsReversal(desired, current)
    ensures desired.speed != 0.0 ==> (r.speed == -desired.speed <==> NeedsReversal(desired, current))
    ensures NeedsReversal(desired, current) ==>
      r.speed == -desired.speed && SameDirection(r.angle, Rotation(desired.angle.degrees + HalfTurnDeg))
  {
    if NeedsReversal(desired, current) then
      ReversedWithinThreshold(desired, current);
      ReversedSameWheelVelocity(desired);
      Reversed(desired)
    else
      desired
  }

  /** Optimising an optimised state again changes nothing. */
  lemma OptimizeIdempotent(desired: ModuleState, current: Rotation)
    ensures Optimize(Optimize(desired, current), current) == Optimize(desired, current)
  {
  }

  // ---------------------------------------------------------------------------
  // Cosine compensation

  /** `cos` behaves like a cosine in the one respect the compensation relies on. */
  ghost predicate CosineBounded(cos: real -> real)
  {
    forall x :: -1.0 <= cos(x) <= 1.0
  }

  /**
   * getCosineCompensatedState: scale the speed by the cosine of the angle
   * error (cos takes degrees), using 1 instead when that cosine is negative.
   */
  function CosineCompensated(cos: real -> real, desired: ModuleState, current: Rotation): (r: ModuleState)
    requires CosineBounded(cos)
    ensures r.angle == desired.angle
    ensures Abs(r.speed) <= Abs(desired.speed)
    ensures r.speed * desired.speed >= 0.0
    ensures cos(Minus(desired.angle, current).degrees) < 0.0 ==> r.speed == desired.speed
    ensures cos(Minus(desired.angle, current).degrees) >= 0.0 ==>
      r.speed == desired.speed * cos(Minus(desired.angle, current).degrees)
  {
    var c := cos(Minus(desired.angle, current).degrees);
    var scalar := if c < 0.0 then 1.0 else c;
    ScaleByUnitFraction(desired.speed, scalar);
    ModuleState(desired.speed * scalar, desired.angle)
  }

  // ---------------------------------------------------------------------------
  // Setpoint pipeline

  /** The state `setDesiredStateNoOptimize` dispatches: compensated when the flag is on. */
  function Commanded(flags: DriveTrainFlags, cos: real -> real, s: ModuleSensors, desired: ModuleState): (r: ModuleState)
    requires CosineBounded(cos)
    ensures r.angle == desired.angle
    ensures Abs(r.speed) <= Abs(desired.speed)
    ensures r.speed * desired.speed >= 0.0
    ensures !flags.enableCosineCompensator ==> r == desired
    ensures flags.enableCosineCompensator && cos(Minus(desired.angle, CurrentAngle(s)).degrees) >= 0.0 ==>
      r.speed == desired.speed * cos(Minus(desired.angle, CurrentAngle(s)).degrees)
    ensures flags.enableCosineCompensator && cos(Minus(desired.angle, CurrentAngle(s)).degrees) < 0.0 ==> r == desired
  {
    if flags.enableCosineCompensator then CosineCompensated(cos, desired, CurrentAngle(s)) else desired
  }

  /** setDriveDesiredState then setRotationDesiredState: the gated closed-loop setpoints. */
  function Dispatch(flags: DriveTrainFlags, state: ModuleState): (r: seq<ModuleCommand>)
    ensures DriveVelocity(state.speed) in r <==> flags.DriveSetpointsEnabled()
    ensures TurnPosition(Radians(state.angle)) in r <==> flags.TurnSetpointsEnabled()
    ensures forall c | c in r :: c == DriveVelocity(state.speed) || c == TurnPosition(Radians(state.angle))
    ensures |r| <= 2
    ensures |r| == 2 ==> r[0].DriveVelocity? && r[1].TurnPosition?
  {
    (if flags.DriveSetpointsEnabled() then [DriveVelocity(state.speed)] else [])
    + (if flags.TurnSetpointsEnabled() then [TurnPosition(Radians(state.angle))] else [])
  }

  /** The module counts as at rest: commanded speed and turn velocity both below 0.01. */
  predicate AtRest(commanded: ModuleState, s: ModuleSensors)
  {
    Abs(commanded.speed) < RestThreshold && Abs(s.turnRelativeVelocity) < RestThreshold
  }

  /**
   * setDesiredStateNoOptimize: compensate, send the gated setpoints, then
   * resynchronise the relative encoder if the module is at rest.
   */
  function SetDesiredStateNoOptimize(flags: DriveTrainFlags, cos: real -> real, m: Module, desired: ModuleState): (r: Module)
    requires CosineBounded(cos)
    ensures r.log == m.log + Dispatch(flags, Commanded(flags, cos, m.sensors, desired))
    ensures OnlyTurnRelativeDiffers(m.sensors, r.sensors)
    ensures AtRest(Commanded(flags, cos, m.sensors, desired), m.sensors) ==>
      r.sensors.turnRelativePosition == TurnAbsEncoderPosition(m.sensors)
    ensures !AtRest(Commanded(flags, cos, m.sensors, desired), m.sensors) ==> r.sensors == m.sensors
  {
    var commanded := Commanded(flags, cos, m.sensors, desired);
    var log := m.log + Dispatch(flags, commanded);
    var sensors := if AtRest(commanded, m.sensors) then ResetEncodersToAbsoluteValue(m.sensors) else m.sensors;
    Module(sensors, log)
  }

  /**
   * `after` is `before` having sent exactly the gated setpoints for `target`
   * (after cosine compensation), with its relative turn encoder resynchronised
   * exactly when the compensated target leaves the module at rest.
   */
  predicate SendsSetpointsOf(flags: DriveTrainFlags, cos: real -> real, before: Module, after: Module, target: ModuleState)
    requires CosineBounded(cos)
  {
    && after.log == before.log + Dispatch(flags, Commanded(flags, cos, before.sensors, target))
    && after.sensors == (if AtRest(Commanded(flags, cos, before.sensors, target), before.sensors)
                         then ResetEncodersToAbsoluteValue(before.sensors) else before.sensors)
  }

  /** The state `setDesiredState` passes on: optimised against the current heading when the flag is on. */
  function Target(flags: DriveTrainFlags, s: ModuleSensors, desired: ModuleState): (r: ModuleState)
    ensures flags.swerveModuleOptimization ==>
      Abs(Minus(r.angle, CurrentAngle(s)).degrees) <= OptimizationThresholdDeg && SameWheelVelocity(r, desired)
    ensures !flags.swerveModuleOptimization ==> r == desired
    ensures flags.swerveModuleOptimization ==> (r == desired <==> !NeedsReversal(desired, CurrentAngle(s)))
    ensures flags.swerveModuleOptimization && NeedsReversal(desired, CurrentAngle(s)) ==>
      r == ModuleState(-desired.speed, Rotation(Wrap(desired.angle.degrees + HalfTurnDeg)))
  {
    if flags.swerveModuleOptimization then Optimize(desired, CurrentAngle(s)) else desired
  }

  /** Optimising a target again changes nothing. */
  lemma TargetIdempotent(flags: DriveTrainFlags, s: ModuleSensors, desired: ModuleState)
    ensures Target(flags, s, Target(flags, s, desired)) == Target(flags, s, desired)
  {
    if flags.swerveModuleOptimization {
      OptimizeIdempotent(desired, CurrentAngle(s));
    }
  }

  /**
   * setDesiredState(state): optimise (when enabled), then setDesiredStateNoOptimize.
   * Only the setpoints of the optimised target are appended; with optimisation
   * on, every turn setpoint lies within 90 degrees of the current heading; the
   * drive setpoint never exceeds the requested speed; and a module asked for
   * (almost) no speed while its turn motor is still resynchronises its
   * relative encoder.
   */
  function SetDesiredState(flags: DriveTrainFlags, cos: real -> real, m: Module, desired: ModuleState): (r: Module)
    requires CosineBounded(cos)
    ensures OnlyTurnRelativeDiffers(m.sensors, r.sensors)
    ensures r.log == m.log + Dispatch(flags, Commanded(flags, cos, m.sensors, Target(flags, m.sensors, desired)))
    ensures flags.swerveModuleOptimization ==>
      forall c | c in r.log[|m.log|..] && c.TurnPosition? ::
        Abs(Minus(FromRadians(c.radians), CurrentAngle(m.sensors)).degrees) <= OptimizationThresholdDeg
    ensures forall c | c in r.log[|m.log|..] && c.DriveVelocity? :: Abs(c.metersPerSecond) <= Abs(desired.speed)
    ensures Abs(desired.speed) < RestThreshold && Abs(m.sensors.turnRelativeVelocity) < RestThreshold ==>
      r.sensors.turnRelativePosition == TurnAbsEncoderPosition(m.sensors)
    ensures AtRest(Commanded(flags, cos, m.sensors, Target(flags, m.sensors, desired)), m.sensors) ==>
      r.sensors == ResetEncodersToAbsoluteValue(m.sensors)
    ensures !AtRest(Commanded(flags, cos, m.sensors, Target(flags, m.sensors, desired)), m.sensors) ==>
      r.sensors == m.sensors
    ensures !flags.swerveModuleOptimization ==> r == SetDesiredStateNoOptimize(flags, cos, m, desired)
  {
    var t := Target(flags, m.sensors, desired);
    assert Abs(t.speed) == Abs(desired.speed);
    assert t.angle == FromRadians(Radians(t.angle)) by { RadiansRoundTrip(t.angle); }
    SetDesiredStateNoOptimize(flags, cos, m, t)
  }

  /** Appends the debug record `optimizedTargetStates[debugIdx] = state`. */
  function Record(m: Module, debugIdx: nat, state: ModuleState): Module
  {
    m.(log := m.log + [RecordTarget(debugIdx, state)])
  }

  /**
   * setDesiredStateNoOptimize(state, debugIdx): record the state, then call
   * the optimising setDesiredState(state).
   */
  function SetDesiredStateNoOptimizeIndexed(flags: DriveTrainFlags, cos: real -> real, m: Module, desired: ModuleState, debugIdx: nat): (r: Module)
    requires CosineBounded(cos)
    requires debugIdx < 4
    ensures r.log == m.log + [RecordTarget(debugIdx, desired)]
      + Dispatch(flags, Commanded(flags, cos, m.sensors, Target(flags, m.sensors, desired)))
    ensures OnlyTurnRelativeDiffers(m.sensors, r.sensors)
    ensures AtRest(Commanded(flags, cos, m.sensors, Target(flags, m.sensors, desired)), m.sensors) ==>
      r.sensors == ResetEncodersToAbsoluteValue(m.sensors)
    ensures !AtRest(Commanded(flags, cos, m.sensors, Target(flags, m.sensors, desired)), m.sensors) ==>
      r.sensors == m.sensors
  {
    SetDesiredState(flags, cos, Record(m, debugIdx, desired), desired)
  }

  /**
   * setDesiredState(state, debugIdx): optimise, then setDesiredStateNoOptimize(state, debugIdx).
   * The state is optimised twice on this path, and that is harmless: the
   * once-optimised target is recorded in slot debugIdx, and the module then
   * behaves exactly as under a single optimisation.
   */
  function SetDesiredStateIndexed(flags: DriveTrainFlags, cos: real -> real, m: Module, desired: ModuleState, debugIdx: nat): (r: Module)
    requires CosineBounded(cos)
    requires debugIdx < 4
    ensures var t := Target(flags, m.sensors, desired);
      && r == SetDesiredStateNoOptimize(flags, cos, Record(m, debugIdx, t), t)
      && r.log == m.log + [RecordTarget(debugIdx, t)] + Dispatch(flags, Commanded(flags, cos, m.sensors, t))
    ensures OnlyTurnRelativeDiffers(m.sensors, r.sensors)
  {
    TargetIdempotent(flags, m.sensors, desired);
    SetDesiredStateNoOptimizeIndexed(flags, cos, m, Target(flags, m.sensors, desired), debugIdx)
  }

  /**
   * rotateToAbsoluteZero(): heading zero at zero speed, without optimisation,
   * so the turn setpoint is 0 rad whatever the current heading, and the
   * relative encoder is resynchronised exactly when the turn motor is still.
   */
  function RotateToAbsoluteZero(flags: DriveTrainFlags, cos: real -> real, m: Module): (r: Module)
    requires CosineBounded(cos)
    ensures r.log == m.log + (if flags.DriveSetpointsEnabled() then [DriveVelocity(0.0)] else [])
                           + (if flags.TurnSetpointsEnabled() then [TurnPosition(0.0)] else [])
    ensures Abs(m.sensors.turnRelativeVelocity) < RestThreshold ==> r.sensors == ResetEncodersToAbsoluteValue(m.sensors)
    ensures Abs(m.sensors.turnRelativeVelocity) >= RestThreshold ==> r.sensors == m.sensors
  {
    SetDesiredStateNoOptimize(flags, cos, m, ZeroState)
  }

  /**
   * rotateToAbsoluteZero(debugIdx): goes through the debug-index path, which
   * optimises.  The zero state is recorded as is; the setpoints sent are those
   * of zero speed at 0 degrees, or at 180 degrees when optimisation reverses it.
   */
  function RotateToAbsoluteZeroIndexed(flags: DriveTrainFlags, cos: real -> real, m: Module, debugIdx: nat): (r: Module)
    requires CosineBounded(cos)
    requires debugIdx < 4
    ensures var t := Target(flags, m.sensors, ZeroState);
      && (t == ZeroState || t == ModuleState(0.0, Rotation(HalfTurnDeg)))
      && r.log == m.log + [RecordTarget(debugIdx, ZeroState)] + Dispatch(flags, t)
    ensures OnlyTurnRelativeDiffers(m.sensors, r.sensors)
    ensures Abs(m.sensors.turnRelativeVelocity) < RestThreshold ==>
      r.sensors.turnRelativePosition == TurnAbsEncoderPosition(m.sensors)
    ensures Abs(m.sensors.turnRelativeVelocity) >= RestThreshold ==> r.sensors == m.sensors
  {
    ZeroStateIndexed(flags, cos, m, debugIdx);
    ZeroStateIndexedSensors(flags, cos, m, debugIdx);
    SetDesiredStateNoOptimizeIndexed(flags, cos, m, ZeroState, debugIdx)
  }

  /** Recording and sending the zero state: the commanded state is the optimised zero state itself. */
  lemma ZeroStateIndexed(flags: DriveTrainFlags, cos: real -> real, m: Module, debugIdx: nat)
    requires CosineBounded(cos)
    requires debugIdx < 4
    ensures var t := Target(flags, m.sensors, ZeroState);
      var r := SetDesiredStateNoOptimizeIndexed(flags, cos, m, ZeroState, debugIdx);
      && (t == ZeroState || t == ModuleState(0.0, Rotation(HalfTurnDeg)))
      && r.log == m.log + [RecordTarget(debugIdx, ZeroState)] + Dispatch(flags, t)
  {
    var t := Target(flags, m.sensors, ZeroState);
    ZeroTargetCases(flags, m.sensors);
    StillTargetUncompensated(flags, cos, m.sensors, t);
  }

  /** A zero-speed target passes through cosine compensation unchanged. */
  lemma StillTargetUncompensated(flags: DriveTrainFlags, cos: real -> real, s: ModuleSensors, t: ModuleState)
    requires CosineBounded(cos)
    requires t.speed == 0.0
    ensures Commanded(flags, cos, s, t) == t
  {
  }

  /** Recording and sending the zero state resynchronises the relative encoder exactly when the turn motor is still. */
  lemma ZeroStateIndexedSensors(flags: DriveTrainFlags, cos: real -> real, m: Module, debugIdx: nat)
    requires CosineBounded(cos)
    requires debugIdx < 4
    ensures var r := SetDesiredStateNoOptimizeIndexed(flags, cos, m, ZeroState, debugIdx);
      && (Abs(m.sensors.turnRelativeVelocity) < RestThreshold ==>
            r.sensors.turnRelativePosition == TurnAbsEncoderPosition(m.sensors))
      && (Abs(m.sensors.turnRelativeVelocity) >= RestThreshold ==> r.sensors == m.sensors)
  {
    var t := Target(flags, m.sensors, ZeroState);
    assert t.speed == 0.0 by { ZeroTargetCases(flags, m.sensors); }
    StillTargetUncompensated(flags, cos, m.sensors, t);
    var r := SetDesiredStateNoOptimizeIndexed(flags, cos, m, ZeroState, debugIdx);
    if Abs(m.sensors.turnRelativeVelocity) < RestThreshold {
      assert AtRest(t, m.sensors);
      assert r.sensors == ResetEncodersToAbsoluteValue(m.sensors);
    } else {
      assert !AtRest(t, m.sensors);
    }
  }

  /** Zero reversed is zero speed at 180 degrees. */
  lemma ZeroTargetReversed(flags: DriveTrainFlags, s: ModuleSensors)
    requires flags.swerveModuleOptimization
    requires NeedsReversal(ZeroState, CurrentAngle(s))
    ensures Target(flags, s, ZeroState) == ModuleState(0.0, Rotation(HalfTurnDeg))
  {
    assert Wrap(0.0 + HalfTurnDeg) == HalfTurnDeg;
    assert Reversed(ZeroState) == ModuleState(0.0, Rotation(HalfTurnDeg));
  }

  /** The zero state stays zero speed, and points at 0 or 180 degrees, once optimised. */
  lemma ZeroTargetCases(flags: DriveTrainFlags, s: ModuleSensors)
    ensures Target(flags, s, ZeroState) == ZeroState || Target(flags, s, ZeroState) == ModuleState(0.0, Rotation(HalfTurnDeg))
  {
    if flags.swerveModuleOptimization && NeedsReversal(ZeroState, CurrentAngle(s)) {
      ZeroTargetReversed(flags, s);
    }
  }

  /** Zero speed at 180 degrees: the turn setpoint is pi radians, and the module is at rest when its turn motor is. */
  lemma ReversedZeroSetpoints(flags: DriveTrainFlags, cos: real -> real, m: Module)
    requires CosineBounded(cos)
    ensures var r := SetDesiredStateNoOptimize(flags, cos, m, ModuleState(0.0, Rotation(HalfTurnDeg)));
      && (flags.TurnSetpointsEnabled() ==> r.log[|r.log| - 1] == TurnPosition(Pi))
      && (Abs(m.sensors.turnRelativeVelocity) < RestThreshold ==>
            r.sensors.turnRelativePosition == TurnAbsEncoderPosition(m.sensors))
  {
    var c := Commanded(flags, cos, m.sensors, ModuleState(0.0, Rotation(HalfTurnDeg)));
    assert c.speed == 0.0;
  }

  /**
   * Zeroing by debug index is optimised: when the module is more than 90
   * degrees from zero, the target becomes zero speed at 180 degrees, so the
   * turn setpoint sent is pi radians, not 0.  It still comes to rest, so the
   * relative encoder is resynchronised when the turn motor is still.
   */
  lemma ZeroingPathIsOptimised(flags: DriveTrainFlags, cos: real -> real, m: Module, debugIdx: nat)
    requires CosineBounded(cos)
    requires debugIdx < 4
    requires flags.swerveModuleOptimization
    requires NeedsReversal(ZeroState, CurrentAngle(m.sensors))
    ensures var r := RotateToAbsoluteZeroIndexed(flags, cos, m, debugIdx);
      && r == SetDesiredStateNoOptimize(flags, cos, Record(m, debugIdx, ZeroState), ModuleState(0.0, Rotation(HalfTurnDeg)))
      && (flags.TurnSetpointsEnabled() ==> r.log[|r.log| - 1] == TurnPosition(Pi))
      && (Abs(m.sensors.turnRelativeVelocity) < RestThreshold ==>
            r.sensors.turnRelativePosition == TurnAbsEncoderPosition(m.sensors))
  {
    var recorded := Record(m, debugIdx, ZeroState);
    ZeroTargetReversed(flags, recorded.sensors);
    ReversedZeroSetpoints(flags, cos, recorded);
  }

  // ---------------------------------------------------------------------------
  // Open-loop outputs

  /** setVoltages: both voltages are sent, and only when the drivetrain is enabled. */
  function SetVoltages(flags: DriveTrainFlags, m: Module, driveVolts: real, turnVolts: real): (r: Module)
    ensures r.sensors == m.sensors
    ensures !flags.enabled ==> r == m
    ensures flags.enabled ==> r.log == m.log + [DriveVoltage(driveVolts), TurnVoltage(turnVolts)]
  {
    if flags.enabled then m.(log := m.log + [DriveVoltage(driveVolts), TurnVoltage(turnVolts)]) else m
  }

  /** stop: zero volts to both motors (through setVoltages, so nothing when disabled). */
  function Stop(flags: DriveTrainFlags, m: Module): (r: Module)
    ensures r.sensors == m.sensors
    ensures flags.enabled ==> r.log == m.log + [DriveVoltage(0.0), TurnVoltage(0.0)]
    ensures !flags.enabled ==> r == m
  {
    SetVoltages(flags, m, 0.0, 0.0)
  }

  /** directDrive: a duty cycle to the drive motor when it is enabled. */
  function DirectDrive(flags: DriveTrainFlags, m: Module, speed: real): (r: Module)
    ensures r.sensors == m.sensors
    ensures flags.enabled && flags.enableDriveMotors ==> r.log == m.log + [DriveDutyCycle(speed)]
    ensures !(flags.enabled && flags.enableDriveMotors) ==> r == m
  {
    if flags.enabled && flags.enableDriveMotors then m.(log := m.log + [DriveDutyCycle(speed)]) else m
  }

  /** directTurn: a duty cycle to the turn motor when it is enabled. */
  function DirectTurn(flags: DriveTrainFlags, m: Module, speed: real): (r: Module)
    ensures r.sensors == m.sensors
    ensures flags.enabled && flags.enableTurnMotors ==> r.log == m.log + [TurnDutyCycle(speed)]
    ensures !(flags.enabled && flags.enableTurnMotors) ==> r == m
  {
    if flags.enabled && flags.enableTurnMotors then m.(log := m.log + [TurnDutyCycle(speed)]) else m
  }
}
