/**
 * The coral intake: a pivot arm driven to a clamped position setpoint (in
 * rotations of its absolute encoder) and an intake roller, both behind the
 * coral intake's enable flag, and a limit switch that reports a held coral.
 */
module CoralIntake {
  import opened MathUtil
  import opened Rotation2d

  /** VERY_HARD_BACK_LIMIT: the lowest pivot setpoint (rotations), so the intake cannot roll over. */
  const BackLimit: real := 0.03

  /** FRONT_LIMIT: the highest pivot setpoint (rotations). */
  const FrontLimit: real := 0.55

  /** One output sent to the intake's motor controllers. */
  datatype IntakeCommand =
    | PivotPosition(rotations: real)
    | IntakeOutput(speed: real)
    | PivotOutput(speed: real)

  /** The intake's readings and the outputs sent so far. */
  datatype Intake = Intake(
    pivotAbsolutePosition: real,
    pivotRelativePosition: real,
    limitSwitchPressed: bool,
    log: seq<IntakeCommand>)

  /** Construction: the pivot's relative encoder is seeded from its absolute encoder; nothing is sent. */
  function Construct(pivotAbsolutePosition: real, limitSwitchPressed: bool): (r: Intake)
    ensures r.log == []
    ensures r.pivotRelativePosition == r.pivotAbsolutePosition == pivotAbsolutePosition
    ensures r.limitSwitchPressed == limitSwitchPressed
  {
    Intake(pivotAbsolutePosition, pivotAbsolutePosition, limitSwitchPressed, [])
  }

  /** hasCoral(): the limit switch is pressed. */
  function HasCoral(c: Intake): (r: bool)
    ensures r <==> c.limitSwitchPressed
  {
    c.limitSwitchPressed
  }

  /** getPivotAngle(): the absolute encoder reading as a rotation. */
  function PivotAngle(c: Intake): (r: Rotation)
    ensures Rotations(r) == c.pivotAbsolutePosition
  {
    FromRotations(c.pivotAbsolutePosition)
  }

  /** The pivot setpoint for a target angle: its rotations clamped into [0.03, 0.55]. */
  function PivotSetpoint(target: Rotation): (r: real)
    ensures BackLimit <= r <= FrontLimit
    ensures BackLimit <= Rotations(target) <= FrontLimit ==> r == Rotations(target)
    ensures Rotations(target) < BackLimit ==> r == BackLimit
    ensures Rotations(target) > FrontLimit ==> r == FrontLimit
  {
    Clamp(Rotations(target), BackLimit, FrontLimit)
  }

  /** setPivotTargetAngle(target): send the clamped position setpoint, only when enabled. */
  function SetPivotTargetAngle(enabled: bool, c: Intake, target: Rotation): (r: Intake)
    ensures r.pivotAbsolutePosition == c.pivotAbsolutePosition && r.limitSwitchPressed == c.limitSwitchPressed
    ensures enabled ==> r.log == c.log + [PivotPosition(PivotSetpoint(target))]
    ensures r.(log := c.log) == c
    ensures !enabled ==> r == c
  {
    if enabled then c.(log := c.log + [PivotPosition(PivotSetpoint(target))]) else c
  }

  /** setIntakeSpeed(speed): the roller's duty cycle, only when enabled. */
  function SetIntakeSpeed(enabled: bool, c: Intake, speed: real): (r: Intake)
    ensures r.pivotAbsolutePosition == c.pivotAbsolutePosition && r.limitSwitchPressed == c.limitSwitchPressed
    ensures enabled ==> r.log == c.log + [IntakeOutput(speed)]
    ensures r.(log := c.log) == c
    ensures !enabled ==> r == c
  {
    if enabled then c.(log := c.log + [IntakeOutput(speed)]) else c
  }

  /** setRawSpeed(speed): an open-loop pivot duty cycle, only when enabled; it bypasses the setpoint clamp. */
  function SetRawSpeed(enabled: bool, c: Intake, speed: real): (r: Intake)
    ensures r.pivotAbsolutePosition == c.pivotAbsolutePosition && r.limitSwitchPressed == c.limitSwitchPressed
    ensures enabled ==> r.log == c.log + [PivotOutput(speed)]
    ensures r.(log := c.log) == c
    ensures !enabled ==> r == c
  {
    if enabled then c.(log := c.log + [PivotOutput(speed)]) else c
  }

  /** The public operations of the intake that send outputs. */
  datatype IntakeOp =
    | TargetAngle(target: Rotation)
    | IntakeSpeed(speed: real)
    | RawSpeed(speed: real)

  /** Applies one operation. */
  function Apply(enabled: bool, c: Intake, op: IntakeOp): Intake
  {
    match op
    case TargetAngle(target) => SetPivotTargetAngle(enabled, c, target)
    case IntakeSpeed(speed) => SetIntakeSpeed(enabled, c, speed)
    case RawSpeed(speed) => SetRawSpeed(enabled, c, speed)
  }

  /** Applies a sequence of operations in order. */
  function ApplyAll(enabled: bool, c: Intake, ops: seq<IntakeOp>): Intake
    decreases |ops|
  {
    if |ops| == 0 then c else ApplyAll(enabled, Apply(enabled, c, ops[0]), ops[1..])
  }

  /** Every pivot position setpoint in a log lies within the pivot's limits. */
  predicate SafeLog(log: seq<IntakeCommand>)
  {
    forall k | 0 <= k < |log| && log[k].PivotPosition? :: BackLimit <= log[k].rotations <= FrontLimit
  }

  /**
   * Whatever operations are applied, every pivot position setpoint ever sent
   * lies within [0.03, 0.55] rotations, and nothing is sent while disabled.
   */
  lemma {:induction false} PivotSetpointsStayInLimits(enabled: bool, c: Intake, ops: seq<IntakeOp>)
    requires SafeLog(c.log)
    ensures SafeLog(ApplyAll(enabled, c, ops).log)
    ensures !enabled ==> ApplyAll(enabled, c, ops) == c
    decreases |ops|
  {
    if |ops| > 0 {
      var next := Apply(enabled, c, ops[0]);
      assert SafeLog(next.log) by {
        forall k | 0 <= k < |next.log| && next.log[k].PivotPosition?
          ensures BackLimit <= next.log[k].rotations <= FrontLimit
        {
          if k >= |c.log| {
            assert ops[0].TargetAngle? && next.log[k] == PivotPosition(PivotSetpoint(ops[0].target));
          } else {
            assert next.log[k] == c.log[k];
          }
        }
      }
      PivotSetpointsStayInLimits(enabled, next, ops[1..]);
    }
  }

  /** The clamp is idempotent on setpoints: re-targeting the sent setpoint sends it again unchanged. */
  lemma SetpointIsFixedPoint(target: Rotation)
    ensures PivotSetpoint(FromRotations(PivotSetpoint(target))) == PivotSetpoint(target)
  {
  }
}
