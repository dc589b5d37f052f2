/**
 * The drivetrain's odometry update and its vision fusion policy.
 *
 * The pose estimator is library code; here it is a sink, and one update is
 * the list of calls made on it (and on the QuestNav headset) in order.  The
 * two vision sources are the Limelight, reading AprilTags at a measured
 * distance, and the QuestNav headset.
 */
module VisionFusion {
  import opened Common
  import opened Rotation2d
  import opened Flags
  import opened SwerveModule

  /** A field pose: position (m) and heading. */
  datatype Pose = Pose(x: real, y: real, rotation: Rotation)

  /** A measurement standard deviation; `Infinite` is Double.POSITIVE_INFINITY. */
  datatype StdDev = Finite(value: real) | Infinite

  /** The Limelight's latest AprilTag reading (`exists()` is `present`). */
  datatype LimeyReading = LimeyReading(pose: Pose, distance: real, timestamp: real, present: bool)

  /** What the Limelight reports this cycle. */
  datatype Limelight = Limelight(connected: bool, reading: LimeyReading)

  /** What the QuestNav headset reports this cycle. */
  datatype QuestNav = QuestNav(connected: bool, pose: Pose, timestamp: real)

  /** One call on the pose estimator, the headset or the driver station, in the order made. */
  datatype FusionEvent =
    | OdometryUpdate(gyro: Rotation, positions: Quad<ModulePosition>)
    | VisionMeasurement(pose: Pose, timestamp: real, xStdDev: StdDev, yStdDev: StdDev, thetaStdDev: StdDev)
    | ResetQuestNavToEstimate
    | Warning(message: string)

  /** The standard deviations given to every QuestNav measurement. */
  const QuestXYStdDev: real := 0.005
  const QuestThetaStdDev: real := 0.1

  /** Below this tag distance (m) a Limelight reading also re-seeds the QuestNav. */
  const QuestResetDistance: real := 1.3

  /** The Limelight distance tiers: (upper distance bound, standard deviation), nearest first. */
  const LimeyTiers: seq<(real, real)> :=
    [(0.6, 0.001), (0.75, 0.0025), (1.0, 0.0075), (1.3, 0.005), (1.5, 0.01), (2.0, 0.015)]

  /** The standard deviation of the first tier whose bound exceeds `distance`; infinite past the last. */
  function TierLookup(tiers: seq<(real, real)>, distance: real): StdDev
  {
    if |tiers| == 0 then Infinite
    else if distance < tiers[0].0 then Finite(tiers[0].1)
    else TierLookup(tiers[1..], distance)
  }

  /** The standard deviation updateOdometryWithLimeyApriltags injects, as an if-chain on the distance. */
  function LimeyStdDev(reading: LimeyReading): (r: StdDev)
    ensures r.Finite? <==> reading.present && reading.distance < 2.0
    ensures r.Finite? ==> 0.001 <= r.value <= 0.015
    ensures reading.present && reading.distance < 0.6 ==> r == Finite(0.001)
  {
    if !reading.present then Infinite
    else if reading.distance < 0.6 then Finite(0.001)
    else if reading.distance < 0.75 then Finite(0.0025)
    else if reading.distance < 1.0 then Finite(0.0075)
    else if reading.distance < 1.3 then Finite(0.005)
    else if reading.distance < 1.5 then Finite(0.01)
    else if reading.distance < 2.0 then Finite(0.015)
    else Infinite
  }

  /** The if-chain is exactly a first-match lookup in the tier table. */
  lemma LimeyStdDevIsTierLookup(reading: LimeyReading)
    ensures LimeyStdDev(reading) == if reading.present then TierLookup(LimeyTiers, reading.distance) else Infinite
  {
    var d := reading.distance;
    var t0 := LimeyTiers;
    var t1 := [(0.75, 0.0025), (1.0, 0.0075), (1.3, 0.005), (1.5, 0.01), (2.0, 0.015)];
    var t2 := [(1.0, 0.0075), (1.3, 0.005), (1.5, 0.01), (2.0, 0.015)];
    var t3 := [(1.3, 0.005), (1.5, 0.01), (2.0, 0.015)];
    var t4 := [(1.5, 0.01), (2.0, 0.015)];
    var t5 := [(2.0, 0.015)];
    assert t0[1..] == t1 && t1[1..] == t2 && t2[1..] == t3 && t3[1..] == t4 && t4[1..] == t5 && t5[1..] == [];
    assert TierLookup(t5, d) == if d < 2.0 then Finite(0.015) else Infinite;
    assert TierLookup(t4, d) == if d < 1.5 then Finite(0.01) else TierLookup(t5, d);
    assert TierLookup(t3, d) == if d < 1.3 then Finite(0.005) else TierLookup(t4, d);
    assert TierLookup(t2, d) == if d < 1.0 then Finite(0.0075) else TierLookup(t3, d);
    assert TierLookup(t1, d) == if d < 0.75 then Finite(0.0025) else TierLookup(t2, d);
    assert TierLookup(t0, d) == if d < 0.6 then Finite(0.001) else TierLookup(t1, d);
  }

  /** Whether a standard deviation is at most another (infinite is the loosest). */
  predicate AtMost(a: StdDev, b: StdDev)
  {
    b.Infinite? || (a.Finite? && a.value <= b.value)
  }

  /** Every present reading nearer than 0.6 m is trusted at least as much as any reading at all. */
  lemma NearestTierIsTightest(near: LimeyReading, other: LimeyReading)
    requires near.present && near.distance < 0.6
    ensures AtMost(LimeyStdDev(near), LimeyStdDev(other))
  {
  }

  /** The tiers are not monotone in distance: 0.9 m is trusted less than 1.1 m. */
  lemma TiersNotMonotone(pose: Pose, timestamp: real)
    ensures LimeyStdDev(LimeyReading(pose, 0.9, timestamp, true)) == Finite(0.0075)
    ensures LimeyStdDev(LimeyReading(pose, 1.1, timestamp, true)) == Finite(0.005)
    ensures !AtMost(LimeyStdDev(LimeyReading(pose, 0.9, timestamp, true)), LimeyStdDev(LimeyReading(pose, 1.1, timestamp, true)))
  {
  }

  /** Whether a Limelight reading also re-seeds the QuestNav. */
  predicate ShouldResetQuestNav(reading: LimeyReading)
  {
    reading.present && reading.distance < QuestResetDistance
  }

  /** A reading that re-seeds the QuestNav is always submitted with a finite standard deviation. */
  lemma QuestResetOnlyOnTrustedReadings(reading: LimeyReading)
    requires ShouldResetQuestNav(reading)
    ensures AtMost(LimeyStdDev(reading), Finite(0.0075))
  {
  }

  /**
   * updateOdometryWithLimeyApriltags: when connected, submit the reading with
   * its tier's standard deviation on all three axes (even when infinite), then
   * re-seed the QuestNav for near readings; when not, only warn.
   */
  function UpdateWithLimeyApriltags(limey: Limelight): (r: seq<FusionEvent>)
    ensures !limey.connected ==> r == [Warning("Limey not connected!")]
    ensures limey.connected ==>
      && 1 <= |r| <= 2
      && r[0] == VisionMeasurement(limey.reading.pose, limey.reading.timestamp,
                                   LimeyStdDev(limey.reading), LimeyStdDev(limey.reading), LimeyStdDev(limey.reading))
      && (|r| == 2 <==> ShouldResetQuestNav(limey.reading))
      && (|r| == 2 ==> r[1] == ResetQuestNavToEstimate)
  {
    if limey.connected then
      var reading := limey.reading;
      var correction := LimeyStdDev(reading);
      [VisionMeasurement(reading.pose, reading.timestamp, correction, correction, correction)]
      + (if ShouldResetQuestNav(reading) then [ResetQuestNavToEstimate] else [])
    else
      [Warning("Limey not connected!")]
  }

  /** updateOdometryWithOculus: submit the headset pose with fixed deviations when connected; else warn. */
  function UpdateWithOculus(quest: QuestNav): (r: seq<FusionEvent>)
    ensures !quest.connected ==> r == [Warning("Oculus not connected!")]
    ensures quest.connected ==> r == [VisionMeasurement(quest.pose, quest.timestamp,
      Finite(QuestXYStdDev), Finite(QuestXYStdDev), Finite(QuestThetaStdDev))]
  {
    if quest.connected then
      [VisionMeasurement(quest.pose, quest.timestamp, Finite(QuestXYStdDev), Finite(QuestXYStdDev), Finite(QuestThetaStdDev))]
    else
      [Warning("Oculus not connected!")]
  }

  /** The odometry positions: each module's distance and continuous CANcoder heading. */
  function AbsoluteModulePositions(modules: Quad<Module>): Quad<ModulePosition>
  {
    Quad(AbsoluteModulePosition(modules.fl.sensors), AbsoluteModulePosition(modules.fr.sensors),
         AbsoluteModulePosition(modules.bl.sensors), AbsoluteModulePosition(modules.br.sensors))
  }

  /**
   * updateOdometry: the odometry update first, then the Limelight and then
   * the QuestNav fusion, each when its flag is on.
   */
  function UpdateOdometry(flags: DriveTrainFlags, gyro: Rotation, modules: Quad<Module>, limey: Limelight, quest: QuestNav): (r: seq<FusionEvent>)
    ensures |r| >= 1 && r[0] == OdometryUpdate(gyro, AbsoluteModulePositions(modules))
    ensures forall i | 1 <= i < |r| :: !r[i].OdometryUpdate?
  {
    [OdometryUpdate(gyro, AbsoluteModulePositions(modules))]
    + (if flags.enableLimeyApriltagsOdometryFusing then UpdateWithLimeyApriltags(limey) else [])
    + (if flags.enableOculusOdometryFusing then UpdateWithOculus(quest) else [])
  }

  /** The Limelight's events within an update, or none when its fusion flag is off. */
  lemma UpdateOdometrySplits(flags: DriveTrainFlags, gyro: Rotation, modules: Quad<Module>, limey: Limelight, quest: QuestNav)
    ensures var lime := if flags.enableLimeyApriltagsOdometryFusing then UpdateWithLimeyApriltags(limey) else [];
      var oculus := if flags.enableOculusOdometryFusing then UpdateWithOculus(quest) else [];
      UpdateOdometry(flags, gyro, modules, limey, quest)[1..] == lime + oculus
  {
  }

  /** The QuestNav is re-seeded in an update exactly when a fused Limelight reading is present and nearer than 1.3 m. */
  lemma QuestResetIff(flags: DriveTrainFlags, gyro: Rotation, modules: Quad<Module>, limey: Limelight, quest: QuestNav)
    ensures ResetQuestNavToEstimate in UpdateOdometry(flags, gyro, modules, limey, quest) <==>
      flags.enableLimeyApriltagsOdometryFusing && limey.connected && ShouldResetQuestNav(limey.reading)
  {
    var r := UpdateOdometry(flags, gyro, modules, limey, quest);
    var lime := if flags.enableLimeyApriltagsOdometryFusing then UpdateWithLimeyApriltags(limey) else [];
    var oculus := if flags.enableOculusOdometryFusing then UpdateWithOculus(quest) else [];
    UpdateOdometrySplits(flags, gyro, modules, limey, quest);
    assert r == [r[0]] + lime + oculus;
    assert ResetQuestNavToEstimate !in oculus;
  }

  /**
   * A disconnected source contributes only its warning: with both fusions on
   * and both sources disconnected, the update is odometry then two warnings.
   */
  lemma DisconnectedSourcesSkipped(flags: DriveTrainFlags, gyro: Rotation, modules: Quad<Module>, limey: Limelight, quest: QuestNav)
    requires flags.enableLimeyApriltagsOdometryFusing && flags.enableOculusOdometryFusing
    requires !limey.connected && !quest.connected
    ensures UpdateOdometry(flags, gyro, modules, limey, quest) ==
      [OdometryUpdate(gyro, AbsoluteModulePositions(modules)), Warning("Limey not connected!"), Warning("Oculus not connected!")]
  {
  }
}
