/**
 * The drivetrain's heading lock: while the robot translates and the driver
 * does not rotate, hold the heading the robot had when the driver let go.
 *
 * The state is `(lockedHeadingMode, lockedHeading)`.  `lockedHeading` starts
 * out null, so a lock switched on by `setHeadingLockMode(true)` before any
 * heading was captured makes the hold step fail; that is the
 * `NullLockedHeading` outcome.
 */
module HeadingLock {
  import opened Common
  import opened MathUtil
  import opened Rotation2d

  /** LOCK_HEADING_THRESHOLD: below this translation speed the lock is not evaluated. */
  const LockHeadingThreshold: real := 0.1

  /** Above this rotation input the driver is turning. */
  const TurningThreshold: real := 0.01

  /** The smallest heading error the lock corrects (radians). */
  const MinCorrection: real := 0.005

  /** The largest rotation rate the lock commands. */
  const MaxCorrection: real := 0.3

  /** The proportional gain from heading error to rotation rate. */
  const HeadingGain: real := 1.0

  datatype LockState = LockState(lockedHeadingMode: bool, lockedHeading: Option<Rotation>)

  /** The state the drivetrain is constructed with. */
  const Initial: LockState := LockState(false, None)

  /** Either the next lock state and the rotation rate to use, or the null-pointer failure. */
  datatype LockStep = Stepped(lock: LockState, rot: real) | NullLockedHeading

  /** A lock that is on has a heading to hold. */
  predicate WellFormed(lock: LockState)
  {
    lock.lockedHeadingMode ==> lock.lockedHeading.Some?
  }

  /** The translation speed exceeds the threshold (the square root compared through squares). */
  predicate IsMoving(forward: real, sideways: real)
  {
    forward * forward + sideways * sideways > LockHeadingThreshold * LockHeadingThreshold
  }

  /** `IsMoving` is exactly `sqrt(forward^2 + sideways^2) > 0.1`. */
  lemma IsMovingMatchesSpeed(forward: real, sideways: real, speed: real)
    requires speed >= 0.0
    requires speed * speed == forward * forward + sideways * sideways
    ensures speed > LockHeadingThreshold <==> IsMoving(forward, sideways)
  {
    var t := LockHeadingThreshold;
    if speed > t {
      assert speed * speed > t * speed > t * t;
    } else {
      assert speed * speed <= t * speed <= t * t;
    }
  }

  /** The driver is rotating. */
  predicate IsTurning(rot: real)
  {
    Abs(rot) > TurningThreshold
  }

  /** The unwrapped heading error, in radians, that the hold step corrects. */
  function HeadingError(lockedHeading: Rotation, gyro: Rotation): real
  {
    Radians(lockedHeading) - Radians(gyro)
  }

  /**
   * applyLockHeadingMode: one evaluation of the lock.  The rotation rate that
   * comes out is the driver's, or a correction in [0.005, 0.3] that only a
   * held lock produces; a lock that is not evaluated stays as it was.
   */
  function ApplyLockHeadingMode(enabled: bool, lock: LockState, forward: real, sideways: real, rot: real, gyro: Rotation): (r: LockStep)
    ensures r.NullLockedHeading? <==>
      enabled && IsMoving(forward, sideways) && !IsTurning(rot) && lock.lockedHeadingMode && lock.lockedHeading.None?
    ensures r.Stepped? ==> r.rot == rot || (MinCorrection <= r.rot <= MaxCorrection && lock.lockedHeadingMode && r.lock == lock)
    ensures !enabled || !IsMoving(forward, sideways) ==> r == Stepped(lock, rot)
    ensures WellFormed(lock) ==> r.Stepped? && WellFormed(r.lock)
  {
    if enabled && IsMoving(forward, sideways) then
      if IsTurning(rot) then
        Stepped(lock.(lockedHeadingMode := false), rot)
      else if lock.lockedHeadingMode then
        match lock.lockedHeading
        case None => NullLockedHeading
        case Some(heading) =>
          var unbounded := HeadingGain * HeadingError(heading, gyro);
          if unbounded >= MinCorrection then Stepped(lock, Clamp(unbounded, -MaxCorrection, MaxCorrection))
          else Stepped(lock, rot)
      else
        Stepped(LockState(true, Some(gyro)), rot)
    else
      Stepped(lock, rot)
  }

  /** setHeadingLockMode: switch the lock on or off, keeping the captured heading. */
  function SetHeadingLockMode(lock: LockState, on: bool): (r: LockState)
    ensures r.lockedHeadingMode == on
    ensures r.lockedHeading == lock.lockedHeading
    ensures !on ==> WellFormed(r)
  {
    lock.(lockedHeadingMode := on)
  }

  /** Switching the lock on before any heading was captured makes the next hold step fail. */
  lemma LockSwitchedOnTooEarlyFails(forward: real, sideways: real, gyro: Rotation)
    requires IsMoving(forward, sideways)
    ensures ApplyLockHeadingMode(true, SetHeadingLockMode(Initial, true), forward, sideways, 0.0, gyro).NullLockedHeading?
  {
  }

  /** While moving, driver rotation releases the lock and passes through. */
  lemma TurningReleasesLock(lock: LockState, forward: real, sideways: real, rot: real, gyro: Rotation)
    requires IsMoving(forward, sideways) && IsTurning(rot)
    ensures ApplyLockHeadingMode(true, lock, forward, sideways, rot, gyro)
      == Stepped(LockState(false, lock.lockedHeading), rot)
  {
  }

  /** While moving, not turning and unlocked, the lock captures the gyro heading. */
  lemma ReleasingCapturesHeading(lock: LockState, forward: real, sideways: real, rot: real, gyro: Rotation)
    requires IsMoving(forward, sideways) && !IsTurning(rot) && !lock.lockedHeadingMode
    ensures ApplyLockHeadingMode(true, lock, forward, sideways, rot, gyro)
      == Stepped(LockState(true, Some(gyro)), rot)
  {
  }

  /**
   * While held, a heading error of at least 0.005 rad is corrected at a rate
   * clamped to [0.005, 0.3]; any smaller error, including every negative one,
   * leaves the driver's rotation unchanged.
   */
  lemma HoldCorrectsPositiveErrorOnly(heading: Rotation, forward: real, sideways: real, rot: real, gyro: Rotation)
    requires IsMoving(forward, sideways) && !IsTurning(rot)
    ensures var lock := LockState(true, Some(heading));
      var r := ApplyLockHeadingMode(true, lock, forward, sideways, rot, gyro);
      var e := HeadingError(heading, gyro);
      && r.Stepped? && r.lock == lock
      && (e >= MinCorrection ==> r.rot == Clamp(e, -MaxCorrection, MaxCorrection) && MinCorrection <= r.rot <= MaxCorrection)
      && (e < MinCorrection ==> r.rot == rot)
  {
  }

  /**
   * Driving with rotation inputs [0.5, 0, 0, 0.5] while translating gives lock
   * flags [false, true, true, false], and the held heading is the gyro heading
   * of the second step.
   */
  lemma LockScenario(lock0: LockState, forward: real, sideways: real, g1: Rotation, g2: Rotation, g3: Rotation, g4: Rotation)
    requires WellFormed(lock0)
    requires IsMoving(forward, sideways)
    ensures var s1 := ApplyLockHeadingMode(true, lock0, forward, sideways, 0.5, g1);
      var s2 := ApplyLockHeadingMode(true, s1.lock, forward, sideways, 0.0, g2);
      var s3 := ApplyLockHeadingMode(true, s2.lock, forward, sideways, 0.0, g3);
      var s4 := ApplyLockHeadingMode(true, s3.lock, forward, sideways, 0.5, g4);
      && s1.Stepped? && s2.Stepped? && s3.Stepped? && s4.Stepped?
      && !s1.lock.lockedHeadingMode && s2.lock.lockedHeadingMode
      && s3.lock.lockedHeadingMode && !s4.lock.lockedHeadingMode
      && s2.lock.lockedHeading == Some(g2) && s3.lock.lockedHeading == Some(g2)
      && s1.rot == 0.5 && s2.rot == 0.0 && s4.rot == 0.5
  {
    var s1 := ApplyLockHeadingMode(true, lock0, forward, sideways, 0.5, g1);
    TurningReleasesLock(lock0, forward, sideways, 0.5, g1);
    ReleasingCapturesHeading(s1.lock, forward, sideways, 0.0, g2);
    var s2 := ApplyLockHeadingMode(true, s1.lock, forward, sideways, 0.0, g2);
    HoldCorrectsPositiveErrorOnly(g2, forward, sideways, 0.0, g3);
    var s3 := ApplyLockHeadingMode(true, s2.lock, forward, sideways, 0.0, g3);
    TurningReleasesLock(s3.lock, forward, sideways, 0.5, g4);
  }
}
