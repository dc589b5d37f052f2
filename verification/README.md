# Swerve drivetrain control logic (FRC team 3952, 2025 robot)

A Dafny model of the decision-making in the robot's swerve drivetrain. It also covers the two small input and output shaping rules around it: the driver controller's stick dead zone, and the coral intake's pivot setpoint clamp.

- **Swerve module setpoint pipeline** (`swerve_module.dfy`, module `SwerveModule`). A module has three heading readings:
  - the relative turn-motor encoder;
  - the continuous CANcoder, called "absolute";
  - the wrapping CANcoder, called "absolutely-absolute".

  It also has a log of the commands sent to its motor controllers. A desired `{speed, angle}` goes through four steps:
  - it is optimised: the wheel is reversed rather than turned more than 90°;
  - it is cosine-compensated;
  - it is dispatched to the drive and turn controllers, each behind its feature flags;
  - if the module is at rest, the relative encoder is re-seeded from the CANcoder.

  The debug-index overloads re-enter the optimising `setDesiredState`, so the "no-optimise" zeroing path is optimised as well. The model proves this.
- **Heading lock** (`heading_lock.dfy`). A state machine over `(lockedHeadingMode, lockedHeading)` that adjusts the driver's rotation rate. `lockedHeading` starts out null, and that null dereference is modelled as an outcome.
- **Vision fusion** (`vision_fusion.dfy`). The odometry update is modelled as the ordered list of calls made on the pose estimator and the QuestNav headset. It covers:
  - the Limelight distance-tier table;
  - when a measurement is submitted;
  - when the QuestNav is re-seeded;
  - the disconnected-source warnings.
- **Drivetrain** (`drivetrain.dfy`):
  - the `drive` pipeline and its gating;
  - which module gets which state and debug index;
  - autonomous `consumeRawModuleStates`/`consumeChassisSpeeds`;
  - open-loop outputs;
  - the zeroing command, as a loop with a tick budget.
- **Controller** (`controller.dfy`): the dead zone, the four stick getters, the POV value, and the lazily cached button triggers.
- **Coral intake** (`coral_intake.dfy`): the pivot setpoint clamp, and the flag gating of all three outputs.

Shared pieces:
- `common.dfy`: `Option`, and `Quad`, one value per module in the order FL, FR, BL, BR.
- `math_util.dfy`: `Abs` and WPILib's `MathUtil.clamp`.
- `rotation.dfy`: WPILib's `Rotation2d`. Angles are in degrees, and `Wrap` canonicalises into (−180, 180] using floor.
- `flags.dfy`: the compile-time `Flags.DriveTrain` switches, passed as a parameter.

Several things are passed in as parameters rather than modelled:
- Cosine is an arbitrary function bounded by [−1, 1].
- WPILib's kinematics, desaturation and frame conversions are the function fields of a `Library` value.
- The gyro heading, the yaw rate and the match phase are the fields of `RobotInputs`.
- The physical motion of the modules between scheduler ticks is the `plant` function of the zeroing command.

Behaviours of the code that its comments or names do not suggest (the model follows the code):
- **Cosine compensation.** A negative cosine is replaced by 1 (full speed), not clamped to 0 (`SwerveModule.java:234-236`).
- **Heading-lock correction.**
  - The correction is one-sided: only an error of at least 0.005 rad is corrected, and a negative error never is.
  - The −0.3 bound of the clamp is therefore unreachable.
  - The heading error is not wrapped (`DriveTrainSubsystem.java:310-314`).
- **Heading lock when not translating.** The lock state is left exactly as it was when the robot is not translating. It is not reset (`DriveTrainSubsystem.java:302`).
- **Limelight tier table.** The table is not monotone in distance: 1.0–1.3 m is trusted more than 0.75–1.0 m. Readings that are absent or beyond 2 m are still submitted, with an infinite standard deviation, rather than discarded (`DriveTrainSubsystem.java:454-474`).
- **Rotation angles keep their value.** A WPILib `Rotation2d` built from a number keeps that number. So the zeroing tolerance is checked on the raw continuous CANcoder reading in radians, not on a wrapped angle (`DriveTrainSubsystem.java:241`). A module whose continuous reading is near a whole non-zero turn is not "near zero".
- **Zeroing tolerance value.** It is 0.04 rad; the comment beside it says 0.03 (`DriveTrainSubsystem.java:239-241`).
- **`resetEncodersToAbsoluteValue`.** It copies the continuous CANcoder reading, not the absolutely-absolute one its Javadoc names (`SwerveModule.java:245-253`).
- **Zeroing by debug index.** The path is optimised, so a module more than 90° from zero is sent to 180° (π rad), not to 0 (`SwerveModule.java:399-402`, `466-469`).
- **`consumeChassisSpeeds`.** It does not desaturate; only `drive` does (`DriveTrainSubsystem.java:186-188`, `288`).

## Model

| member | source | states |
|---|---|---|
| SwerveModule.Optimize | src/main/java/frc/robot/subsystems/swerve/SwerveModule.java:205-221 | the result lies within 90° of the current heading and asks for the same wheel velocity. Its speed magnitude is kept. It differs from the input exactly when the wrapped error exceeds 90°, and then it is the negated speed pointing 180° further round |
| SwerveModule.ReversedWithinThreshold | src/main/java/frc/robot/subsystems/swerve/SwerveModule.java:207-215 | reversing a state whose error exceeds 90° brings it within 90° of the current heading |
| SwerveModule.ReversedSameWheelVelocity | src/main/java/frc/robot/subsystems/swerve/SwerveModule.java:213-215 | a reversed state points exactly half a turn from the original, and is never the same angle |
| SwerveModule.OptimizeIdempotent | src/main/java/frc/robot/subsystems/swerve/SwerveModule.java:205-221 | optimising twice against the same heading equals optimising once |
| SwerveModule.CosineCompensated | src/main/java/frc/robot/subsystems/swerve/SwerveModule.java:223-239 | the angle is unchanged. The speed never grows in magnitude or flips sign. It is scaled by the cosine when the cosine is ≥ 0 and kept when it is negative |
| SwerveModule.Commanded | src/main/java/frc/robot/subsystems/swerve/SwerveModule.java:445-447 | the dispatched state keeps the angle and never grows or flips the speed. It is the input itself when the compensator flag is off. With the flag on, the speed is scaled by the cosine of the heading error when that cosine is non-negative, and left as is when it is negative |
| SwerveModule.Dispatch | src/main/java/frc/robot/subsystems/swerve/SwerveModule.java:477-504 | a drive velocity setpoint is sent iff enabled, drive motors and drive PID are all on, and a turn position setpoint (radians) is sent iff enabled, turn motors and turn PID are all on. Nothing else is sent, each setpoint at most once, and drive goes before turn |
| SwerveModule.SetDesiredStateNoOptimize | src/main/java/frc/robot/subsystems/swerve/SwerveModule.java:444-456 | the log grows by exactly the gated setpoints of the compensated state. Only the relative turn reading can change. It is re-seeded from the CANcoder exactly when commanded speed and turn velocity are both below 0.01, and left alone otherwise |
| SwerveModule.Target | src/main/java/frc/robot/subsystems/swerve/SwerveModule.java:409-418 | with optimisation on, the target is within 90° of the continuous CANcoder heading with the same wheel velocity. It is the input exactly when no reversal is needed, and otherwise the negated speed at the heading turned by 180° and wrapped. With optimisation off, the target is the input |
| SwerveModule.SetDesiredState | src/main/java/frc/robot/subsystems/swerve/SwerveModule.java:409-418 | only the gated setpoints of the optimised, compensated target are appended, and only the relative turn reading can change. With optimisation on, every turn setpoint is within 90° of the CANcoder heading. No drive setpoint exceeds the requested speed in magnitude. The relative encoder is re-seeded from the CANcoder exactly when the compensated target is below 0.01 m/s and the turn motor is still; otherwise the readings are unchanged. With optimisation off it is exactly setDesiredStateNoOptimize |
| SwerveModule.TargetIdempotent | src/main/java/frc/robot/subsystems/swerve/SwerveModule.java:409-418 | optimising an already optimised target against the same readings changes nothing |
| SwerveModule.SetDesiredStateIndexed | src/main/java/frc/robot/subsystems/swerve/SwerveModule.java:427-436 | the debug-index path optimises twice, harmlessly: it records the once-optimised target in slot debugIdx, then sends that target's setpoints, as a single optimisation would. Only the relative turn reading can change |
| SwerveModule.SetDesiredStateNoOptimizeIndexed | src/main/java/frc/robot/subsystems/swerve/SwerveModule.java:466-469 | despite its name, this overload records the state as given and then sends the setpoints of the optimised state. Only the relative turn reading can change: it is re-seeded exactly when the compensated target leaves the module at rest, and otherwise the readings are unchanged |
| SwerveModule.TurnAbsolutelyAbsolutePosition | src/main/java/frc/robot/subsystems/swerve/SwerveModule.java:293-296 | the wrapping CANcoder position converted to radians, round-tripping to its rotations; it equals the continuous reading in radians exactly when the two CANcoder positions agree |
| SwerveModule.ResetEncodersToAbsoluteValue | src/main/java/frc/robot/subsystems/swerve/SwerveModule.java:250-253 | only the relative turn position changes, and afterwards the relative state and position agree with the continuous-CANcoder ones |
| SwerveModule.Construct | src/main/java/frc/robot/subsystems/swerve/SwerveModule.java:127-138 | after construction nothing has been sent and the drive position is 0. The continuous CANcoder and the relative encoder both report the absolutely-absolute heading. Velocities are untouched |
| SwerveModule.ConstructedReadingsAgree | src/main/java/frc/robot/subsystems/swerve/SwerveModule.java:131-138 | right after construction, the absolute, absolutely-absolute and relative states (and both positions) coincide |
| SwerveModule.TurnAbsEncoderPosition | src/main/java/frc/robot/subsystems/swerve/SwerveModule.java:273-276 | the rotations-to-radians conversion x·360·π/180 equals x·2π |
| SwerveModule.TurnAbsEncoderVelocity | src/main/java/frc/robot/subsystems/swerve/SwerveModule.java:282-285 | the velocity conversion equals rotations/s · 2π |
| SwerveModule.AbsoluteModuleState | src/main/java/frc/robot/subsystems/swerve/SwerveModule.java:325-327 | speed is the drive velocity, and the heading in rotations is the continuous CANcoder reading |
| SwerveModule.AbsoluteAbsoluteModuleState | src/main/java/frc/robot/subsystems/swerve/SwerveModule.java:334-336 | speed is the drive velocity, and the heading in rotations is the wrapping CANcoder reading |
| SwerveModule.AbsoluteModulePosition | src/main/java/frc/robot/subsystems/swerve/SwerveModule.java:343-345 | distance is the drive position, and the heading in rotations is the continuous CANcoder reading |
| SwerveModule.RelativeModuleState | src/main/java/frc/robot/subsystems/swerve/SwerveModule.java:352-354 | speed is the drive velocity, and the heading in radians is the relative encoder reading |
| SwerveModule.RelativeModulePosition | src/main/java/frc/robot/subsystems/swerve/SwerveModule.java:361-363 | distance is the drive position, and the heading in radians is the relative encoder reading |
| SwerveModule.RotateToAbsoluteZero | src/main/java/frc/robot/subsystems/swerve/SwerveModule.java:388-391 | zeroing without a debug index sends (when gated on) drive speed 0 and then turn position 0 rad, whatever the current heading. The relative encoder is re-seeded from the CANcoder exactly when the turn velocity is below 0.01, and the readings are otherwise unchanged |
| SwerveModule.RotateToAbsoluteZeroIndexed | src/main/java/frc/robot/subsystems/swerve/SwerveModule.java:399-402 | zeroing by debug index records the zero state in slot debugIdx, then sends the setpoints of zero speed at 0° or, when optimisation reverses it, at 180°. Only the relative turn reading can change. It is re-seeded when the turn motor is still, and the readings are unchanged when it is not |
| SwerveModule.ZeroTargetReversed | src/main/java/frc/robot/subsystems/swerve/SwerveModule.java:409-418 | with optimisation on and the module more than 90° from zero, the zero state is optimised into zero speed at 180° |
| SwerveModule.ReversedZeroSetpoints | src/main/java/frc/robot/subsystems/swerve/SwerveModule.java:444-456 | commanding zero speed at 180° sends a turn to π rad last. It re-seeds the relative encoder when the turn motor is still |
| SwerveModule.ZeroingPathIsOptimised | src/main/java/frc/robot/subsystems/swerve/SwerveModule.java:399-402 | zeroing by debug index, more than 90° from zero, records zero and then targets 180°. Its last command is a turn to π rad, not 0, and the relative encoder is still re-seeded when the turn motor is still |
| SwerveModule.SetVoltages | src/main/java/frc/robot/subsystems/swerve/SwerveModule.java:371-376 | both voltages are sent, drive first, when the drivetrain is enabled; otherwise nothing happens |
| SwerveModule.Stop | src/main/java/frc/robot/subsystems/swerve/SwerveModule.java:381-383 | when enabled, exactly 0 V to the drive motor and then 0 V to the turn motor are sent; when disabled, nothing changes |
| SwerveModule.DirectDrive | src/main/java/frc/robot/subsystems/swerve/SwerveModule.java:515-519 | an open-loop drive output is sent iff enabled and drive motors are on |
| SwerveModule.DirectTurn | src/main/java/frc/robot/subsystems/swerve/SwerveModule.java:526-530 | an open-loop turn output is sent iff enabled and turn motors are on |
| HeadingLock.ApplyLockHeadingMode | src/main/java/frc/robot/subsystems/swerve/DriveTrainSubsystem.java:299-322 | the step fails (null heading) exactly when enabled, moving, not turning and locked with no heading. The output rate is the driver's, or a correction in [0.005, 0.3] from a held lock. It is a no-op when the feature is off or the robot is not translating, and a well-formed lock stays well formed and never fails |
| HeadingLock.IsMovingMatchesSpeed | src/main/java/frc/robot/subsystems/swerve/DriveTrainSubsystem.java:300-301 | comparing squared speed with 0.1² decides the same as comparing the square-root speed with 0.1 |
| HeadingLock.SetHeadingLockMode | src/main/java/frc/robot/subsystems/swerve/DriveTrainSubsystem.java:254-256 | only the mode flag changes; the captured heading is kept |
| HeadingLock.LockSwitchedOnTooEarlyFails | src/main/java/frc/robot/subsystems/swerve/DriveTrainSubsystem.java:308-310 | switching the lock on before any heading was captured makes the next moving, non-turning step dereference null |
| HeadingLock.TurningReleasesLock | src/main/java/frc/robot/subsystems/swerve/DriveTrainSubsystem.java:305-307 | while moving, a rotation input above 0.01 clears the lock and passes through |
| HeadingLock.ReleasingCapturesHeading | src/main/java/frc/robot/subsystems/swerve/DriveTrainSubsystem.java:315-319 | while moving, not turning and unlocked, the lock turns on with the current gyro heading and the rate passes through |
| HeadingLock.HoldCorrectsPositiveErrorOnly | src/main/java/frc/robot/subsystems/swerve/DriveTrainSubsystem.java:308-314 | a held lock with unwrapped error ≥ 0.005 outputs clamp(error, −0.3, 0.3), which lies in [0.005, 0.3]. Any smaller or negative error passes the driver's rate through. The lock is unchanged either way |
| HeadingLock.LockScenario | src/main/java/frc/robot/subsystems/swerve/DriveTrainSubsystem.java:299-322 | rotation inputs 0.5, 0, 0, 0.5 while translating give lock flags false, true, true, false, with the second step's gyro heading held |
| VisionFusion.LimeyStdDevIsTierLookup | src/main/java/frc/robot/subsystems/swerve/DriveTrainSubsystem.java:454-474 | the injected standard deviation is the first tier of the table (0.6, 0.75, 1, 1.3, 1.5, 2 m) whose bound exceeds the distance, and infinite past the table or without a reading |
| VisionFusion.LimeyStdDev | src/main/java/frc/robot/subsystems/swerve/DriveTrainSubsystem.java:454-474 | the deviation is finite exactly for a present reading nearer than 2 m, every finite value lies in [0.001, 0.015], and readings nearer than 0.6 m get 0.001 |
| VisionFusion.NearestTierIsTightest | src/main/java/frc/robot/subsystems/swerve/DriveTrainSubsystem.java:456-458 | a reading nearer than 0.6 m is trusted at least as much as any other reading |
| VisionFusion.TiersNotMonotone | src/main/java/frc/robot/subsystems/swerve/DriveTrainSubsystem.java:462-467 | a reading at 0.9 m gets 0.0075, looser than the 0.005 of a reading at 1.1 m |
| VisionFusion.QuestResetOnlyOnTrustedReadings | src/main/java/frc/robot/subsystems/swerve/DriveTrainSubsystem.java:455-467 | every reading that re-seeds the QuestNav is submitted with a deviation of at most 0.0075 |
| VisionFusion.UpdateWithLimeyApriltags | src/main/java/frc/robot/subsystems/swerve/DriveTrainSubsystem.java:450-482 | when connected, exactly one measurement is submitted with the tier deviation on all three axes, even when infinite. The QuestNav re-seed follows it iff a reading exists nearer than 1.3 m. When disconnected, only a warning is issued |
| VisionFusion.UpdateWithOculus | src/main/java/frc/robot/subsystems/swerve/DriveTrainSubsystem.java:441-448 | a connected headset's pose is submitted with deviations (0.005, 0.005, 0.1); otherwise only a warning is issued |
| VisionFusion.UpdateOdometry | src/main/java/frc/robot/subsystems/swerve/DriveTrainSubsystem.java:431-439 | the odometry update with the gyro and the four continuous-CANcoder positions comes first, and never again in the same update |
| VisionFusion.UpdateOdometrySplits | src/main/java/frc/robot/subsystems/swerve/DriveTrainSubsystem.java:433-438 | after the odometry update come the Limelight's events (if its flag is on) and then the QuestNav's (if its flag is on) |
| VisionFusion.QuestResetIff | src/main/java/frc/robot/subsystems/swerve/DriveTrainSubsystem.java:450-482 | an update re-seeds the QuestNav iff Limelight fusion is on, the Limelight is connected and a reading exists nearer than 1.3 m |
| VisionFusion.DisconnectedSourcesSkipped | src/main/java/frc/robot/subsystems/swerve/DriveTrainSubsystem.java:441-448 | with both fusions on and both sources disconnected, an update is the odometry update and two warnings, with no measurement |
| DriveTrain.Construct | src/main/java/frc/robot/subsystems/swerve/DriveTrainSubsystem.java:70-126 | a new drivetrain has four freshly seeded modules and the lock off with no heading |
| DriveTrain.AngularVelocitySkewCorrection | src/main/java/frc/robot/subsystems/swerve/DriveTrainSubsystem.java:324-332 | the speeds pass through when yaw rate × coefficient is 0; otherwise they are re-expressed through the heading advanced by that angle |
| DriveTrain.SetModuleStates | src/main/java/frc/robot/subsystems/swerve/DriveTrainSubsystem.java:289-292 | module i receives state i through the debug-index path with debug index i: its log grows by the record of its optimised target in slot i and then that target's setpoints, and only its relative turn reading can change |
| DriveTrain.DriveSpeeds | src/main/java/frc/robot/subsystems/swerve/DriveTrainSubsystem.java:273-284 | the speeds are the driver's (robot-relative) or their field-to-robot conversion at the gyro heading. They are skew-corrected by 0.3 × yaw rate only in teleop with the flag on and the robot turning, and are otherwise unchanged |
| DriveTrain.Drive | src/main/java/frc/robot/subsystems/swerve/DriveTrainSubsystem.java:266-296 | a disabled drivetrain is untouched. Driving fails exactly when the lock step dereferences null. Otherwise the lock takes the step's state and the modules get the desaturated kinematics of the lock-adjusted speeds |
| DriveTrain.DriveKeepsLockWellFormed | src/main/java/frc/robot/subsystems/swerve/DriveTrainSubsystem.java:266-271 | from a well-formed lock, drive never fails and the lock stays well formed |
| DriveTrain.DriveDispatchesInModuleOrder | src/main/java/frc/robot/subsystems/swerve/DriveTrainSubsystem.java:286-292 | module i's log grows by the debug record of its optimised target in slot i, then that target's setpoints. Its absolute readings do not change |
| DriveTrain.PlainDriveUsesDriverSpeeds | src/main/java/frc/robot/subsystems/swerve/DriveTrainSubsystem.java:273-284 | robot-relative, without skew correction or the lock, the kinematics receive exactly the driver's speeds |
| DriveTrain.SetHeadingLockMode | src/main/java/frc/robot/subsystems/swerve/DriveTrainSubsystem.java:254-256 | only the lock flag changes; modules and captured heading are kept |
| DriveTrain.ConsumeRawModuleStates | src/main/java/frc/robot/subsystems/swerve/DriveTrainSubsystem.java:375-380 | state i goes to module i through the plain optimising path: its log grows by exactly the setpoints of its optimised target, with no debug record, only its relative turn reading can change, and the lock is untouched |
| DriveTrain.ConsumeRawModuleStatesEffects | src/main/java/frc/robot/subsystems/swerve/DriveTrainSubsystem.java:375-380 | module i gets only its optimised target's setpoints, with no debug record, and its absolute readings do not change |
| DriveTrain.ConsumeChassisSpeeds | src/main/java/frc/robot/subsystems/swerve/DriveTrainSubsystem.java:186-188 | the lock is untouched, and module i gets exactly the setpoints of the optimised kinematic state i, undesaturated and with no debug record. Its relative turn reading is re-seeded exactly when that compensated state leaves it at rest, and otherwise its readings are unchanged |
| DriveTrain.ConsumeMatchesDriveUpToRecord | src/main/java/frc/robot/subsystems/swerve/DriveTrainSubsystem.java:186-188 | with identity desaturation and no lock or skew correction, the autonomous path and robot-relative drive leave every module with the same readings and commands, apart from drive's debug record |
| DriveTrain.Stop | src/main/java/frc/robot/subsystems/swerve/DriveTrainSubsystem.java:385-390 | every module stops and the lock is untouched; nothing happens when disabled |
| DriveTrain.DirectDriveSpeed | src/main/java/frc/robot/subsystems/swerve/DriveTrainSubsystem.java:339-344 | every module gets the same open-loop drive output when enabled with drive motors on, and nothing otherwise |
| DriveTrain.DirectTurnSpeed | src/main/java/frc/robot/subsystems/swerve/DriveTrainSubsystem.java:351-356 | every module gets the same open-loop turn output when enabled with turn motors on, and nothing otherwise |
| DriveTrain.DirectDriveVoltage | src/main/java/frc/robot/subsystems/swerve/DriveTrainSubsystem.java:363-368 | every module gets the drive voltage and zero turn voltage when enabled, and nothing otherwise |
| DriveTrain.ZeroAll | src/main/java/frc/robot/subsystems/swerve/DriveTrainSubsystem.java:234-239 | one pass of the command body zeroes module i with debug index i. It touches only relative encoders, so it never changes whether every module is within 0.04 rad |
| DriveTrain.ResetAll | src/main/java/frc/robot/subsystems/swerve/DriveTrainSubsystem.java:247-251 | every module's relative encoder is re-seeded so that its relative and absolute positions agree; logs are untouched |
| DriveTrain.RotateToAbsoluteZeroCommand | src/main/java/frc/robot/subsystems/swerve/DriveTrainSubsystem.java:233-252 | at least one tick and at most the timeout budget run, and every tick runs the zeroing body on the modules as the previous tick left them. The command stops at the first tick after which every module is within 0.04 rad, or when the budget is spent. It takes one tick if the modules start near zero. It always ends with every relative encoder agreeing with its CANcoder, and the lock untouched |
| DriveTrain.RunUntil | src/main/java/frc/robot/subsystems/swerve/DriveTrainSubsystem.java:233-250 | a RunCommand with an end condition and a timeout: each entry of the trace is the body applied to the one before. It stops at the first entry meeting the condition, or after the budget of passes, never earlier |
| Controller.Deadzone | src/main/java/frc/robot/controllers/Controller.java:41-46 | deflections below 0.08 in magnitude read 0 and all others pass unchanged, so every output is 0 or at least 0.08 in magnitude |
| Controller.DeadzoneIdempotent | src/main/java/frc/robot/controllers/Controller.java:41-46 | applying the dead zone twice equals applying it once |
| Controller.DeadzoneOdd | src/main/java/frc/robot/controllers/Controller.java:41-46 | the dead zone is odd: deadzone(−v) = −deadzone(v) |
| Controller.DeadzoneMonotone | src/main/java/frc/robot/controllers/Controller.java:41-46 | the dead zone preserves the order of deflections |
| Controller.Periodic | src/main/java/frc/robot/controllers/Controller.java:36-39 | an update replaces the inputs and keeps every cached trigger |
| Controller.RightHorizontalMovement | src/main/java/frc/robot/controllers/Controller.java:53-56 | the reading is 0 exactly when the right horizontal axis is deflected less than 0.08, and otherwise it is the raw deflection |
| Controller.RightVerticalMovement | src/main/java/frc/robot/controllers/Controller.java:63-66 | the reading is 0 exactly when the right vertical axis is deflected less than 0.08, and otherwise it is the raw deflection |
| Controller.LeftHorizontalMovement | src/main/java/frc/robot/controllers/Controller.java:73-76 | the reading is 0 exactly when the left horizontal axis is deflected less than 0.08, and otherwise it is the raw deflection |
| Controller.LeftVerticalMovement | src/main/java/frc/robot/controllers/Controller.java:83-86 | the reading is 0 exactly when the left vertical axis is deflected less than 0.08, and otherwise it is the raw deflection |
| Controller.StickGettersIndependent | src/main/java/frc/robot/controllers/Controller.java:53-86 | each getter reads only its own axis: updating any one of the four axes gives that getter the dead-zoned new value and leaves the other three getters unchanged |
| Controller.Pov | src/main/java/frc/robot/controllers/Controller.java:150-153 | the POV value is the raw input, not dead-zoned |
| Controller.InitialWellFormed | src/main/java/frc/robot/controllers/Controller.java:20-34 | a new controller has no cached triggers and a consistent cache |
| Controller.ButtonTrigger | src/main/java/frc/robot/controllers/Controller.java:93-100 | a cached trigger is returned as is with the controller unchanged. Otherwise a trigger with a fresh identity watching that button is created and cached, and no other cache entry changes |
| Controller.ButtonTriggerCached | src/main/java/frc/robot/controllers/Controller.java:93-209 | asking twice for the same button gives the same trigger and changes nothing the second time |
| Controller.DistinctButtonsDistinctTriggers | src/main/java/frc/robot/controllers/Controller.java:93-114 | triggers for different buttons are different trigger objects, and asking for one does not disturb another |
| Controller.TriggerFollowsInputs | src/main/java/frc/robot/controllers/Controller.java:93-100 | a cached trigger reads its button from the controller's latest inputs |
| CoralIntake.Construct | src/main/java/frc/robot/subsystems/CoralIntakeSubsystem.java:67 | the relative pivot encoder starts at the absolute encoder's reading and nothing has been sent |
| CoralIntake.HasCoral | src/main/java/frc/robot/subsystems/CoralIntakeSubsystem.java:98-100 | a coral is held exactly when the limit switch is pressed |
| CoralIntake.PivotAngle | src/main/java/frc/robot/subsystems/CoralIntakeSubsystem.java:102-104 | the pivot angle in rotations is the absolute encoder reading |
| CoralIntake.PivotSetpoint | src/main/java/frc/robot/subsystems/CoralIntakeSubsystem.java:106-112 | the setpoint lies in [0.03, 0.55]. A target inside is kept, a target below becomes 0.03 and a target above becomes 0.55 |
| CoralIntake.SetPivotTargetAngle | src/main/java/frc/robot/subsystems/CoralIntakeSubsystem.java:106-112 | when enabled, exactly the clamped setpoint is sent; when disabled, nothing changes. Nothing but the log ever changes |
| CoralIntake.SetIntakeSpeed | src/main/java/frc/robot/subsystems/CoralIntakeSubsystem.java:114-118 | the roller output is sent when enabled; when disabled, nothing changes. Nothing but the log ever changes |
| CoralIntake.SetRawSpeed | src/main/java/frc/robot/subsystems/CoralIntakeSubsystem.java:120-124 | the open-loop pivot output is sent when enabled; when disabled, nothing changes. Nothing but the log ever changes |
| CoralIntake.PivotSetpointsStayInLimits | src/main/java/frc/robot/subsystems/CoralIntakeSubsystem.java:106-124 | after any sequence of intake operations, every pivot setpoint ever sent lies in [0.03, 0.55], and nothing is sent while disabled |
| CoralIntake.SetpointIsFixedPoint | src/main/java/frc/robot/subsystems/CoralIntakeSubsystem.java:108 | the clamp is idempotent: re-targeting a sent setpoint sends the same setpoint |

## Left out

- WPILib's kinematics, wheel-speed desaturation, `ChassisSpeeds` frame conversions and the pose estimator's Kalman update are library code, not shown. They are the function fields of `DriveTrain.Library`, and the estimator is an event sink. The desaturation properties (direction and common ratio preserved) belong to that library and are not stated.
- Floating point is not modelled; all quantities are mathematical reals. Lost with it:
  - NaN;
  - signed zero (the optimised zero state's speed is −0 in Java and 0 here);
  - the rounding of `cos`/`atan2` at exactly ±180°, where the canonical angle here is +180°.
- Cosine is an arbitrary function bounded by [−1, 1]. Properties that depend on its actual values (for example that cos 0 = 1) are not stated.
- HeadingLock.IsMoving: compares squared speeds instead of taking `Math.sqrt`. `IsMovingMatchesSpeed` shows the two agree whenever the square root exists.
- Kinematics is modelled as a pure function, `Library.toModuleStates`. WPILib's `SwerveDriveKinematics.toSwerveModuleStates` keeps state: for all-zero chassis speeds it returns the last module headings rather than heading zero. This history is not modelled, and it affects `drive` and `consumeChassisSpeeds` (`DriveTrainSubsystem.java:187`, `286`).
- The drivetrain constructor's side effects on other devices are left out (`DriveTrainSubsystem.java:132-141`). These are the gyro reset and `setGyroAngle(180)`, the QuestNav `resetPose` and `resetHeading(180°)`, and the dashboard and AutoBuilder setup. `DriveTrain.Construct` models only the module seeding and the initial lock.
- SetDesiredStateNoOptimizeIndexed, RotateToAbsoluteZeroIndexed, SetDesiredStateIndexed: `requires debugIdx < 4` stands in for the `ArrayIndexOutOfBoundsException` that `optimizedTargetStates[debugIdx]` throws for any other index (`SwerveModule.java:467`). Every call site passes a literal 0 to 3 (`DriveTrainSubsystem.java:235-238`, `289-292`).
- The Java `SwerveModuleState[]` arrays are `Quad` values, so the out-of-bounds exception for a short array has no counterpart.
- DriveTrain.RotateToAbsoluteZeroCommand: time is a budget of scheduler ticks rather than 1.0 s of wall-clock time. How the robot moves between ticks is the `plant` parameter. Of the command scheduler, only the RunCommand/until/withTimeout composition is modelled, by `DriveTrain.RunUntil`.
- Telemetry, the debug publishing of `optimizedTargetStates`, `periodic()` publishing, `Field2d`, printing and the PathPlanner `AutoBuilder` setup are not modelled. The shared debug array is represented only by the `RecordTarget` entries in each module's log.
- `setPose`, `getPose` and `getRobotRelativeChassisSpeeds` are left out: they only forward to the estimator, the gyro and the kinematics.
- Hardware configuration is left out: motor inversion, PID gains, current limits and conversion factors. So are the gyro and controller IO layers, and the coral intake's `getThroughboreEncoderDistance`, a stub that returns a zero rotation.
- The controller's logging of inputs and its `name` are left out.
- The eight trigger accessors (`upperButton()` to `rightShoulderTrigger()`) are one member, `Controller.ButtonTrigger`, applied to a fixed button each.
- The flags `Flags.DriveTrain.*` and `Flags.CoralIntake.ENABLED` are parameters rather than compile-time constants. `drive`'s `isTeleop()` and the gyro readings come from `RobotInputs`.
