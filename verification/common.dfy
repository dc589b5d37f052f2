/** Small containers shared by the drivetrain modules. */
module Common {

  /** A value that may be missing (a Java reference that may still be null). */
  datatype Option<+T> = None | Some(value: T)

  /** One value per swerve module, in the drivetrain's fixed order FL, FR, BL, BR. */
  datatype Quad<T> = Quad(fl: T, fr: T, bl: T, br: T) {

    /** The value for module `i`, where 0 = FL, 1 = FR, 2 = BL, 3 = BR. */
    function Get(i: nat): T
      requires i < 4
    {
      if i == 0 then fl else if i == 1 then fr else if i == 2 then bl else br
    }
  }
}
