/**
 * The driver's game controller: dead-zoned stick axes read from the latest
 * inputs, the POV hat, and one lazily created, cached trigger per button.
 *
 * A trigger polls the controller's current inputs whenever it is asked, so
 * it is modelled as the button it watches plus an identity; `created`
 * counts the triggers made so far and hands out fresh identities.
 */
module Controller {
  import opened MathUtil

  /** IGNORE_DELTA: stick deflections smaller than this read as zero. */
  const IgnoreDelta: real := 0.08

  /** The eight buttons the controller offers triggers for. */
  datatype Button =
    | LeftButton | UpperButton | RightButton | LowerButton
    | LeftShoulderButton | RightShoulderButton | LeftShoulderTrigger | RightShoulderTrigger

  /** The raw inputs of one frame, as the controller's IO layer fills them in. */
  datatype ControllerInputs = ControllerInputs(
    leftVerticalMovement: real,
    leftHorizontalMovement: real,
    rightVerticalMovement: real,
    rightHorizontalMovement: real,
    leftButton: bool,
    upperButton: bool,
    rightButton: bool,
    lowerButton: bool,
    leftShoulderButton: bool,
    leftShoulderTrigger: bool,
    rightShoulderButton: bool,
    rightShoulderTrigger: bool,
    pov: int)
  {
    /** Whether `b` is held down in these inputs. */
    predicate Pressed(b: Button)
    {
      match b
      case LeftButton => leftButton
      case UpperButton => upperButton
      case RightButton => rightButton
      case LowerButton => lowerButton
      case LeftShoulderButton => leftShoulderButton
      case RightShoulderButton => rightShoulderButton
      case LeftShoulderTrigger => leftShoulderTrigger
      case RightShoulderTrigger => rightShoulderTrigger
    }
  }

  /** The inputs before the first update: sticks centred, nothing pressed, POV 0. */
  const InitialInputs: ControllerInputs :=
    ControllerInputs(0.0, 0.0, 0.0, 0.0, false, false, false, false, false, false, false, false, 0)

  /** A bindable trigger: the button it watches, and which trigger object it is. */
  datatype Trigger = Trigger(id: nat, button: Button)

  /** The controller: its latest inputs, its cached triggers, and how many triggers it has made. */
  datatype Controller = Controller(inputs: ControllerInputs, triggers: map<Button, Trigger>, created: nat)

  /** A freshly constructed controller has default inputs and no triggers. */
  const Initial: Controller := Controller(InitialInputs, map[], 0)

  /** The cache is consistent: each cached trigger watches its own button and has its own identity. */
  predicate WellFormed(c: Controller)
  {
    && (forall b | b in c.triggers :: c.triggers[b].button == b && c.triggers[b].id < c.created)
    && (forall b1, b2 | b1 in c.triggers && b2 in c.triggers && b1 != b2 :: c.triggers[b1].id != c.triggers[b2].id)
  }

  /** The fresh controller is consistent. */
  lemma InitialWellFormed()
    ensures WellFormed(Initial) && Initial.triggers == map[]
  {
  }

  /** periodic(): the IO layer's new inputs replace the old ones; cached triggers stay. */
  function Periodic(c: Controller, next: ControllerInputs): (r: Controller)
    ensures r.inputs == next
    ensures r.triggers == c.triggers && r.created == c.created
    ensures WellFormed(c) ==> WellFormed(r)
  {
    c.(inputs := next)
  }

  /** deadzone(val): deflections below IGNORE_DELTA in magnitude read as zero; others pass unchanged. */
  function Deadzone(v: real): (r: real)
    ensures r == 0.0 || r == v
    ensures Abs(v) < IgnoreDelta ==> r == 0.0
    ensures Abs(v) >= IgnoreDelta ==> r == v
    ensures r == 0.0 || Abs(r) >= IgnoreDelta
  {
    if Abs(v) < IgnoreDelta then 0.0 else v
  }

  /** Applying the dead zone twice is applying it once. */
  lemma DeadzoneIdempotent(v: real)
    ensures Deadzone(Deadzone(v)) == Deadzone(v)
  {
  }

  /** The dead zone is symmetric: flipping the stick flips the reading. */
  lemma DeadzoneOdd(v: real)
    ensures Deadzone(-v) == -Deadzone(v)
  {
  }

  /** The dead zone never reverses the order of two deflections. */
  lemma DeadzoneMonotone(v: real, w: real)
    requires v <= w
    ensures Deadzone(v) <= Deadzone(w)
  {
  }

  /** getRightHorizontalMovement(). */
  function RightHorizontalMovement(c: Controller): (r: real)
    ensures r == 0.0 <==> Abs(c.inputs.rightHorizontalMovement) < IgnoreDelta
    ensures r != 0.0 ==> r == c.inputs.rightHorizontalMovement
  {
    Deadzone(c.inputs.rightHorizontalMovement)
  }

  /** getRightVerticalMovement(). */
  function RightVerticalMovement(c: Controller): (r: real)
    ensures r == 0.0 <==> Abs(c.inputs.rightVerticalMovement) < IgnoreDelta
    ensures r != 0.0 ==> r == c.inputs.rightVerticalMovement
  {
    Deadzone(c.inputs.rightVerticalMovement)
  }

  /** getLeftHorizontalMovement(). */
  function LeftHorizontalMovement(c: Controller): (r: real)
    ensures r == 0.0 <==> Abs(c.inputs.leftHorizontalMovement) < IgnoreDelta
    ensures r != 0.0 ==> r == c.inputs.leftHorizontalMovement
  {
    Deadzone(c.inputs.leftHorizontalMovement)
  }

  /** getLeftVerticalMovement(). */
  function LeftVerticalMovement(c: Controller): (r: real)
    ensures r == 0.0 <==> Abs(c.inputs.leftVerticalMovement) < IgnoreDelta
    ensures r != 0.0 ==> r == c.inputs.leftVerticalMovement
  {
    Deadzone(c.inputs.leftVerticalMovement)
  }

  /**
   * Each stick getter reads only its own axis: after an update that moves
   * one axis, the other three getters are unchanged, and a stick inside the
   * dead zone reads exactly zero.
   */
  lemma StickGettersIndependent(c: Controller, v: real)
    ensures var c' := Periodic(c, c.inputs.(leftVerticalMovement := v));
      && LeftVerticalMovement(c') == Deadzone(v)
      && LeftHorizontalMovement(c') == LeftHorizontalMovement(c)
      && RightVerticalMovement(c') == RightVerticalMovement(c)
      && RightHorizontalMovement(c') == RightHorizontalMovement(c)
    ensures Abs(v) < IgnoreDelta ==> LeftVerticalMovement(Periodic(c, c.inputs.(leftVerticalMovement := v))) == 0.0
    ensures var c' := Periodic(c, c.inputs.(leftHorizontalMovement := v));
      && LeftHorizontalMovement(c') == Deadzone(v)
      && LeftVerticalMovement(c') == LeftVerticalMovement(c)
      && RightVerticalMovement(c') == RightVerticalMovement(c)
      && RightHorizontalMovement(c') == RightHorizontalMovement(c)
    ensures var c' := Periodic(c, c.inputs.(rightVerticalMovement := v));
      && RightVerticalMovement(c') == Deadzone(v)
      && LeftVerticalMovement(c') == LeftVerticalMovement(c)
      && LeftHorizontalMovement(c') == LeftHorizontalMovement(c)
      && RightHorizontalMovement(c') == RightHorizontalMovement(c)
    ensures var c' := Periodic(c, c.inputs.(rightHorizontalMovement := v));
      && RightHorizontalMovement(c') == Deadzone(v)
      && LeftVerticalMovement(c') == LeftVerticalMovement(c)
      && LeftHorizontalMovement(c') == LeftHorizontalMovement(c)
      && RightVerticalMovement(c') == RightVerticalMovement(c)
  {
  }

  /** getPOV(): the raw hat value, not dead-zoned. */
  function Pov(c: Controller): (r: int)
    ensures r == c.inputs.pov
  {
    c.inputs.pov
  }

  /**
   * The lazily cached trigger accessors (upperButton(), leftButton(), ...,
   * rightShoulderTrigger()), one button each: the cached trigger if there is
   * one, otherwise a new trigger on that button, which is then cached.
   */
  function ButtonTrigger(c: Controller, b: Button): (r: (Controller, Trigger))
    ensures r.0.inputs == c.inputs
    ensures b in r.0.triggers && r.0.triggers[b] == r.1
    ensures b in c.triggers ==> r == (c, c.triggers[b])
    ensures b !in c.triggers ==> r.0.created == c.created + 1 && r.0.triggers == c.triggers[b := r.1]
    ensures WellFormed(c) ==> WellFormed(r.0) && r.1.button == b
    ensures WellFormed(c) && b !in c.triggers ==> forall b' | b' in c.triggers :: c.triggers[b'].id != r.1.id
  {
    if b in c.triggers then (c, c.triggers[b])
    else
      var t := Trigger(c.created, b);
      (c.(triggers := c.triggers[b := t], created := c.created + 1), t)
  }

  /** Asking twice for the same button gives the same trigger and changes nothing the second time. */
  lemma ButtonTriggerCached(c: Controller, b: Button)
    ensures var (c1, t1) := ButtonTrigger(c, b);
      ButtonTrigger(c1, b) == (c1, t1)
  {
  }

  /** Triggers for different buttons are different trigger objects. */
  lemma DistinctButtonsDistinctTriggers(c: Controller, b1: Button, b2: Button)
    requires WellFormed(c)
    requires b1 != b2
    ensures var (c1, t1) := ButtonTrigger(c, b1);
      var (c2, t2) := ButtonTrigger(c1, b2);
      t1 != t2 && c2.triggers[b1] == t1
  {
  }

  /** Whether a trigger is active: it reads its button from the controller's current inputs. */
  predicate TriggerActive(c: Controller, t: Trigger)
  {
    c.inputs.Pressed(t.button)
  }

  /** A cached trigger follows the inputs: after an update it is active exactly when its button is pressed in them. */
  lemma TriggerFollowsInputs(c: Controller, b: Button, next: ControllerInputs)
    requires WellFormed(c)
    ensures var (c1, t) := ButtonTrigger(c, b);
      var c2 := Periodic(c1, next);
      && (TriggerActive(c2, t) <==> next.Pressed(b))
      && ButtonTrigger(c2, b).1 == t
  {
  }
}
