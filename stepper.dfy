/**
 * The stepper-motor velocity state machine: a trapezoidal profile in
 * integer steps per second, driven by updateState (called 1000 times a
 * second) and by the timer interrupt that emits the step pulses; and the
 * TailPositioner homing machine built on it. Timer and pin writes are left
 * out; each method runs as one atomic step.
 */
module Stepper {
  import opened CInt

  const AccelerationInit := 5
  const MinVelocityInit := 172
  const MaxVelocityInit := 6889
  const StepperCtlPerSec := 1000

  /** The file's own min and max on int. */
  function Min(a: int, b: int): int { if a < b then a else b }
  function Max(a: int, b: int): int { if a > b then a else b }

  /** MOTOR_DIR_LEFT (LOW) and MOTOR_DIR_RIGHT (HIGH). */
  datatype Direction = Left | Right

  lemma MulLeMul(a: int, b: int, c: int)
    requires 0 <= a <= b && 0 <= c
    ensures a * c <= b * c
  {}

  /**
   * decel_x: the number of steps needed to brake from velocity `v` to rest
   * at acceleration `a`, v^2 / (2a) / STEPPERCTL_PER_SEC with C's
   * truncating division. For a > 0 it is the largest d >= 0 with
   * d * 2a * 1000 <= v^2.
   */
  function DecelDistance(v: int, a: int): (d: int)
    requires a != 0
    ensures 0 < a ==> 0 <= d
    ensures 0 < a ==> d * (2 * a * StepperCtlPerSec) <= v * v < (d + 1) * (2 * a * StepperCtlPerSec)
  {
    var x := v * v;
    SquareNonNegative(v);
    var q := TruncDiv(x, 2 * a);
    var d := TruncDiv(q, StepperCtlPerSec);
    if 0 < a then
      FloorOfFloor(x, 2 * a, StepperCtlPerSec);
      d
    else
      d
  }

  lemma SquareNonNegative(v: int)
    ensures 0 <= v * v
  {
    if v < 0 {
      MulLeMul(0, -v, -v);
    }
  }

  /** Dividing by m and then by n, both rounding down, is dividing by m * n. */
  lemma FloorOfFloor(x: int, m: int, n: int)
    requires 0 <= x && 0 < m && 0 < n
    ensures 0 <= x / m && 0 <= (x / m) / n
    ensures (x / m) / n * (m * n) <= x < ((x / m) / n + 1) * (m * n)
  {
    var q := x / m;
    var d := q / n;
    DivBounds(x, m);
    DivBounds(q, n);
    MulLeMul(d * n, q, m);
    MulLeMul(q + 1, (d + 1) * n, m);
    MulAssoc(d, n, m);
    MulAssoc(d + 1, n, m);
  }

  /** The quotient of a natural number by a positive one, bracketed. */
  lemma DivBounds(x: int, m: int)
    requires 0 <= x && 0 < m
    ensures 0 <= x / m && (x / m) * m <= x && x + 1 <= (x / m + 1) * m
  {
    var q := x / m;
    assert x == q * m + x % m;
  }

  lemma MulAssoc(a: int, b: int, c: int)
    ensures a * (c * b) == (a * b) * c
  {}

  /** At the velocities the firmware allows, v * v fits in an int32_t. */
  lemma DecelNoOverflow(v: int)
    requires 0 <= v <= MaxVelocityInit
    ensures v * v < 0x8000_0000
  {
    MulLeMul(v, MaxVelocityInit, v);
    MulLeMul(v, MaxVelocityInit, MaxVelocityInit);
  }

  /** Direction, enable state and velocity: what updateState changes. */
  datatype Drive = Drive(dir: Direction, enabled: bool, velocity: int)

  /** Heading toward the target and farther from it than the braking distance. */
  predicate Approaching(current: int, desired: int, decelX: int, dir: Direction) {
    (dir == Right && current < desired && desired - current > decelX)
    || (dir == Left && current > desired && current - desired > decelX)
  }

  /**
   * The effect of updateState on the drive: a stopped motor away from its
   * target is enabled toward it; then the motor accelerates (up to
   * maxVelocity) when approaching beyond the braking distance and
   * decelerates (down to minVelocity) otherwise, including when it passes
   * through the target while enabled. A stopped motor at its target is
   * left alone.
   */
  function UpdateDrive(current: int, desired: int, decelX: int, acceleration: int,
                       minVelocity: int, maxVelocity: int, d: Drive): (r: Drive)
    ensures current != desired && !d.enabled ==>
              r.enabled && r.dir == (if current < desired then Right else Left)
    ensures current != desired && d.enabled ==> r.enabled && r.dir == d.dir
    ensures current == desired ==> r.enabled == d.enabled && r.dir == d.dir
    ensures current == desired && !d.enabled ==> r == d
    ensures current != desired || d.enabled ==>
              r.velocity == if Approaching(current, desired, decelX, r.dir)
                            then Min(maxVelocity, d.velocity + acceleration)
                            else Max(minVelocity, d.velocity - acceleration)
    ensures minVelocity <= d.velocity <= maxVelocity && 0 <= acceleration ==>
              minVelocity <= r.velocity <= maxVelocity
    ensures minVelocity <= d.velocity <= maxVelocity && 0 <= acceleration && r.velocity > d.velocity ==>
              Approaching(current, desired, decelX, r.dir)
  {
    if current == desired then
      if d.enabled then d.(velocity := Max(minVelocity, d.velocity - acceleration)) else d
    else
      var dir := if d.enabled then d.dir else if current < desired then Right else Left;
      var v := if Approaching(current, desired, decelX, dir)
               then Min(maxVelocity, d.velocity + acceleration)
               else Max(minVelocity, d.velocity - acceleration);
      Drive(dir, true, v)
  }

  class StepperMotor {
    var acceleration: int
    var maxVelocity: int
    var minVelocity: int
    var desiredPosition: int
    var currentPosition: int
    var currentVelocity: int
    var decelX: int
    var motorDir: Direction
    var motorEnabled: bool
    /** The phase of the step waveform (HIGH = 1: leading edge next). */
    var outstate: bv32

    /** min_velocity <= current_velocity <= max_velocity */
    predicate VelocityInBounds()
      reads this
    {
      minVelocity <= currentVelocity <= maxVelocity
    }

    function CurrentDrive(): Drive
      reads this
    {
      Drive(motorDir, motorEnabled, currentVelocity)
    }

    /** The constructor: at 0, not moving toward anything, disabled, at minimum velocity. */
    constructor (acceleration: int, minVel: int, maxVel: int)
      ensures this.acceleration == acceleration && minVelocity == minVel && maxVelocity == maxVel
      ensures currentPosition == 0 && desiredPosition == 0
      ensures currentVelocity == minVel && !motorEnabled && motorDir == Left
      ensures decelX == 0 && outstate == 0
      ensures minVel <= maxVel ==> VelocityInBounds()
    {
      this.acceleration := acceleration;
      minVelocity := minVel;
      maxVelocity := maxVel;
      currentPosition := 0;
      desiredPosition := 0;
      currentVelocity := minVel;
      motorDir := Left;
      motorEnabled := false;
      decelX := 0;
      outstate := 0;
    }

    /** The member-wise copy made when a motor is passed by value. */
    constructor Copy(other: StepperMotor)
      ensures acceleration == other.acceleration && maxVelocity == other.maxVelocity
      ensures minVelocity == other.minVelocity && desiredPosition == other.desiredPosition
      ensures currentPosition == other.currentPosition && currentVelocity == other.currentVelocity
      ensures decelX == other.decelX && motorDir == other.motorDir
      ensures motorEnabled == other.motorEnabled && outstate == other.outstate
    {
      acceleration := other.acceleration;
      maxVelocity := other.maxVelocity;
      minVelocity := other.minVelocity;
      desiredPosition := other.desiredPosition;
      currentPosition := other.currentPosition;
      currentVelocity := other.currentVelocity;
      decelX := other.decelX;
      motorDir := other.motorDir;
      motorEnabled := other.motorEnabled;
      outstate := other.outstate;
    }

    /** currentPosition(x) */
    method SetCurrentPosition(x: int)
      modifies this`currentPosition
      ensures currentPosition == x
    {
      currentPosition := x;
    }

    /** desiredPosition(x) */
    method SetDesiredPosition(x: int)
      modifies this`desiredPosition
      ensures desiredPosition == x
    {
      desiredPosition := x;
    }

    /** updateDecelX(): recompute the braking distance for the current velocity. */
    method UpdateDecelX()
      requires acceleration != 0
      modifies this`decelX
      ensures decelX == DecelDistance(currentVelocity, acceleration)
    {
      decelX := TruncDiv(TruncDiv(currentVelocity * currentVelocity, 2 * acceleration), StepperCtlPerSec);
    }

    /** updateState(): one evaluation of the velocity state machine. */
    method UpdateState()
      modifies this`motorDir, this`motorEnabled, this`currentVelocity
      ensures CurrentDrive() == UpdateDrive(currentPosition, desiredPosition, decelX, acceleration,
                                            minVelocity, maxVelocity, old(CurrentDrive()))
      ensures old(VelocityInBounds()) && 0 <= acceleration ==> VelocityInBounds()
    {
      if currentPosition < desiredPosition {
        if !motorEnabled {
          motorDir := Right;
          motorEnabled := true;
        }
        if motorDir == Right && desiredPosition - currentPosition > decelX {
          currentVelocity := Min(maxVelocity, currentVelocity + acceleration);
        } else {
          currentVelocity := Max(minVelocity, currentVelocity - acceleration);
        }
      } else if currentPosition > desiredPosition {
        if !motorEnabled {
          motorDir := Left;
          motorEnabled := true;
        }
        if motorDir == Left && currentPosition - desiredPosition > decelX {
          currentVelocity := Min(maxVelocity, currentVelocity + acceleration);
        } else {
          currentVelocity := Max(minVelocity, currentVelocity - acceleration);
        }
      } else if motorEnabled {
        currentVelocity := Max(minVelocity, currentVelocity - acceleration);
      }
    }

    /**
     * handleMotorInterrupt(): on the leading edge of an enabled motor, count
     * one step in the motor's direction, and stop (at minimum velocity) if
     * already at minimum velocity or if the target is reached below ten
     * times the minimum velocity. The waveform phase always flips.
     */
    method HandleMotorInterrupt()
      modifies this`currentPosition, this`motorEnabled, this`currentVelocity, this`outstate
      ensures outstate == !old(outstate) & 1
      ensures old(outstate) <= 1 ==> outstate == 1 - old(outstate)
      ensures old(outstate) == 1 && old(motorEnabled) ==>
                currentPosition == old(currentPosition) + (if motorDir == Right then 1 else -1)
                && var stop := old(currentVelocity) == minVelocity
                               || (currentPosition == desiredPosition && old(currentVelocity) < 10 * minVelocity);
                   motorEnabled == !stop
                   && currentVelocity == (if stop then minVelocity else old(currentVelocity))
      ensures !(old(outstate) == 1 && old(motorEnabled)) ==>
                currentPosition == old(currentPosition) && motorEnabled == old(motorEnabled)
                && currentVelocity == old(currentVelocity)
      ensures old(VelocityInBounds()) ==> VelocityInBounds()
    {
      if outstate == 1 {
        if motorEnabled {
          if motorDir == Right {
            currentPosition := currentPosition + 1;
          } else {
            currentPosition := currentPosition - 1;
          }
          if currentVelocity == minVelocity
             || (currentPosition == desiredPosition && currentVelocity < 10 * minVelocity) {
            motorEnabled := false;
            currentVelocity := minVelocity;
          }
        }
      }
      outstate := !outstate & 1;
    }
  }

  /** Microsteps from the centre to either end of the tail's travel. */
  const HalfTravel := 31000

  /**
   * TailPositioner: homes the tail by driving it toward one end until the
   * reed switch closes, then sets the position of that end and heads for
   * the centre.
   */
  class TailPositioner {
    const motor: StepperMotor
    var seekRight: bool
    var seekLeft: bool

    /** The positioner keeps its own copy of the motor it is given. */
    constructor (themotor: StepperMotor)
      ensures fresh(motor) && !seekRight && !seekLeft
      ensures motor.currentPosition == themotor.currentPosition
      ensures motor.desiredPosition == themotor.desiredPosition
      ensures motor.CurrentDrive() == themotor.CurrentDrive()
    {
      motor := new StepperMotor.Copy(themotor);
      seekRight := false;
      seekLeft := false;
    }

    /** orient(direction): start seeking right (direction 1) or left (0). */
    method Orient(direction: bool)
      modifies this, motor`currentPosition, motor`desiredPosition
      ensures motor.currentPosition == 0
      ensures motor.desiredPosition == if direction then 2 * HalfTravel else -2 * HalfTravel
      ensures seekRight == (old(seekRight) || direction)
      ensures seekLeft == (old(seekLeft) || !direction)
    {
      if direction {
        motor.SetCurrentPosition(0);
        motor.SetDesiredPosition(62000);
        seekRight := true;
      } else {
        motor.SetCurrentPosition(0);
        motor.SetDesiredPosition(-62000);
        seekLeft := true;
      }
    }

    /**
     * update(): `reedSwitchHigh` is the debounced reed-switch state. When it
     * is LOW, each active seek ends at its end of travel (left last) and the
     * motor heads for the centre; otherwise nothing changes.
     */
    method Update(reedSwitchHigh: bool)
      modifies this, motor`currentPosition, motor`desiredPosition
      ensures reedSwitchHigh ==>
                seekRight == old(seekRight) && seekLeft == old(seekLeft)
                && motor.currentPosition == old(motor.currentPosition)
                && motor.desiredPosition == old(motor.desiredPosition)
      ensures !reedSwitchHigh ==> !seekRight && !seekLeft
      ensures !reedSwitchHigh && old(seekLeft) ==>
                motor.currentPosition == -HalfTravel && motor.desiredPosition == 0
      ensures !reedSwitchHigh && old(seekRight) && !old(seekLeft) ==>
                motor.currentPosition == HalfTravel && motor.desiredPosition == 0
      ensures !old(seekRight) && !old(seekLeft) ==>
                motor.currentPosition == old(motor.currentPosition)
                && motor.desiredPosition == old(motor.desiredPosition)
    {
      if seekRight {
        if !reedSwitchHigh {
          motor.SetCurrentPosition(31000);
          motor.SetDesiredPosition(0);
          seekRight := false;
        }
      }
      if seekLeft {
        if !reedSwitchHigh {
          motor.SetCurrentPosition(-31000);
          motor.SetDesiredPosition(0);
          seekLeft := false;
        }
      }
    }
  }
}
