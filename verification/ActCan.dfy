/**
 Task side of the ACT command channel (ACT/ActCan.c): the watchdog that runs ten
 times per main-loop pass, applies the latest command and forces a stop on silence.
 */
module ActCan {
  import opened Bytes
  import opened ActCanRx
  import opened ActCpu
  import opened Motor
  import opened Servo

  const TURN_INNER_DUTY := 30
  const TURN_OUTER_DUTY := 100

  /** The command asks for motion and nothing forbids it. */
  predicate Moves(c: Command) {
    && c.safety == SAFETY_NORMAL && c.mode == MODE_REMOTE
    && c.brake == 0 && c.accel == 1 && (c.gear == GEAR_D || c.gear == GEAR_R)
  }

  /** The motor state a command leads to. */
  function Drive(c: Command): MotorState {
    if !Moves(c) then Stop else if c.gear == GEAR_D then Forward else Reverse
  }

  predicate Inhibited(c: Command) { c.safety == SAFETY_FORCE_STOP || c.mode != MODE_REMOTE }

  function SteeringKeyOf(c: Command): Key {
    if Inhibited(c) then Null
    else if c.steering == STEERING_LEFT then Left
    else if c.steering == STEERING_RIGHT then Right
    else Null
  }

  /** Wheel duties: 90 each when going straight, the inner wheel slower in a turn. */
  function Duties(key: Key): (nat, nat) {
    match key
    case Left => (TURN_INNER_DUTY, TURN_OUTER_DUTY)
    case Right => (TURN_OUTER_DUTY, TURN_INNER_DUTY)
    case Null => (BASE_DUTY, BASE_DUTY)
  }

  /** One of the three combinations of wheel duties that driving uses. */
  predicate DrivingDuties(left: nat, right: nat) {
    (left, right) == Duties(Null) || (left, right) == Duties(Left) || (left, right) == Duties(Right)
  }

  /** What a command makes of microsecond i of a motor cycle, byte by byte: the right wheel on channel A, the left
      one on channel B, the inner one of a turn for 300 us and the outer one throughout. */
  lemma CommandToCycle(c: Command, p: Pins, authority: Authority, i: nat)
    requires i < PWM_PERIOD_US
    ensures var moves := c.safety == 0 && c.mode == 1 && c.brake == 0 && c.accel == 1 && (c.gear == 3 || c.gear == 1);
            var (left, right) := Duties(SteeringKeyOf(c));
            var pins := CycleTrace(p, authority, Drive(c), left, right)[i].pins;
            && (pins.pwmA <==> moves && i < if c.steering == 1 then 1000 else if c.steering == 2 then 300 else 900)
            && (pins.pwmB <==> moves && i < if c.steering == 1 then 300 else if c.steering == 2 then 1000 else 900)
            && (pins.brake <==> !moves)
            && (moves ==> (pins.dirA <==> c.gear == 3) && (pins.dirB <==> c.gear == 1))
  {
    var (left, right) := Duties(SteeringKeyOf(c));
    CycleShape(p, authority, Drive(c), left, right);
  }

  /** A command in remote mode steers to its side; any other steers straight on. */
  lemma CommandToPulse(c: Command)
    ensures var turns := c.safety != 1 && c.mode == 1;
            KeyPulse(SteeringKeyOf(c)) == if turns && c.steering == 1 then 900 else if turns && c.steering == 2 then 1500 else 1200
  {
  }

  class ActCan {
    const steering: Steering
    const motor: MotorDrive := steering.motor

    var curAccel: byte
    var curBrake: byte
    var curGear: byte
    var curMode: byte
    var curSafety: byte
    var timeoutCount: nat

    // The accepted command that was applied last.
    ghost var applied: Option<Accepted>

    function Mailbox(): RxMailbox
    {
      motor.cpu.mailbox
    }

    /** The command applied last is the one that was taken from the mailbox last. */
    ghost predicate Linked()
      reads `applied, motor.cpu.mailbox`accepted, motor.cpu.mailbox`taken
    {
      var rx := motor.cpu.mailbox;
      && rx.taken <= |rx.accepted|
      && applied == if rx.taken == 0 then None else Some(rx.accepted[rx.taken - 1])
    }

    /** Commands that arrive later do not disturb the link. */
    twostate lemma StaysLinked()
      requires old(Linked()) && applied == old(applied)
      requires motor.cpu.mailbox.taken == old(motor.cpu.mailbox.taken)
      requires old(motor.cpu.mailbox.accepted) <= motor.cpu.mailbox.accepted
      ensures Linked()
    {
    }

    constructor (steering: Steering)
      requires steering.motor.Valid() && steering.motor.cpu.mailbox.taken == 0
      modifies steering.motor`state, steering.motor`duty, steering.motor`left, steering.motor`right
      modifies steering.motor.cpu`pins
      modifies steering`key, steering`position, steering`pulseUs
      ensures this.steering == steering && motor.Valid() && Linked() && applied == None && timeoutCount == 0
      ensures curAccel == 0 && curBrake == 0 && curGear == GEAR_P && curMode == MODE_STANDBY && curSafety == SAFETY_NORMAL
      ensures motor.state == Stop && motor.duty == motor.left == motor.right == BASE_DUTY && steering.key == Null
      ensures steering.motor.cpu.pins == old(steering.motor.cpu.pins).(pwmA := false, pwmB := false, brake := false)
    {
      this.steering := steering;
      curAccel, curBrake, curGear, curMode, curSafety := 0, 0, GEAR_P, MODE_STANDBY, SAFETY_NORMAL;
      timeoutCount, applied := 0, None;
      new;
      motor.SetDutyPercent(BASE_DUTY);
      motor.Coast();
      steering.Center();
    }

    method ApplySteering(raw: byte)
      modifies motor`duty, motor`left, motor`right, steering`key, steering`position, steering`pulseUs
      ensures steering.key == if raw == STEERING_LEFT then Left else if raw == STEERING_RIGHT then Right else Null
      ensures (motor.left, motor.right) == Duties(steering.key)
      ensures motor.duty == if steering.key == Null then BASE_DUTY else old(motor.duty)
    {
      if raw == STEERING_LEFT {
        steering.SetKey(Left);
        motor.SetWheelDutyPercent(TURN_INNER_DUTY, TURN_OUTER_DUTY);
      } else if raw == STEERING_RIGHT {
        steering.SetKey(Right);
        motor.SetWheelDutyPercent(TURN_OUTER_DUTY, TURN_INNER_DUTY);
      } else {
        steering.SetKey(Null);
        motor.SetDutyPercent(BASE_DUTY);
      }
    }

    /** The brake wins over the accelerator, and only gears D and R move the car. */
    method ApplyDrive(accel: byte, brake: byte, gear: byte)
      modifies `curAccel, `curBrake, `curGear, motor`state, motor.cpu`pins
      ensures curAccel == accel && curBrake == brake && curGear == gear
      ensures motor.state == if brake == 1 || accel == 0 then Stop
                             else if gear == GEAR_D then Forward
                             else if gear == GEAR_R then Reverse else Stop
      ensures motor.state != Stop ==> motor.cpu.pins == old(motor.cpu.pins)
      ensures motor.state == Stop ==>
                motor.cpu.pins == old(motor.cpu.pins).(pwmA := false, pwmB := false, brake := brake == 1)
    {
      curAccel, curBrake, curGear := accel, brake, gear;
      if brake == 1 {
        motor.Brake();
        return;
      }
      if accel == 0 {
        motor.Coast();
        return;
      }
      if gear == GEAR_D {
        motor.Forward();
      } else if gear == GEAR_R {
        motor.Reverse();
      } else {
        motor.Coast();
      }
    }

    method EnterSafeState()
      modifies `curAccel, `curBrake, `curGear, `curMode, `curSafety
      modifies motor`state, motor`duty, motor`left, motor`right, motor.cpu`pins
      modifies steering`key, steering`position, steering`pulseUs
      ensures StandsStill() && motor.cpu.pins == old(motor.cpu.pins).(pwmA := false, pwmB := false, brake := true)
      ensures ReportsStop()
    {
      curAccel, curBrake, curGear, curMode, curSafety := 0, 1, GEAR_P, MODE_STANDBY, SAFETY_FORCE_STOP;
      motor.Brake();
      motor.SetDutyPercent(BASE_DUTY);
      steering.Center();
    }

    method EnterModeInhibitState(mode: byte)
      modifies `curAccel, `curBrake, `curGear, `curMode, `curSafety
      modifies motor`state, motor`duty, motor`left, motor`right, motor.cpu`pins
      modifies steering`key, steering`position, steering`pulseUs
      ensures StandsStill() && motor.cpu.pins == old(motor.cpu.pins).(pwmA := false, pwmB := false, brake := true)
      ensures curAccel == 0 && curBrake == 0 && curGear == GEAR_P
      ensures curMode == mode && curSafety == SAFETY_NORMAL
    {
      curAccel, curBrake, curGear, curMode, curSafety := 0, 0, GEAR_P, mode, SAFETY_NORMAL;
      motor.Brake();
      motor.SetDutyPercent(BASE_DUTY);
      steering.Center();
    }

    ghost predicate StandsStill()
      reads motor, steering, motor.cpu
    {
      && motor.state == Stop && motor.duty == motor.left == motor.right == BASE_DUTY
      && steering.key == Null && steering.pulseUs == MIDDLE_US
      && !motor.cpu.pins.pwmA && !motor.cpu.pins.pwmB && motor.cpu.pins.brake
    }

    /** What is reported of a command: a forced stop as the brake, another mode as standing still, and a command in
        remote mode as it is. */
    ghost predicate Reports(c: Command)
      reads this
    {
      && curSafety == c.safety
      && if c.safety == SAFETY_FORCE_STOP then ReportsStop()
         else if c.mode != MODE_REMOTE then curAccel == 0 && curBrake == 0 && curGear == GEAR_P && curMode == c.mode
         else curAccel == c.accel && curBrake == c.brake && curGear == c.gear && curMode == c.mode
    }

    ghost predicate ReportsStop()
      reads this
    {
      curAccel == 0 && curBrake == 1 && curGear == GEAR_P && curMode == MODE_STANDBY && curSafety == SAFETY_FORCE_STOP
    }

    /** What applying one command does to the actuators; duty is the base duty before. */
    ghost predicate Effect(c: Command, duty: nat)
      reads this, motor, steering, motor.cpu
    {
      && motor.state == Drive(c)
      && steering.key == SteeringKeyOf(c)
      && (motor.left, motor.right) == Duties(steering.key)
      && motor.duty == (if steering.key == Null then BASE_DUTY else duty)
      && (Inhibited(c) ==> StandsStill())
      && (motor.state == Stop ==> !motor.cpu.pins.pwmA && !motor.cpu.pins.pwmB)
      && (motor.state == Stop ==> (motor.cpu.pins.brake <==> Inhibited(c) || c.brake == 1))
      && Reports(c)
    }

    method ApplyCommand(c: Command)
      requires ValidCommand(c)
      modifies `curAccel, `curBrake, `curGear, `curMode, `curSafety
      modifies motor`state, motor`duty, motor`left, motor`right, motor.cpu`pins
      modifies steering`key, steering`position, steering`pulseUs
      ensures Effect(c, old(motor.duty))
      ensures motor.state != Stop ==> motor.cpu.pins == old(motor.cpu.pins)
    {
      curMode, curSafety := c.mode, c.safety;
      if c.safety == SAFETY_FORCE_STOP {
        EnterSafeState();
        return;
      }
      if c.mode != MODE_REMOTE {
        EnterModeInhibitState(c.mode);
        return;
      }
      ApplySteering(c.steering);
      ApplyDrive(c.accel, c.brake, c.gear);
    }

    /** The first call after the limit is counted; every one of them stops the car. */
    method OnTimeout()
      modifies `curAccel, `curBrake, `curGear, `curMode, `curSafety, `timeoutCount, Mailbox()`enteredByTimeout
      modifies motor`state, motor`duty, motor`left, motor`right, motor.cpu`pins
      modifies steering`key, steering`position, steering`pulseUs
      ensures StandsStill() && ReportsStop()
      ensures timeoutCount == old(timeoutCount) + (if old(Mailbox().enteredByTimeout) then 0 else 1)
      ensures Mailbox().enteredByTimeout
    {
      if !Mailbox().enteredByTimeout {
        timeoutCount := timeoutCount + 1;
        Mailbox().enteredByTimeout := true;
      }
      EnterSafeState();
    }

    /** Stop when time has run out, otherwise carry out the command, if there is one. */
    method Act(expired: bool, command: Option<Command>)
      requires command.Some? ==> ValidCommand(command.value)
      modifies `curAccel, `curBrake, `curGear, `curMode, `curSafety, `timeoutCount, Mailbox()`enteredByTimeout
      modifies motor`state, motor`duty, motor`left, motor`right, motor.cpu`pins
      modifies steering`key, steering`position, steering`pulseUs
      ensures timeoutCount == old(timeoutCount) + if expired && !old(Mailbox().enteredByTimeout) then 1 else 0
      ensures expired ==> StandsStill() && ReportsStop()
      ensures !expired && command.Some? ==> Effect(command.value, old(motor.duty))
      ensures !expired && command.None? ==> Untouched()
      ensures motor.duty in {BASE_DUTY, old(motor.duty)}
      ensures (motor.left == old(motor.left) && motor.right == old(motor.right)) || DrivingDuties(motor.left, motor.right)
      ensures old(!motor.cpu.pins.pwmA && !motor.cpu.pins.pwmB) ==> !motor.cpu.pins.pwmA && !motor.cpu.pins.pwmB
    {
      if expired {
        OnTimeout();
      } else if command.Some? {
        ApplyCommand(command.value);
      }
    }

    twostate predicate Untouched()
      reads this, motor, steering, motor.cpu
    {
      && curAccel == old(curAccel) && curBrake == old(curBrake) && curGear == old(curGear)
      && curMode == old(curMode) && curSafety == old(curSafety)
      && motor.state == old(motor.state) && motor.duty == old(motor.duty)
      && motor.left == old(motor.left) && motor.right == old(motor.right)
      && motor.cpu.pins == old(motor.cpu.pins) && steering.key == old(steering.key)
    }

    /** One watchdog call: stop when 2000 calls have gone by since the last accepted command,
        otherwise apply that command if it is new. */
    method Update100us()
      requires Mailbox().Valid(motor.cpu.now) && Linked()
      modifies this, Mailbox()`tick, Mailbox()`updated, Mailbox()`callTimes, Mailbox()`taken
      modifies Mailbox()`enteredByTimeout, motor`state, motor`duty, motor`left, motor`right, motor.cpu`pins
      modifies steering`key, steering`position, steering`pulseUs
      ensures Mailbox().Valid(motor.cpu.now) && Linked()
      ensures !Mailbox().updated && Mailbox().taken == |Mailbox().accepted|
      ensures Mailbox().callTimes == old(Mailbox().callTimes) + [motor.cpu.now]
      ensures timeoutCount == old(timeoutCount)
                              + if Mailbox().Expired() && !old(Mailbox().enteredByTimeout) then 1 else 0
      ensures Mailbox().Expired() ==>
                StandsStill() && applied == old(applied) && ReportsStop()
      ensures !Mailbox().Expired() && old(Mailbox().updated) ==> Effect(Mailbox().Last().cmd, old(motor.duty))
      ensures !Mailbox().Expired() && !old(Mailbox().updated) ==> Untouched()
      ensures motor.duty in {BASE_DUTY, old(motor.duty)}
      ensures (motor.left == old(motor.left) && motor.right == old(motor.right)) || DrivingDuties(motor.left, motor.right)
      ensures old(!motor.cpu.pins.pwmA && !motor.cpu.pins.pwmB) ==> !motor.cpu.pins.pwmA && !motor.cpu.pins.pwmB
    {
      hide DrivingDuties, Inhibited, Drive;
      var expired, command := Mailbox().CountTickAndTake(motor.cpu.now);
      if !expired && command.Some? {
        applied := Some(Mailbox().Last());
      }
      Act(expired, command);
    }
  }
}
