/**
 Diagnostics task of the ACT ECU (ACT/UdsDiag.c), called once per main-loop pass.
 It may take the actuators over for a routine, and it monitors two faults.
 */
module UdsDiag {
  import opened Bytes
  import opened ActCanRx
  import opened ActCpu
  import opened DtcMonitors
  import opened EncoderDriver
  import opened Motor
  import opened Sequences
  import opened Servo
  import opened SingleFrame
  import opened UdsReader
  import opened UdsResults
  import opened UdsService
  import opened UdsSlot
  import opened UdsTester
  import opened UdsTransport
  import DtcRule

  const TEST_DUTY := 30

  /** The 16-bit word that a reader of two's complement takes for the angle. */
  function AngleWord(angle: int): (word: nat)
    requires -45 <= angle <= 45
    ensures word < 0x1_0000 && angle == if word < 0x8000 then word else word - 0x1_0000
  {
    if angle < 0 then angle + 0x1_0000 else angle
  }

  function ClampAngle(angle: int): (r: int)
    ensures -45 <= r <= 45 && (-45 <= angle <= 45 ==> r == angle)
    ensures (angle < -45 ==> r == -45) && (angle > 45 ==> r == 45)
  {
    if angle < -45 then -45 else if angle > 45 then 45 else angle
  }

  function TargetAngle(key: Key): int {
    match key case Left => -35 case Right => 35 case Null => 0
  }

  /** The request in a frame taken out of the slot. */
  function Input(r: Option<Received>): (request: Option<seq<byte>>)
    ensures request.Some? ==> 1 <= |request.value| <= 7
  {
    if r.Some? && |r.value.data| == 8 then ParseRequest(r.value.data) else None
  }

  function Inputs(log: seq<Option<Received>>): (r: seq<Option<seq<byte>>>)
    ensures |r| == |log| && forall i :: 0 <= i < |r| ==> r[i] == Input(log[i])
  {
    seq(|log|, i requires 0 <= i < |log| => Input(log[i]))
  }

  const AtPowerOn := Control(SESSION_DEFAULT, NoRoutine, 0, 0)

  /** The diagnostic state after calls that have taken these frames out of the slot. */
  function StateAfter(log: seq<Option<Received>>): Control { After(AtPowerOn, Inputs(log)) }

  lemma StateStep(log: seq<Option<Received>>, r: Option<Received>)
    ensures StateAfter(log + [r]) == Call(StateAfter(log), Input(r)).0
  {
    assert Inputs(log + [r])[..|log|] == Inputs(log);
  }

  class UdsDiag {
    const steering: Steering
    const motor: MotorDrive := steering.motor
    const bus: Transmitter
    const monitors: Monitors
    // The potentiometer angle at each call, and the speed word for a pulse rate.
    const angleAt: nat -> int
    const speedWord: nat -> nat

    var session: byte
    var routine: Routine
    var timerMs: nat
    var step: nat
    var savedDuty: nat
    var calls: nat
    // For every call the frame it took out of the slot.
    ghost var log: seq<Option<Received>>

    ghost predicate StateValid()
      reads `session, `routine, `timerMs, `step
    {
      WellFormed(ControlState())
    }

    /** The state follows from the frames taken. */
    ghost predicate LogValid()
      reads `session, `routine, `timerMs, `step, `calls, `log
    {
      calls == |log| && ControlState() == StateAfter(log)
    }

    ghost predicate Valid()
      reads `session, `routine, `timerMs, `step, `calls, `log
      reads bus, monitors, monitors.encoder, monitors.steering
    {
      StateValid() && LogValid() && bus.Valid() && monitors.Valid()
    }

    function ControlState(): Control
      reads `session, `routine, `timerMs, `step
    {
      Control(session, routine, timerMs, step)
    }

    function CurrentView(): (v: View)
      reads `calls, motor.cpu.encoder`pulsesPerSecond, monitors.encoder`status, monitors.steering`status
      ensures ValidView(v)
    {
      View(monitors.encoder.status as int, monitors.steering.status as int,
           speedWord(motor.cpu.encoder.pulsesPerSecond) % 0x1_0000, AngleWord(ClampAngle(angleAt(calls))))
    }

    constructor (steering: Steering, bus: Transmitter, monitors: Monitors, angleAt: nat -> int, speedWord: nat -> nat)
      requires bus.Valid() && monitors.Valid()
      ensures this.steering == steering && this.bus == bus && this.monitors == monitors && Valid()
      ensures routine == NoRoutine && log == [] && this.angleAt == angleAt && this.speedWord == speedWord
    {
      this.steering, this.bus, this.monitors := steering, bus, monitors;
      this.angleAt, this.speedWord := angleAt, speedWord;
      session, routine, timerMs, step, savedDuty := SESSION_DEFAULT, NoRoutine, 0, 0, BASE_DUTY;
      calls, log := 0, [];
    }

    method StartMotorRoutine()
      requires motor.cpu.encoder.Valid()
      modifies `routine, `timerMs, `step, `savedDuty, motor`duty, motor`left, motor`right, motor.cpu.encoder
      ensures ControlState() == old(ControlState()).(routine := MotorTest, timer := 0, step := 0)
      ensures savedDuty == old(motor.duty) && motor.duty == motor.left == motor.right == TEST_DUTY
      ensures motor.cpu.encoder.Valid() && EncoderRestarted()
    {
      routine, timerMs, step := MotorTest, 0, 0;
      savedDuty := motor.duty;
      motor.cpu.encoder.ResetCount();
      motor.SetDutyPercent(TEST_DUTY);
    }

    /** The encoder counts from the last sample on, and has not been sampled since. */
    twostate predicate EncoderRestarted()
      reads motor.cpu.encoder
    {
      var e := motor.cpu.encoder;
      && e.polledAt == old(e.polledAt) && e.longestGap == old(e.longestGap)
      && e.resetAt == e.polledAt && e.count == 0 && e.pulsesPerSecond == 0 && e.updates == old(e.updates)
    }

    method StartServoRoutine()
      modifies `routine, `timerMs, `step, steering`key, steering`position, steering`pulseUs
      ensures ControlState() == old(ControlState()).(routine := ServoTest, timer := 0, step := 0)
      ensures steering.key == Left
    {
      routine, timerMs, step := ServoTest, 0, 0;
      steering.SetKey(Left);
    }

    /** A request that is answered at once: clear the codes or switch the session, and respond. */
    method Respond(uds: seq<byte>, answer: seq<byte>)
      requires 1 <= |answer| <= 11 && bus.Valid() && monitors.Valid()
      modifies `session, bus
      modifies monitors.encoder`status, monitors.encoder`failCount, monitors.encoder`history, monitors.encoder`cleared
      modifies monitors.steering`status, monitors.steering`failCount, monitors.steering`history, monitors.steering`cleared
      ensures bus.Valid() && monitors.Valid() && session == NewSession(old(ControlState()), uds)
      ensures bus.offered == old(bus.offered) + [ResponseFrame(answer)]
      ensures monitors.encoder.cleared == (old(monitors.encoder.cleared) || ClearsDtc(uds))
      ensures monitors.steering.cleared == (old(monitors.steering.cleared) || ClearsDtc(uds))
    {
      if ClearsDtc(uds) {
        monitors.ClearStored();
      }
      session := NewSession(ControlState(), uds);
      bus.SendSingleFrame(answer);
    }

    /** Start the routine that is asked for. */
    method StartRoutine(uds: seq<byte>)
      requires Requested(ControlState(), uds) != NoRoutine && motor.cpu.encoder.Valid()
      modifies `routine, `timerMs, `step, `savedDuty, motor`duty, motor`left, motor`right, motor.cpu.encoder
      modifies steering`key, steering`position, steering`pulseUs
      ensures ControlState() == Accept(old(ControlState()), uds) && motor.cpu.encoder.Valid()
      ensures StartEffect(Requested(old(ControlState()), uds))
    {
      if uds[3] == 0x00 {
        StartMotorRoutine();
      } else {
        StartServoRoutine();
      }
    }

    /** What the start of a routine does besides setting the routine state. */
    twostate predicate StartEffect(r: Routine)
      reads `savedDuty, motor`duty, motor`left, motor`right, motor.cpu.encoder, steering`key
    {
      && (r == MotorTest ==>
            && savedDuty == old(motor.duty) && motor.duty == motor.left == motor.right == TEST_DUTY && EncoderRestarted())
      && (r != MotorTest ==>
            && savedDuty == old(savedDuty) && motor.duty == old(motor.duty)
            && motor.left == old(motor.left) && motor.right == old(motor.right) && unchanged(motor.cpu.encoder))
      && steering.key == (if r == ServoTest then Left else old(steering.key))
    }

    /** Carry out one dispatched request: either it is answered now, or it starts a routine. */
    method Carry(uds: seq<byte>, answer: Option<seq<byte>>)
      requires bus.Valid() && monitors.Valid() && motor.cpu.encoder.Valid()
      requires answer.None? <==> Requested(ControlState(), uds) != NoRoutine
      requires answer.Some? ==> 1 <= |answer.value| <= 11
      modifies `session, `routine, `timerMs, `step, `savedDuty, bus, motor`duty, motor`left, motor`right
      modifies motor.cpu.encoder, steering`key, steering`position, steering`pulseUs
      modifies monitors.encoder`status, monitors.encoder`failCount, monitors.encoder`history, monitors.encoder`cleared
      modifies monitors.steering`status, monitors.steering`failCount, monitors.steering`history, monitors.steering`cleared
      ensures bus.Valid() && monitors.Valid() && motor.cpu.encoder.Valid()
      ensures ControlState() == Accept(old(ControlState()), uds)
      ensures StartEffect(Requested(old(ControlState()), uds))
      ensures bus.offered == old(bus.offered) + Responses(answer)
      ensures monitors.encoder.cleared == (old(monitors.encoder.cleared) || ClearsDtc(uds))
      ensures monitors.steering.cleared == (old(monitors.steering.cleared) || ClearsDtc(uds))
    {
      if answer.Some? {
        Respond(uds, answer.value);
      } else {
        StartRoutine(uds);
      }
    }

    /** Dispatch the data of a request frame if it is a well-formed single frame. */
    method ProcessRequest(data: seq<byte>)
      requires |data| == 8 && bus.Valid() && monitors.Valid() && motor.cpu.encoder.Valid()
      modifies `session, `routine, `timerMs, `step, `savedDuty, bus, motor`duty, motor`left, motor`right
      modifies motor.cpu.encoder, steering`key, steering`position, steering`pulseUs
      modifies monitors.encoder`status, monitors.encoder`failCount, monitors.encoder`history, monitors.encoder`cleared
      modifies monitors.steering`status, monitors.steering`failCount, monitors.steering`history, monitors.steering`cleared
      ensures bus.Valid() && monitors.Valid() && motor.cpu.encoder.Valid()
      ensures ControlState() == AfterRequest(old(ControlState()), ParseRequest(data))
      ensures StartEffect(RequestedBy(old(ControlState()), ParseRequest(data)))
      ensures bus.offered == old(bus.offered) + Responses(old(AnswerTo(ParseRequest(data))))
      ensures monitors.encoder.cleared == (old(monitors.encoder.cleared) || Clears(ParseRequest(data)))
      ensures monitors.steering.cleared == (old(monitors.steering.cleared) || Clears(ParseRequest(data)))
    {
      var request := Parse(data);
      if request.Some? {
        Carry(request.value, Answer(ControlState(), request.value, CurrentView()));
      }
    }

    /** The response to a request in the current state. */
    function AnswerTo(request: Option<seq<byte>>): (r: Option<seq<byte>>)
      requires request.Some? ==> |request.value| > 0
      reads `session, `routine, `timerMs, `step, `calls
      reads motor.cpu.encoder`pulsesPerSecond, monitors.encoder`status, monitors.steering`status
      ensures r.Some? ==> 1 <= |r.value| <= 11
    {
      Answered(ControlState(), Turn(request, CurrentView()))
    }

    /** Take the UDS bytes out of a single frame. */
    static method Parse(data: seq<byte>) returns (request: Option<seq<byte>>)
      requires |data| == 8
      ensures request == ParseRequest(data)
    {
      if data[0] / 16 != 0 {
        return None;
      }
      var len := data[0] % 16;
      if len == 0 || len > 7 {
        return None;
      }
      var uds: seq<byte> := [];
      for i := 0 to len
        invariant uds == data[1..1 + i]
      {
        uds := uds + [data[i + 1]];
      }
      return Some(uds);
    }

    /** PWM 30 % forward for 1000 calls, then stop, restore the duty and report. */
    method UpdateMotorRoutine()
      requires routine == MotorTest && timerMs < MOTOR_TEST_CALLS && bus.Valid()
      modifies `routine, `timerMs, `step, bus, motor`state, motor`duty, motor`left, motor`right, motor.cpu`pins
      ensures bus.Valid() && ControlState() == Advance(old(ControlState())).0
      ensures bus.offered == old(bus.offered) + ResultFrames(Advance(old(ControlState())).1)
      ensures MotorRoutineEffect()
    {
      timerMs := timerMs + 1;
      motor.SetDutyPercent(TEST_DUTY);
      motor.Forward();
      if timerMs >= MOTOR_TEST_CALLS {
        motor.Brake();
        motor.SetDutyPercent(savedDuty);
        bus.SendSingleFrame(ResultResponse(MotorTest));
        routine, timerMs, step := NoRoutine, 0, 0;
      }
    }

    twostate predicate MotorRoutineEffect()
      reads `routine, `savedDuty, motor, motor.cpu`pins
    {
      if routine == MotorTest
      then motor.state == Forward && motor.duty == motor.left == motor.right == TEST_DUTY
           && motor.cpu.pins == old(motor.cpu.pins)
      else motor.state == Stop && motor.duty == motor.left == motor.right == LimitDuty(savedDuty)
           && motor.cpu.pins == old(motor.cpu.pins).(pwmA := false, pwmB := false, brake := true)
    }

    /** Left, centre, right for 800 calls each; centre again when done. */
    method UpdateServoRoutine()
      requires routine == ServoTest && timerMs < SERVO_STEP_CALLS && step < SERVO_STEPS && bus.Valid()
      modifies `routine, `timerMs, `step, bus, steering`key, steering`position, steering`pulseUs
      ensures bus.Valid() && ControlState() == Advance(old(ControlState())).0
      ensures bus.offered == old(bus.offered) + ResultFrames(Advance(old(ControlState())).1)
      ensures steering.key == if routine != ServoTest then Null
                              else if old(step) == 0 then Left else if old(step) == 1 then Null else Right
    {
      timerMs := timerMs + 1;
      steering.SetKey(if step == 0 then Left else if step == 1 then Null else Right);
      if timerMs < SERVO_STEP_CALLS {
        return;
      }
      timerMs := 0;
      step := step + 1;
      if step >= SERVO_STEPS {
        steering.SetKey(Null);
        bus.SendSingleFrame(ResultResponse(ServoTest));
        routine, timerMs, step := NoRoutine, 0, 0;
      }
    }

    /** What one call does to the drive, when r is the routine after the request. */
    twostate predicate DriveEffect(r: Routine)
      reads `routine, `savedDuty, motor, motor.cpu`pins
    {
      if r == MotorTest then MotorRoutineEffect()
      else motor.state == old(motor.state) && motor.duty == old(motor.duty)
           && motor.left == old(motor.left) && motor.right == old(motor.right)
           && motor.cpu.pins == old(motor.cpu.pins)
    }

    /** What one call does to the steering, when c is the state after the request: the servo test goes left,
        centre and right, and centres when it ends. */
    twostate predicate SteeringEffect(c: Control)
      reads `routine, steering`key
    {
      steering.key == if c.routine != ServoTest then old(steering.key)
                      else if routine != ServoTest then Null
                      else if c.step == 0 then Left else if c.step == 1 then Null else Right
    }

    /** Without a routine the steering stays as it was. */
    twostate predicate SteeringKept()
      reads `routine, steering`key
    {
      old(routine) == NoRoutine && routine == NoRoutine ==> steering.key == old(steering.key)
    }

    /** One millisecond of the running routine, if there is one. */
    method UpdateRoutine()
      requires StateValid() && bus.Valid()
      modifies `routine, `timerMs, `step, bus, motor`state, motor`duty, motor`left, motor`right, motor.cpu`pins
      modifies steering`key, steering`position, steering`pulseUs
      ensures StateValid() && bus.Valid() && DriveEffect(old(routine))
      ensures ControlState() == Advance(old(ControlState())).0
      ensures bus.offered == old(bus.offered) + ResultFrames(Advance(old(ControlState())).1)
      ensures SteeringEffect(old(ControlState()))
    {
      match routine {
        case MotorTest => UpdateMotorRoutine();
        case ServoTest => UpdateServoRoutine();
        case NoRoutine =>
      }
    }

    predicate NoSignal()
      reads motor`state, motor.cpu.encoder`pulsesPerSecond
    {
      motor.state != Stop && motor.cpu.encoder.pulsesPerSecond == 0
    }

    /** The angle is more than 10 degrees off -35, 35 or 0.  Angles beyond 45 degrees count as 45, so that the outer
        end of a turn is no mismatch however far it goes. */
    predicate Mismatch(call: nat)
      reads steering`key
    {
      match steering.key
      case Left => angleAt(call) > -25
      case Right => angleAt(call) < 25
      case Null => angleAt(call) < -10 || angleAt(call) > 10
    }

    /** Encoder silent while the motor runs; steering angle more than 10 degrees off its target. */
    method UpdateDtcMonitor()
      requires monitors.Valid()
      modifies monitors, monitors.encoder, monitors.steering
      ensures monitors.Valid() && !monitors.encoder.cleared && !monitors.steering.cleared
      ensures monitors.encoder.inputs
              == old(monitors.encoder.inputs) + [DtcRule.Input(NoSignal(), old(monitors.encoder.cleared))]
      ensures monitors.steering.inputs
              == old(monitors.steering.inputs) + [DtcRule.Input(Mismatch(calls), old(monitors.steering.cleared))]
    {
      var noSignal := motor.state != Stop && motor.cpu.encoder.pulsesPerSecond == 0;
      var diff := TargetAngle(steering.key) - ClampAngle(angleAt(calls));
      if diff < 0 {
        diff := -diff;
      }
      monitors.Observe(noSignal, diff > 10);
    }

    /** The frame in the slot that has not been taken, if there is one. */
    ghost function Waiting(): Option<Received>
      reads motor.cpu.slot
    {
      motor.cpu.slot.Waiting()
    }

    /** Look into the slot.  An older request that the newest one replaced is lost. */
    method TakeRequest() returns (data: Option<seq<byte>>)
      requires motor.cpu.slot.Valid(motor.cpu.now)
      modifies motor.cpu.slot`pending, motor.cpu.slot`taken, motor.cpu.slot`checkedAt
      ensures SlotEmptied() && (data.Some? ==> |data.value| == 8)
      ensures Parsed(data) == Input(old(Waiting()))
    {
      data := motor.cpu.slot.Take(motor.cpu.now);
    }

    ghost predicate SlotEmptied()
      reads motor.cpu.slot, motor.cpu`now
    {
      var slot := motor.cpu.slot;
      slot.Valid(motor.cpu.now) && slot.taken == |slot.received| && slot.checkedAt == motor.cpu.now
    }

    /** Process the request that has been taken, if any. */
    method ProcessTaken(data: Option<seq<byte>>)
      requires data.Some? ==> |data.value| == 8
      requires bus.Valid() && monitors.Valid() && motor.cpu.encoder.Valid()
      modifies `session, `routine, `timerMs, `step, `savedDuty, bus, motor`duty, motor`left, motor`right
      modifies motor.cpu.encoder, steering`key, steering`position, steering`pulseUs
      modifies monitors.encoder`status, monitors.encoder`failCount, monitors.encoder`history, monitors.encoder`cleared
      modifies monitors.steering`status, monitors.steering`failCount, monitors.steering`history, monitors.steering`cleared
      ensures bus.Valid() && monitors.Valid() && motor.cpu.encoder.Valid()
      ensures ControlState() == AfterRequest(old(ControlState()), Parsed(data))
      ensures StartEffect(RequestedBy(old(ControlState()), Parsed(data)))
      ensures bus.offered == old(bus.offered) + Responses(old(AnswerTo(Parsed(data))))
      ensures monitors.encoder.cleared == (old(monitors.encoder.cleared) || Clears(Parsed(data)))
      ensures monitors.steering.cleared == (old(monitors.steering.cleared) || Clears(Parsed(data)))
    {
      if data.Some? {
        ProcessRequest(data.value);
      }
    }

    /** The request, then the routine. */
    method ProcessAndAdvance(data: Option<seq<byte>>)
      requires data.Some? ==> |data.value| == 8
      requires bus.Valid() && monitors.Valid() && motor.cpu.encoder.Valid() && StateValid()
      modifies `session, `routine, `timerMs, `step, `savedDuty, bus
      modifies motor`state, motor`duty, motor`left, motor`right, motor.cpu`pins
      modifies motor.cpu.encoder, steering`key, steering`position, steering`pulseUs
      modifies monitors.encoder`status, monitors.encoder`failCount, monitors.encoder`history, monitors.encoder`cleared
      modifies monitors.steering`status, monitors.steering`failCount, monitors.steering`history, monitors.steering`cleared
      ensures bus.Valid() && monitors.Valid() && motor.cpu.encoder.Valid() && StateValid()
      ensures ControlState() == Call(old(ControlState()), Parsed(data)).0
      ensures bus.offered == old(bus.offered) + Responses(old(AnswerTo(Parsed(data))))
                             + ResultFrames(Call(old(ControlState()), Parsed(data)).1)
      ensures CallEffect(RequestedBy(old(ControlState()), Parsed(data)))
      ensures SteeringEffect(AfterRequest(old(ControlState()), Parsed(data))) && SteeringKept()
      ensures monitors.encoder.cleared == (old(monitors.encoder.cleared) || Clears(Parsed(data)))
      ensures monitors.steering.cleared == (old(monitors.steering.cleared) || Clears(Parsed(data)))
    {
      hide Transmitter.Valid, Monitors.Valid, Encoder.Valid, AfterRequest, Call, WellFormed, Clears, AnswerTo, RequestedBy, Parsed;
      hide Responses, ResultFrames, LimitDuty, EncoderRestarted, Advance, StateAfter;
      MotorTestChanges(ControlState(), Parsed(data));
      ProcessTaken(data);
      UpdateRoutine();
    }

    /** What one call does to the drive: the motor test runs, or has just handed the motor back stopped, or
        the drive is as it was.  savedDuty is the duty from before the test. */
    twostate predicate Overrides()
      reads `routine, `savedDuty, motor, motor.cpu`pins
    {
      if routine == MotorTest
      then MotorRoutineEffect() && savedDuty == if old(routine) == MotorTest then old(savedDuty) else old(motor.duty)
      else if old(routine) == MotorTest then MotorRoutineEffect() && savedDuty == old(savedDuty)
      else motor.state == old(motor.state) && motor.duty == old(motor.duty)
           && motor.left == old(motor.left) && motor.right == old(motor.right)
           && motor.cpu.pins == old(motor.cpu.pins)
    }

    /** What one call does to the drive and the encoder, when it starts routine r or none. */
    twostate predicate CallEffect(r: Routine)
      reads `routine, `savedDuty, motor, motor.cpu`pins, motor.cpu.encoder
    {
      Overrides() && if r == MotorTest then EncoderRestarted() else unchanged(motor.cpu.encoder)
    }

    /** The whole call but for the slot: the request, the routine, and the fault monitors. */
    method Work(data: Option<seq<byte>>)
      requires data.Some? ==> |data.value| == 8
      requires bus.Valid() && monitors.Valid() && motor.cpu.encoder.Valid() && StateValid()
      modifies `session, `routine, `timerMs, `step, `savedDuty, bus
      modifies motor`state, motor`duty, motor`left, motor`right, motor.cpu`pins
      modifies motor.cpu.encoder, steering`key, steering`position, steering`pulseUs
      modifies monitors, monitors.encoder, monitors.steering
      ensures bus.Valid() && monitors.Valid() && motor.cpu.encoder.Valid() && StateValid()
      ensures ControlState() == Call(old(ControlState()), Parsed(data)).0
      ensures bus.offered == old(bus.offered) + Responses(old(AnswerTo(Parsed(data))))
                             + ResultFrames(Call(old(ControlState()), Parsed(data)).1)
      ensures CallEffect(RequestedBy(old(ControlState()), Parsed(data)))
      ensures SteeringEffect(AfterRequest(old(ControlState()), Parsed(data))) && SteeringKept()
      ensures MonitorEffect(Parsed(data))
    {
      hide Transmitter.Valid, Monitors.Valid, Encoder.Valid, StateValid, CallEffect;
      ProcessAndAdvance(data);
      UpdateDtcMonitor();
    }

    /** The work of one call, and its entry in the log. */
    method WorkAndBook(data: Option<seq<byte>>, ghost entry: Option<Received>)
      requires data.Some? ==> |data.value| == 8
      requires motor.cpu.encoder.Valid() && Valid() && Parsed(data) == Input(entry)
      modifies this, bus, motor`state, motor`duty, motor`left, motor`right, motor.cpu`pins
      modifies motor.cpu.encoder, steering`key, steering`position, steering`pulseUs
      modifies monitors, monitors.encoder, monitors.steering
      ensures motor.cpu.encoder.Valid() && Valid() && log == old(log) + [entry]
      ensures bus.offered == old(bus.offered) + Responses(old(AnswerTo(Parsed(data))))
                             + ResultFrames(Call(old(ControlState()), Parsed(data)).1)
      ensures CallEffect(RequestedBy(old(ControlState()), Parsed(data)))
      ensures SteeringEffect(AfterRequest(old(ControlState()), Parsed(data))) && SteeringKept()
      ensures MonitorEffect(Parsed(data))
    {
      hide Transmitter.Valid, Monitors.Valid, Encoder.Valid, StateValid, CallEffect, Call, AnswerTo, Responses, ResultFrames;
      Work(data);
      Book(entry);
    }

    /** UdsDiag_Update1ms: the waiting request, then the routine, then the fault monitors. */
    method Update1ms()
      requires motor.cpu.slot.Valid(motor.cpu.now) && motor.cpu.encoder.Valid() && Valid()
      modifies motor.cpu.slot`pending, motor.cpu.slot`taken, motor.cpu.slot`checkedAt
      modifies this, bus, motor`state, motor`duty, motor`left, motor`right, motor.cpu`pins
      modifies motor.cpu.encoder, steering`key, steering`position, steering`pulseUs
      modifies monitors, monitors.encoder, monitors.steering
      ensures SlotEmptied() && motor.cpu.encoder.Valid() && Valid()
      ensures log == old(log) + [old(Waiting())]
      ensures bus.offered
              == old(bus.offered) + CallFrames(old(ControlState()), Turn(Input(old(Waiting())), old(CurrentView())))
      ensures CallEffect(RequestedBy(old(ControlState()), Input(old(Waiting()))))
      ensures SteeringEffect(AfterRequest(old(ControlState()), Input(old(Waiting())))) && SteeringKept()
      ensures MonitorEffect(Input(old(Waiting()))) && AnswerRead(Input(old(Waiting())))
    {
      hide Valid, Encoder.Valid, SlotEmptied, CallEffect, SteeringEffect, MonitorEffect, CallFrames, Told;
      ghost var turn, before := Turn(Input(Waiting()), CurrentView()), ControlState();
      TakeAndWork();
      if Answered(before, turn).Some? {
        AnswerTells(old(bus.offered), before, turn);
      }
    }

    /** The frame in the slot, and the work of the call. */
    method TakeAndWork()
      requires motor.cpu.slot.Valid(motor.cpu.now) && motor.cpu.encoder.Valid() && Valid()
      modifies motor.cpu.slot`pending, motor.cpu.slot`taken, motor.cpu.slot`checkedAt
      modifies this, bus, motor`state, motor`duty, motor`left, motor`right, motor.cpu`pins
      modifies motor.cpu.encoder, steering`key, steering`position, steering`pulseUs
      modifies monitors, monitors.encoder, monitors.steering
      ensures SlotEmptied() && motor.cpu.encoder.Valid() && Valid()
      ensures log == old(log) + [old(Waiting())]
      ensures bus.offered
              == old(bus.offered) + CallFrames(old(ControlState()), Turn(Input(old(Waiting())), old(CurrentView())))
      ensures CallEffect(RequestedBy(old(ControlState()), Input(old(Waiting()))))
      ensures SteeringEffect(AfterRequest(old(ControlState()), Input(old(Waiting())))) && SteeringKept()
      ensures MonitorEffect(Input(old(Waiting())))
    {
      hide RequestSlot.Valid, Valid, Encoder.Valid, Call;
      ghost var entry, before, answer := Waiting(), ControlState(), AnswerTo(Input(Waiting()));
      var data := TakeRequest();
      WorkAndBook(data, entry);
      Associate(old(bus.offered), Responses(answer), ResultFrames(Call(before, Input(entry)).1));
    }

    /** An answer that is offered tells the tester the status of each code, the speed and the angle as they
        were, the session that is in force, or why the request was refused. */
    twostate predicate AnswerRead(request: Option<seq<byte>>)
      requires request.Some? ==> |request.value| > 0
      reads `session, `routine, `timerMs, `step, `calls, bus`offered
      reads motor.cpu.encoder`pulsesPerSecond, monitors.encoder`status, monitors.steering`status
    {
      old(AnswerTo(request)).Some? ==>
        && |bus.offered| > |old(bus.offered)|
        && Told(old(ControlState()), request.value,
                View(old(monitors.encoder.status) as int, old(monitors.steering.status) as int,
                     old(speedWord(motor.cpu.encoder.pulsesPerSecond)) % 0x1_0000, AngleWord(ClampAngle(old(angleAt(calls))))),
                ReadFrame(bus.offered[|old(bus.offered)|]))
    }

    /** The call is counted, and what it took is remembered. */
    method Book(ghost entry: Option<Received>)
      requires calls == |log| && ControlState() == Call(StateAfter(log), Input(entry)).0
      modifies `calls, `log
      ensures LogValid() && log == old(log) + [entry] && calls == old(calls) + 1
    {
      StateStep(log, entry);
      log := log + [entry];
      calls := calls + 1;
    }

    /** Both faults are observed once, and the calls that clear are remembered as such. */
    twostate predicate MonitorEffect(request: Option<seq<byte>>)
      reads motor`state, motor.cpu.encoder`pulsesPerSecond, steering`key, monitors.encoder, monitors.steering
      reads `calls
    {
      var m := monitors;
      && m.encoder.inputs == old(m.encoder.inputs) + [DtcRule.Input(NoSignal(), old(m.encoder.cleared) || Clears(request))]
      && m.steering.inputs
         == old(m.steering.inputs) + [DtcRule.Input(Mismatch(old(calls)), old(m.steering.cleared) || Clears(request))]
    }
  }

  /** The request in data taken out of the slot. */
  function Parsed(data: Option<seq<byte>>): (request: Option<seq<byte>>)
    requires data.Some? ==> |data.value| == 8
    ensures request.Some? ==> 1 <= |request.value| <= 7
  {
    if data.Some? then ParseRequest(data.value) else None
  }

  function AfterRequest(c: Control, request: Option<seq<byte>>): Control {
    if request.Some? then Accept(c, request.value) else c
  }

  function RequestedBy(c: Control, request: Option<seq<byte>>): Routine {
    if request.Some? then Requested(c, request.value) else NoRoutine
  }

  /** One call can start the motor test only when it is not running, and cannot end it when it starts it. */
  lemma MotorTestChanges(c: Control, request: Option<seq<byte>>)
    ensures var requested, after, called := RequestedBy(c, request), AfterRequest(c, request), Call(c, request).0;
            && called == Advance(after).0 && Call(c, request).1 == Advance(after).1
            && (WellFormed(c) ==> WellFormed(after))
            && (after.routine == MotorTest <==> c.routine == MotorTest || requested == MotorTest)
            && (c.routine == MotorTest ==> requested == NoRoutine)
            && (requested == MotorTest ==> called.routine == MotorTest)
            && (requested == ServoTest ==> after.routine == ServoTest)
            && (c.routine == NoRoutine && called.routine == NoRoutine ==> after.routine == NoRoutine)
            && (called.routine == MotorTest ==> after.routine == MotorTest)
  {
  }

  predicate Clears(request: Option<seq<byte>>) { request.Some? && ClearsDtc(request.value) }
}
