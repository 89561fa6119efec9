/**
 Main loop of the ACT ECU (ACT/Cpu0_Main.c).  Its invariant says when each pass takes place,
 on whose authority the motor runs, and that every powered microsecond so far was licensed.
 */
module ActMain {
  import opened ActCan
  import opened ActCanRx
  import opened ActCpu
  import opened ActSafety
  import opened Bytes
  import opened DtcMonitors
  import opened EncoderDriver
  import opened Motor
  import opened Servo
  import opened UdsDiag
  import opened UdsService
  import opened UdsSlot
  import opened UdsTransport

  const STARTUP_HOLD_MS := 500

  class ActMain {
    const steering: Steering
    const motor: MotorDrive := steering.motor
    const cpu: Cpu := steering.motor.cpu
    const can: ActCan
    const uds: UdsDiag

    var steeringTimer: nat
    ghost var passes: nat
    ghost var loopStart: nat

    // ---------- The invariant ----------

    ghost predicate Wired() {
      can.steering == steering && uds.steering == steering
    }

    /** What the run has received and done so far. */
    ghost function Past(): History
      reads `loopStart, cpu.mailbox`accepted, uds`log
    {
      History(cpu.mailbox.accepted, uds.log, loopStart)
    }

    /** The drivers and tasks, each by itself. */
    ghost predicate PartsValid()
      reads cpu`now, cpu`interruptions, cpu`trace, cpu`pins, cpu.encoder, cpu.mailbox, cpu.slot, can`applied
      reads uds`session, uds`routine, uds`timerMs, uds`step, uds`calls, uds`log
      reads uds.bus, uds.monitors, uds.monitors.encoder, uds.monitors.steering
    {
      && Wired() && cpu.Valid() && can.Linked() && uds.Valid()
      && !cpu.pins.pwmA && !cpu.pins.pwmB
    }

    /** After n passes' calls of the watchdog, each was on time. */
    ghost predicate Watched(n: nat)
      reads `loopStart, cpu.mailbox`callTimes
    {
      |cpu.mailbox.callTimes| == CALLS_PER_PASS * n && OnTime(cpu.mailbox.callTimes, loopStart)
    }

    /** After n passes' calls of the diagnostics task, each took what had arrived since the one before. */
    ghost predicate Diagnosed(n: nat)
      reads `loopStart, uds`calls, uds`log, cpu.slot`checkedAt, cpu.slot`received
    {
      && uds.calls == |uds.log| == n
      && cpu.slot.checkedAt == (if n == 0 then 0 else loopStart + PassStart(n - 1))
      && RequestsOnTime(uds.log, cpu.slot.received, loopStart)
    }

    ghost predicate AtPass(q: nat)
      reads `loopStart, cpu`now
    {
      cpu.now == loopStart + PassStart(q)
    }

    /** Outside the motor test: base duty 90, and a running motor obeys the command applied last, in its
        direction and in the duties of its wheels. */
    ghost predicate Obeys()
      reads motor, can`applied
    {
      && motor.duty == BASE_DUTY && DrivingDuties(motor.left, motor.right)
      && (motor.state != Stop ==> can.applied.Some? && DrivesAs(can.applied.value.cmd))
    }

    ghost predicate DrivesAs(c: Command)
      reads motor`state, motor`left, motor`right
    {
      motor.state == Drive(c) && (motor.left, motor.right) == Duties(SteeringKeyOf(c))
    }

    /** The watchdog has not expired for the command that keeps the motor running. */
    ghost predicate Fresh()
      reads motor`state, can`applied, cpu.mailbox`callTimes
    {
      motor.state != Stop ==>
        can.applied.Some? && |cpu.mailbox.callTimes| - can.applied.value.calls < TIMEOUT_TICKS
    }

    /** Before diagnostics: the base duty is put aside, or the motor obeys. */
    ghost predicate Ready()
      reads motor, can`applied, cpu.mailbox`callTimes, uds`routine, uds`savedDuty
    {
      if uds.routine == MotorTest then uds.savedDuty == BASE_DUTY else Obeys() && Fresh()
    }

    /** Drive authorisation: the motor test drives forward at 30 % and has put the base duty aside;
        without it, only a command that asks for motion and has not timed out drives. */
    ghost predicate Authorised()
      reads motor, can`applied, cpu`authority, cpu.mailbox`callTimes, uds`routine, uds`savedDuty
    {
      if uds.routine == MotorTest
      then motor.state == Forward && motor.duty == motor.left == motor.right == TEST_DUTY && uds.savedDuty == BASE_DUTY
           && cpu.authority == ByTest
      else Obeys() && Fresh()
           && cpu.authority == if motor.state == Stop then Idle else ByCommand(can.applied.value)
    }

    ghost predicate Recorded()
      reads `loopStart, cpu`trace, cpu.mailbox`accepted, uds`log
    {
      Safe(cpu.trace, Past())
    }

    /** Between two passes. */
    ghost predicate Valid()
      reads this, cpu, cpu.encoder, cpu.mailbox, cpu.slot, motor, can`applied
      reads uds, uds.bus, uds.monitors, uds.monitors.encoder, uds.monitors.steering
    {
      && PartsValid() && Authorised() && Recorded()
      && AtPass(passes) && Watched(passes) && Diagnosed(passes) && steeringTimer == SincePulse(passes)
    }

    // ---------- Power-on ----------

    /** All drivers are initialised, and no time has passed. */
    ghost predicate PoweredOn()
      reads this, cpu, cpu.encoder, cpu.mailbox, cpu.slot, motor, can`applied
      reads uds, uds.bus, uds.monitors, uds.monitors.encoder, uds.monitors.steering
    {
      && PartsValid() && NothingHappened() && motor.state == Stop
      && uds.routine == NoRoutine && uds.log == [] && passes == 0 && steeringTimer == 0
    }

    ghost predicate NothingHappened()
      reads cpu, cpu.mailbox`callTimes, cpu.slot`checkedAt
    {
      cpu.now == 0 && cpu.trace == [] && cpu.mailbox.callTimes == [] && cpu.slot.checkedAt == 0 && cpu.authority == Idle
    }

    constructor (steering: Steering, can: ActCan, uds: UdsDiag)
      requires can.steering == steering && uds.steering == steering
      requires steering.motor.cpu.Valid() && can.Linked() && uds.Valid() && steering.motor.state == Stop
      requires var c := steering.motor.cpu;
               && c.now == 0 && c.trace == [] && c.mailbox.callTimes == [] && c.slot.checkedAt == 0 && c.authority == Idle
               && !c.pins.pwmA && !c.pins.pwmB
      requires uds.routine == NoRoutine && uds.log == []
      ensures PoweredOn() && this.steering == steering && this.can == can && this.uds == uds
    {
      this.steering, this.can, this.uds := steering, can, uds;
      steeringTimer, passes, loopStart := 0, 0, 0;
    }

    /** The rest of the start-up: everything off, the servo centred for half a second, then the encoder
        restarted.  The receive interrupt is already enabled, but no watchdog call is made. */
    method StartUp()
      requires PoweredOn()
      modifies `loopStart, cpu, cpu.mailbox, cpu.slot, cpu.encoder
      modifies motor`state, motor`duty, motor`left, motor`right, steering
      ensures Valid() && passes == 0 && loopStart == 1000 * STARTUP_HOLD_MS
      ensures steering.key == Null && CentredFor(25) && cpu.encoder.resetAt == loopStart && cpu.encoder.count == 0
    {
      hide Cpu.Valid, ActCan.Linked, UdsDiag.Valid, Powered, Valid, Pulses;
      SwitchOff();
      HoldCentred();
      loopStart := cpu.now;
      FirstPass();
    }

    /** What start-up leaves is a state between two passes. */
    lemma FirstPass()
      requires PartsValid() && loopStart == cpu.now && passes == 0 && steeringTimer == 0
      requires motor.state == Stop && motor.duty == motor.left == motor.right == BASE_DUTY && cpu.authority == Idle
      requires uds.routine == NoRoutine && uds.log == [] && cpu.mailbox.callTimes == [] && cpu.slot.checkedAt == 0
      requires forall t :: 0 <= t < |cpu.trace| ==> !Powered(cpu.trace[t])
      ensures Valid()
    {
      hide Cpu.Valid, ActCan.Linked;
    }

    method SwitchOff()
      requires cpu.Valid()
      modifies cpu`pins, motor`state, motor`duty, motor`left, motor`right
      modifies steering`key, steering`position, steering`pulseUs
      ensures motor.Valid() && motor.state == Stop && motor.duty == motor.left == motor.right == BASE_DUTY
      ensures !cpu.pins.pwmA && !cpu.pins.pwmB && steering.key == Null
    {
      motor.SetDutyPercent(BASE_DUTY);
      motor.Coast();
      steering.Center();
    }

    method HoldCentred()
      requires Wired() && motor.Valid() && can.Linked() && motor.state == Stop && NothingHappened()
      requires !cpu.pins.pwmA && !cpu.pins.pwmB
      modifies cpu, cpu.mailbox, cpu.slot, cpu.encoder, steering`pulseUs, steering`position
      ensures cpu.Valid() && can.Linked() && !cpu.pins.pwmA && !cpu.pins.pwmB
      ensures cpu.now == 1000 * STARTUP_HOLD_MS && cpu.authority == Idle
      ensures cpu.mailbox.callTimes == [] && cpu.slot.checkedAt == 0
      ensures forall t :: 0 <= t < |cpu.trace| ==> !Powered(cpu.trace[t])
      ensures cpu.encoder.resetAt == cpu.now && cpu.encoder.count == 0 && CentredFor(25)
    {
      hide Cpu.Caught, RxMailbox.Valid, RequestSlot.Valid, Encoder.Valid, Pulses;
      ghost var t := steering.UpdateForMs(STARTUP_HOLD_MS);
      assert cpu.trace == t;
      can.StaysLinked();
      RestartEncoder();
    }

    /** The record begins with n servo pulses for the steering key, the motor stopped underneath. */
    ghost predicate CentredFor(n: nat)
      reads cpu`trace, motor`left, motor`right, steering`key
    {
      Pulses(cpu.trace, 0, n, Stop, motor.left, motor.right, KeyPulse(steering.key))
    }

    method RestartEncoder()
      requires cpu.Valid()
      modifies cpu.encoder
      ensures cpu.Valid() && cpu.encoder.resetAt == cpu.now && cpu.encoder.count == 0
    {
      cpu.encoder.ResetCount();
      cpu.StaysValid();
    }

    // ---------- The half of a pass that takes no time ----------

    /** The motor does what the last command taken asks for, and that command is at most k calls old. */
    ghost predicate DrivesOn(k: nat)
      reads motor`state, motor`left, motor`right, can`applied, cpu.mailbox`callTimes
    {
      && can.applied.Some? && DrivesAs(can.applied.value.cmd)
      && |cpu.mailbox.callTimes| - can.applied.value.calls <= k
    }

    /** Motor and steering do. */
    ghost predicate Obeying(k: nat)
      reads motor`state, motor`left, motor`right, steering`key, can`applied, cpu.mailbox`callTimes
    {
      DrivesOn(k) && steering.key == SteeringKeyOf(can.applied.value.cmd)
    }

    method TickOnce(ghost k: nat)
      requires Wired() && cpu.Valid() && can.Linked() && k + 1 < TIMEOUT_TICKS
      modifies cpu`pins, cpu.mailbox, motor`state, motor`duty, motor`left, motor`right
      modifies steering`key, steering`position, steering`pulseUs, can
      ensures cpu.Valid() && can.Linked()
      ensures cpu.mailbox.accepted == old(cpu.mailbox.accepted) && cpu.mailbox.taken == |cpu.mailbox.accepted|
      ensures cpu.mailbox.callTimes == old(cpu.mailbox.callTimes) + [cpu.now]
      ensures old(cpu.mailbox.updated || Obeying(k)) ==> Obeying(k + 1)
      ensures motor.duty in {BASE_DUTY, old(motor.duty)}
      ensures old(!cpu.pins.pwmA && !cpu.pins.pwmB) ==> !cpu.pins.pwmA && !cpu.pins.pwmB
      ensures old(Obeys()) ==> Obeys() && Fresh()
    {
      hide DrivingDuties, Encoder.Valid, RequestSlot.Valid, Cpu.Caught, Moves, Duties;
      can.Update100us();
    }

    method WatchdogCall(ghost k: nat)
      requires Wired() && cpu.Valid() && can.Linked() && k + 1 < TIMEOUT_TICKS
      modifies cpu`interruptions, cpu`pins, cpu.mailbox, cpu.slot, motor`state, motor`duty, motor`left, motor`right
      modifies steering`key, steering`position, steering`pulseUs, can
      ensures cpu.interruptions == old(cpu.interruptions) + 1
      ensures cpu.Valid() && can.Linked() && SlotFilled()
      ensures old(cpu.mailbox.accepted) <= cpu.mailbox.accepted && |old(cpu.mailbox.accepted)| <= cpu.mailbox.taken
      ensures cpu.mailbox.callTimes == old(cpu.mailbox.callTimes) + [cpu.now]
      ensures old(cpu.mailbox.updated || Obeying(k)) ==> Obeying(k + 1)
      ensures motor.duty in {BASE_DUTY, old(motor.duty)}
      ensures old(!cpu.pins.pwmA && !cpu.pins.pwmB) ==> !cpu.pins.pwmA && !cpu.pins.pwmB
      ensures old(Obeys()) ==> Obeys() && Fresh()
    {
      Interrupt();
      TickOnce(k);
    }

    /** The interrupt may run here; a command that was waiting has only been replaced. */
    method Interrupt()
      requires cpu.Valid() && can.Linked() && Wired()
      modifies cpu`interruptions, cpu.mailbox, cpu.slot
      ensures cpu.interruptions == old(cpu.interruptions) + 1
      ensures cpu.Valid() && can.Linked() && cpu.OnlyReceived()
      ensures old(cpu.mailbox.updated) ==> cpu.mailbox.updated
    {
      cpu.Interrupt();
      can.StaysLinked();
    }

    /** Requests may have arrived in the slot. */
    twostate predicate SlotFilled()
      reads cpu.slot
    {
      old(cpu.slot.received) <= cpu.slot.received && cpu.slot.taken == old(cpu.slot.taken)
      && cpu.slot.checkedAt == old(cpu.slot.checkedAt)
    }

    /** Ten watchdog calls, with the interrupt free to run before each of them. */
    method UpdateCanRxFor1ms()
      requires Wired() && cpu.Valid() && can.Linked() && !cpu.pins.pwmA && !cpu.pins.pwmB
      modifies cpu`interruptions, cpu`pins, cpu.mailbox, cpu.slot, motor`state, motor`duty, motor`left, motor`right
      modifies steering`key, steering`position, steering`pulseUs, can
      ensures cpu.interruptions == old(cpu.interruptions) + CALLS_PER_PASS
      ensures cpu.Valid() && can.Linked() && !cpu.pins.pwmA && !cpu.pins.pwmB && SlotFilled()
      ensures old(cpu.mailbox.accepted) <= cpu.mailbox.accepted
      ensures cpu.mailbox.callTimes == old(cpu.mailbox.callTimes) + Times(CALLS_PER_PASS, cpu.now)
      ensures motor.duty in {BASE_DUTY, old(motor.duty)}
      ensures old(Obeys()) ==> Obeys() && Fresh()
      ensures |old(cpu.mailbox.accepted)| <= cpu.mailbox.taken
      ensures old(cpu.mailbox.updated) ==> Obeying(CALLS_PER_PASS)
    {
      hide RxMailbox.Valid, RequestSlot.Valid, Encoder.Valid, DrivingDuties;
      for i := 0 to CALLS_PER_PASS
        invariant cpu.interruptions == old(cpu.interruptions) + i
        invariant cpu.Valid() && can.Linked() && !cpu.pins.pwmA && !cpu.pins.pwmB && SlotFilled()
        invariant old(cpu.mailbox.accepted) <= cpu.mailbox.accepted
        invariant cpu.mailbox.callTimes == old(cpu.mailbox.callTimes) + Times(i, cpu.now)
        invariant motor.duty in {BASE_DUTY, old(motor.duty)}
        invariant old(Obeys()) ==> Obeys() && (i > 0 ==> Fresh())
        invariant i > 0 ==> |old(cpu.mailbox.accepted)| <= cpu.mailbox.taken
        invariant old(cpu.mailbox.updated) ==> if i == 0 then cpu.mailbox.updated else Obeying(i)
      {
        WatchdogCall(i);
      }
    }

    /** The watchdog's part of a pass. */
    method TakeCommands()
      requires PartsValid() && Ready()
      modifies cpu`interruptions, cpu`pins, cpu.mailbox, cpu.slot, motor`state, motor`duty
      modifies motor`left, motor`right, steering`key, steering`position, steering`pulseUs, can
      ensures cpu.interruptions == old(cpu.interruptions) + CALLS_PER_PASS + 1
      ensures PartsValid() && Ready() && SlotFilled()
      ensures old(cpu.mailbox.accepted) <= cpu.mailbox.accepted && |old(cpu.mailbox.accepted)| <= cpu.mailbox.taken
      ensures cpu.mailbox.callTimes == old(cpu.mailbox.callTimes) + Times(CALLS_PER_PASS, cpu.now)
      ensures old(cpu.mailbox.updated) ==> Obeying(CALLS_PER_PASS)
    {
      hide UdsDiag.Valid, Cpu.Valid, Obeying, DrivesOn;
      UpdateCanRxFor1ms();
      Interrupt();
    }

    twostate predicate DriveUntouched()
      reads motor, cpu`pins
    {
      && motor.state == old(motor.state) && motor.duty == old(motor.duty) && cpu.pins == old(cpu.pins)
      && motor.left == old(motor.left) && motor.right == old(motor.right)
    }

    /** What diagnostics leave of the drive: the test, a motor that it hands back stopped, or what was. */
    twostate predicate TakenOver()
      reads motor, cpu`pins, uds`routine, uds`savedDuty
    {
      if uds.routine == MotorTest
      then motor.state == Forward && motor.duty == motor.left == motor.right == TEST_DUTY && uds.savedDuty == BASE_DUTY
      else if old(uds.routine) == MotorTest
      then motor.state == Stop && motor.duty == motor.left == motor.right == BASE_DUTY
      else DriveUntouched()
    }

    /** Diagnostics may take the drive over from the commands; a routine gives it back stopped. */
    method UpdateDiagnostics()
      requires Wired() && cpu.slot.Valid(cpu.now) && cpu.encoder.Valid() && uds.Valid()
      requires (if uds.routine == MotorTest then uds.savedDuty else motor.duty) == BASE_DUTY
      requires !cpu.pins.pwmA && !cpu.pins.pwmB
      modifies uds, uds.bus, motor`state, motor`duty, motor`left, motor`right, cpu`pins
      modifies cpu.slot`pending, cpu.slot`taken, cpu.slot`checkedAt, cpu.encoder
      modifies steering`key, steering`position, steering`pulseUs
      modifies uds.monitors, uds.monitors.encoder, uds.monitors.steering
      ensures uds.Valid() && uds.log == old(uds.log) + [old(uds.Waiting())]
      ensures cpu.slot.Valid(cpu.now) && cpu.slot.checkedAt == cpu.now
      ensures cpu.encoder.Valid() && cpu.encoder.polledAt == old(cpu.encoder.polledAt)
      ensures cpu.encoder.longestGap == old(cpu.encoder.longestGap) && cpu.encoder.updates == old(cpu.encoder.updates)
      ensures TakenOver() && uds.SteeringKept() && !cpu.pins.pwmA && !cpu.pins.pwmB
    {
      hide UdsDiag.SteeringEffect, UdsDiag.SteeringKept, AfterRequest, Encoder.Valid, RequestSlot.Valid, UdsDiag.Valid, UdsDiag.AnswerRead;
      uds.Update1ms();
    }

    method TakeOver()
      requires PartsValid()
      requires (if uds.routine == MotorTest then uds.savedDuty else motor.duty) == BASE_DUTY
      modifies uds, uds.bus, motor`state, motor`duty, motor`left, motor`right, cpu`pins
      modifies cpu.slot`pending, cpu.slot`taken, cpu.slot`checkedAt, cpu.encoder
      modifies steering`key, steering`position, steering`pulseUs
      modifies uds.monitors, uds.monitors.encoder, uds.monitors.steering
      ensures PartsValid() && TakenOver() && uds.SteeringKept() && cpu.slot.checkedAt == cpu.now && cpu.encoder.updates == old(cpu.encoder.updates)
      ensures uds.log == old(uds.log) + [old(uds.Waiting())] && uds.calls == |uds.log|
    {
      hide UdsDiag.StateValid, Monitors.Valid, Transmitter.Valid, RxMailbox.Valid, Encoder.Valid, TakenOver;
      UpdateDiagnostics();
      cpu.StaysValid();
    }

    /** The motor's authority until the next pass. */
    ghost method Label()
      modifies cpu`authority
      ensures cpu.authority == if uds.routine == MotorTest then ByTest
                               else if motor.state != Stop && can.applied.Some? then ByCommand(can.applied.value) else Idle
    {
      cpu.authority := if uds.routine == MotorTest then ByTest
                       else if motor.state != Stop && can.applied.Some? then ByCommand(can.applied.value) else Idle;
    }

    /** Routine or commands decide what the coming cycle does, and on whose authority. */
    method Decide()
      requires PartsValid() && Ready()
      modifies uds, uds.bus, motor`state, motor`duty, motor`left, motor`right, cpu`pins, cpu`authority
      modifies cpu.slot`pending, cpu.slot`taken, cpu.slot`checkedAt, cpu.encoder
      modifies steering`key, steering`position, steering`pulseUs
      modifies uds.monitors, uds.monitors.encoder, uds.monitors.steering
      ensures PartsValid() && Authorised() && cpu.slot.checkedAt == cpu.now && cpu.encoder.updates == old(cpu.encoder.updates)
      ensures uds.log == old(uds.log) + [old(uds.Waiting())] && uds.calls == |uds.log|
      ensures old(uds.routine) != MotorTest && uds.routine != MotorTest ==> DriveUntouched()
      ensures uds.SteeringKept()
    {
      hide PartsValid;
      TakeOver();
      Label();
    }

    /** The frame that is taken now was received after the last look into the slot. */
    lemma RequestOnTime(before: seq<Option<Received>>, received: seq<Received>, entry: Option<Received>, q: nat)
      requires |before| == q && RequestsOnTime(before, received, loopStart) && received <= cpu.slot.received
      requires entry.Some? ==> TakenOnTime(entry.value, q, cpu.slot.received, loopStart)
      ensures RequestsOnTime(before + [entry], cpu.slot.received, loopStart)
    {
      forall p | 0 <= p < |before + [entry]| && (before + [entry])[p].Some?
        ensures TakenOnTime((before + [entry])[p].value, p, cpu.slot.received, loopStart)
      {
        if p < |before| {
          assert TakenOnTime(before[p].value, p, received, loopStart);
        }
      }
    }

    /** A frame waiting in the slot is on time for the pass that begins now. */
    lemma WaitingOnTime()
      requires PartsValid() && AtPass(passes) && Diagnosed(passes)
      ensures uds.Waiting().Some? ==> TakenOnTime(uds.Waiting().value, passes, cpu.slot.received, loopStart)
    {
    }

    /** Diagnostics in time: the log of requests grows by this pass. */
    method DecideOnTime()
      requires PartsValid() && Ready() && AtPass(passes) && Diagnosed(passes)
      modifies uds, uds.bus, motor`state, motor`duty, motor`left, motor`right, cpu`pins, cpu`authority
      modifies cpu.slot`pending, cpu.slot`taken, cpu.slot`checkedAt, cpu.encoder
      modifies steering`key, steering`position, steering`pulseUs
      modifies uds.monitors, uds.monitors.encoder, uds.monitors.steering
      ensures PartsValid() && Authorised() && Diagnosed(passes + 1) && old(uds.log) <= uds.log
      ensures cpu.encoder.updates == old(cpu.encoder.updates)
      ensures old(uds.routine) != MotorTest && uds.routine != MotorTest ==> DriveUntouched()
      ensures uds.SteeringKept()
    {
      hide PartsValid, Ready, Authorised, RequestsOnTime, TakenOnTime, PassStart;
      WaitingOnTime();
      RequestOnTime(uds.log, cpu.slot.received, uds.Waiting(), passes);
      Decide();
    }

    /** The watchdog in time. */
    method TakeCommandsOnTime()
      requires PartsValid() && Ready() && AtPass(passes) && Watched(passes) && Diagnosed(passes)
      modifies cpu`interruptions, cpu`pins, cpu.mailbox, cpu.slot, motor`state, motor`duty
      modifies motor`left, motor`right, steering`key, steering`position, steering`pulseUs, can
      ensures cpu.interruptions == old(cpu.interruptions) + CALLS_PER_PASS + 1
      ensures PartsValid() && Ready() && Watched(passes + 1) && Diagnosed(passes)
      ensures old(cpu.mailbox.accepted) <= cpu.mailbox.accepted && |old(cpu.mailbox.accepted)| <= cpu.mailbox.taken
      ensures old(cpu.mailbox.updated) ==> Obeying(CALLS_PER_PASS)
    {
      hide PartsValid, Ready, RequestsOnTime, OnTime, PassStart, Obeying, DrivesOn;
      OnSchedule(cpu.mailbox.callTimes, passes, loopStart);
      TakeCommands();
      RequestsLater(uds.log, old(cpu.slot.received), cpu.slot.received);
    }

    lemma RequestsLater(log: seq<Option<Received>>, received: seq<Received>, later: seq<Received>)
      requires RequestsOnTime(log, received, loopStart) && received <= later
      ensures RequestsOnTime(log, later, loopStart)
    {
      forall p | 0 <= p < |log| && log[p].Some?
        ensures TakenOnTime(log[p].value, p, later, loopStart)
      {
        assert TakenOnTime(log[p].value, p, received, loopStart);
      }
    }

    // ---------- The half of a pass that takes time ----------

    /** Power until the pass ends is covered, and everything so far has been. */
    ghost predicate Covered()
      reads `loopStart, `passes, cpu`trace, cpu`now, cpu`authority, cpu.mailbox`accepted, uds`log
      reads motor`state, motor`left, motor`right
    {
      && Recorded()
      && Covers(cpu.authority, motor.state, motor.left, motor.right, Past(), passes, cpu.now)
    }

    /** Whatever Authorised lets the motor do is covered until the pass ends. */
    lemma AuthorisedIsCovered()
      requires PartsValid() && Authorised() && Watched(passes + 1) && Diagnosed(passes + 1)
      ensures motor.Valid()
      ensures Covers(cpu.authority, motor.state, motor.left, motor.right, Past(), passes, cpu.now)
    {
      if uds.routine == MotorTest {
        assert uds.log[..passes + 1] == uds.log;
      } else if motor.state != Stop {
        var a := can.applied.value;
        assert a in cpu.mailbox.accepted && cpu.mailbox.Genuine(a, cpu.now);
        FreshCovers(a, motor.left, motor.right, Past(), cpu.mailbox.callTimes, passes, cpu.now);
      }
    }

    lemma RecordedLater(before: History)
      requires Safe(cpu.trace, before) && Extends(Past(), before)
      ensures Recorded()
    {
      SafeExtend(cpu.trace, [], before, Past());
      assert cpu.trace + [] == cpu.trace;
    }

    lemma WiredWhenValid()
      requires PartsValid()
      ensures Wired()
    {
    }

    /** The half of a pass that takes no time: commands, requests, and what they decide. */
    method Plan()
      requires Valid()
      modifies cpu`interruptions, cpu`pins, cpu`authority, cpu.mailbox, cpu.slot, cpu.encoder
      modifies motor`state, motor`duty, motor`left, motor`right, steering`key, steering`position, steering`pulseUs, can
      modifies uds, uds.bus, uds.monitors, uds.monitors.encoder, uds.monitors.steering
      ensures cpu.interruptions == old(cpu.interruptions) + CALLS_PER_PASS + 1
      ensures PartsValid() && Authorised() && Watched(passes + 1) && Diagnosed(passes + 1)
      ensures cpu.encoder.updates == old(cpu.encoder.updates)
      ensures Extends(Past(), old(Past())) && |old(cpu.mailbox.accepted)| <= cpu.mailbox.taken
      ensures old(cpu.mailbox.updated && uds.routine != MotorTest) && uds.routine != MotorTest ==> DrivesOn(CALLS_PER_PASS)
      ensures old(cpu.mailbox.updated && uds.routine == NoRoutine) && uds.routine == NoRoutine ==> Obeying(CALLS_PER_PASS)
    {
      hide PartsValid, Watched, Diagnosed, Safe, OnTime, PassStart, DrivesAs, Cpu.Valid, UdsDiag.Valid;
      WiredWhenValid();
      TakeCommandsOnTime();
      DecideOnTime();
    }

    /** The plan covers all that the pass is going to do. */
    method PlanCovered()
      requires Valid()
      modifies cpu`interruptions, cpu`pins, cpu`authority, cpu.mailbox, cpu.slot, cpu.encoder
      modifies motor`state, motor`duty, motor`left, motor`right, steering`key, steering`position, steering`pulseUs, can
      modifies uds, uds.bus, uds.monitors, uds.monitors.encoder, uds.monitors.steering
      ensures cpu.interruptions == old(cpu.interruptions) + CALLS_PER_PASS + 1
      ensures PartsValid() && motor.Valid() && Authorised() && Covered() && cpu.encoder.updates == old(cpu.encoder.updates)
      ensures Watched(passes + 1) && Diagnosed(passes + 1)
      ensures Extends(Past(), old(Past())) && |old(cpu.mailbox.accepted)| <= cpu.mailbox.taken
      ensures old(cpu.mailbox.updated && uds.routine != MotorTest) && uds.routine != MotorTest ==> DrivesOn(CALLS_PER_PASS)
      ensures old(cpu.mailbox.updated && uds.routine == NoRoutine) && uds.routine == NoRoutine ==> Obeying(CALLS_PER_PASS)
    {
      hide PartsValid, Watched, Diagnosed, Authorised, Obeying, DrivesOn, Cpu.Valid, UdsDiag.Valid;
      Plan();
      AuthorisedIsCovered();
      RecordedLater(old(Past()));
    }

    /** A last chance for the interrupt, one millisecond of driving, then the encoder's millisecond. */
    method DriveCycle()
      requires motor.Valid() && Covered() && AtPass(passes) && !cpu.pins.pwmA && !cpu.pins.pwmB
      modifies cpu, cpu.mailbox, cpu.slot, cpu.encoder
      ensures cpu.interruptions == old(cpu.interruptions) + 1 + PWM_PERIOD_US
      ensures motor.Valid() && Covered() && BetweenCycles() && DroveCycle(|old(cpu.trace)|)
      ensures OnlyDrove(PWM_PERIOD_US) && cpu.encoder.updates == old(cpu.encoder.updates) + 1
    {
      hide Safe, Covers, PassStart, RxMailbox.Valid, RequestSlot.Valid, Encoder.Valid;
      ghost var before := Past();
      cpu.Interrupt();
      CycleShape(cpu.pins, cpu.authority, motor.state, motor.left, motor.right);
      UpdateMotorAndEncoder();
      CycleIsSafe(old(cpu.trace), old(cpu.pins), cpu.authority, motor.state, motor.left, motor.right, before, Past(), passes);
    }

    /** Everything that a drive update must leave as it was, apart from the time and the record. */
    twostate predicate OnlyDrove(us: nat)
      reads cpu`now, cpu`trace, cpu`authority, cpu.mailbox, cpu.slot
    {
      && cpu.now == old(cpu.now) + us && cpu.authority == old(cpu.authority) && cpu.OnlyReceived()
      && old(cpu.trace) <= cpu.trace
    }

    /** No channel is powered, and brake and direction are those of the motor's state. */
    ghost predicate BetweenCycles()
      reads cpu`pins, motor`state
    {
      !cpu.pins.pwmA && !cpu.pins.pwmB && BrakedAndDirected(cpu.pins, motor.state)
    }

    /** From microsecond n on, a motor cycle as the motor's state and duties ask for it. */
    ghost predicate DroveCycle(n: nat)
      reads cpu`trace, motor`state, motor`left, motor`right
    {
      CycleSeen(cpu.trace, n, motor.state, motor.left, motor.right)
    }

    /** From microsecond n on, a servo pulse for the steering key, with the motor running underneath. */
    ghost predicate Pulsed(n: nat)
      reads cpu`trace, motor`state, motor`left, motor`right, steering`key
    {
      exists before: Pins :: !before.pwmA && !before.pwmB && BrakedAndDirected(before, motor.state)
        && PulseSeen(cpu.trace, n, before, motor.state, motor.left, motor.right, KeyPulse(steering.key))
    }

    /** The encoder's updates during a servo pulse. */
    ghost function PulseUpdates(): nat
      reads steering`key
    {
      if steering.key == Left then 19 else 18
    }

    method UpdateMotorAndEncoder()
      requires motor.Valid()
      modifies cpu, cpu.mailbox, cpu.slot, cpu.encoder
      ensures cpu.interruptions == old(cpu.interruptions) + PWM_PERIOD_US
      ensures motor.Valid() && cpu.pins == CyclePins(old(cpu.pins), motor.state) && OnlyDrove(PWM_PERIOD_US)
      ensures cpu.encoder.updates == old(cpu.encoder.updates) + 1
      ensures cpu.trace == old(cpu.trace) + CycleTrace(old(cpu.pins), cpu.authority, motor.state, motor.left, motor.right)
    {
      motor.Update();
      cpu.encoder.Update1ms(cpu.now);
    }

    /** One servo pulse, with the motor kept running underneath. */
    method SteeringPulse()
      requires motor.Valid() && Covered() && BetweenCycles()
      requires cpu.now == loopStart + PassStart(passes) + PWM_PERIOD_US && SincePulse(passes) == STEERING_PERIOD - 1
      modifies cpu, cpu.mailbox, cpu.slot, cpu.encoder, steering`pulseUs, steering`position
      ensures cpu.interruptions == old(cpu.interruptions) + SERVO_PERIOD_US
      ensures motor.Valid() && Covered() && BetweenCycles() && Pulsed(|old(cpu.trace)|)
      ensures OnlyDrove(SERVO_PERIOD_US) && cpu.encoder.updates == old(cpu.encoder.updates) + PulseUpdates()
    {
      hide Safe, Covers, PassStart, Cpu.Caught, RxMailbox.Valid, RequestSlot.Valid, Encoder.Valid, CycleTrace, PulseTrace, PulseSeen, CycleSample;
      ghost var before, pins := Past(), cpu.pins;
      PulseIsSeen(cpu.trace, pins, cpu.authority, motor.state, motor.left, motor.right, KeyPulse(steering.key));
      CycleShape(pins.(servo := false), cpu.authority, motor.state, motor.left, motor.right);
      steering.Update();
      PulseIsSafe(old(cpu.trace), pins, cpu.authority, motor.state, motor.left, motor.right, steering.key, before, Past(), passes);
    }

    /** In every 20th pass a servo pulse. */
    method SteerIfDue()
      requires motor.Valid() && Covered() && BetweenCycles()
      requires cpu.now == loopStart + PassStart(passes) + PWM_PERIOD_US && steeringTimer == SincePulse(passes)
      modifies `steeringTimer, cpu, cpu.mailbox, cpu.slot, cpu.encoder, steering`pulseUs, steering`position
      ensures cpu.interruptions == old(cpu.interruptions) + PassLength(passes) - PWM_PERIOD_US
      ensures motor.Valid() && Covered() && BetweenCycles()
      ensures OnlyDrove(PassLength(passes) - PWM_PERIOD_US) && steeringTimer == SincePulse(passes + 1)
      ensures SincePulse(passes) == STEERING_PERIOD - 1 ==>
                Pulsed(|old(cpu.trace)|) && cpu.encoder.updates == old(cpu.encoder.updates) + PulseUpdates()
      ensures SincePulse(passes) != STEERING_PERIOD - 1 ==> cpu.encoder.updates == old(cpu.encoder.updates)
    {
      hide Covered, PassStart, SincePulse, Pulsed, BetweenCycles, Cpu.Valid;
      PassStep(passes);
      steeringTimer := steeringTimer + 1;
      if steeringTimer >= STEERING_PERIOD {
        steeringTimer := 0;
        SteeringPulse();
      }
    }

    /** What pass q does in time: a motor cycle, and a servo pulse if one is due. */
    twostate predicate Drove(q: nat)
      reads cpu`trace, motor`state, motor`left, motor`right, steering`key, cpu.encoder`updates
    {
      var n := |old(cpu.trace)|;
      && old(cpu.trace) <= cpu.trace && |cpu.trace| == n + PassLength(q) && DroveCycle(n)
      && (if SincePulse(q) == STEERING_PERIOD - 1
          then Pulsed(n + PWM_PERIOD_US) && cpu.encoder.updates == old(cpu.encoder.updates) + 1 + PulseUpdates()
          else cpu.encoder.updates == old(cpu.encoder.updates) + 1)
    }

    /** A motor cycle, and a servo pulse if one is due. */
    method DriveAndSteer()
      requires motor.Valid() && Covered() && !cpu.pins.pwmA && !cpu.pins.pwmB
      requires AtPass(passes) && steeringTimer == SincePulse(passes)
      modifies `steeringTimer, cpu, cpu.mailbox, cpu.slot, cpu.encoder, steering`pulseUs, steering`position
      ensures cpu.interruptions == old(cpu.interruptions) + 1 + PassLength(passes)
      ensures motor.Valid() && Recorded() && BetweenCycles() && Drove(passes)
      ensures AtPass(passes + 1) && steeringTimer == SincePulse(passes + 1)
      ensures cpu.authority == old(cpu.authority) && cpu.OnlyReceived()
    {
      hide Safe, Covers, PassStart, SincePulse, CycleSeen, Pulsed;
      hide Cpu.Caught, RxMailbox.Valid, RequestSlot.Valid, Encoder.Valid;
      DriveCycle();
      ghost var driven := cpu.trace;
      SteerIfDue();
      StillSeen(driven, cpu.trace, |old(cpu.trace)|, motor.state, motor.left, motor.right);
      PassStep(passes);
    }

    /** The half of a pass that takes time. */
    method Move()
      requires PartsValid() && motor.Valid() && Authorised() && Covered()
      requires AtPass(passes) && Watched(passes + 1) && Diagnosed(passes + 1) && steeringTimer == SincePulse(passes)
      modifies `steeringTimer, cpu, cpu.mailbox, cpu.slot, cpu.encoder, steering`pulseUs, steering`position
      ensures cpu.interruptions == old(cpu.interruptions) + 1 + PassLength(passes)
      ensures PartsValid() && Authorised() && Recorded() && BetweenCycles() && Drove(passes)
      ensures AtPass(passes + 1) && Watched(passes + 1) && Diagnosed(passes + 1) && steeringTimer == SincePulse(passes + 1)
      ensures cpu.OnlyReceived()
    {
      hide UdsDiag.Valid, Recorded, Obeys, Covers, PassStart, SincePulse;
      hide RxMailbox.Valid, RequestSlot.Valid, Encoder.Valid, OnTime, RequestsOnTime;
      DriveAndSteer();
      can.StaysLinked();
      RequestsLater(uds.log, old(cpu.slot.received), cpu.slot.received);
    }

    /** The second half, and the pass is over. */
    method MoveOn()
      requires PartsValid() && motor.Valid() && Authorised() && Covered()
      requires AtPass(passes) && Watched(passes + 1) && Diagnosed(passes + 1) && steeringTimer == SincePulse(passes)
      modifies `steeringTimer, `passes, cpu, cpu.mailbox, cpu.slot, cpu.encoder, steering`pulseUs, steering`position
      ensures cpu.interruptions == old(cpu.interruptions) + 1 + PassLength(old(passes))
      ensures Valid() && passes == old(passes) + 1 && Extends(Past(), old(Past())) && BetweenCycles()
      ensures Drove(old(passes)) && cpu.mailbox.taken == old(cpu.mailbox.taken)
      ensures old(DrivesOn(CALLS_PER_PASS)) ==> DrivesOn(CALLS_PER_PASS)
      ensures old(Obeying(CALLS_PER_PASS)) ==> Obeying(CALLS_PER_PASS)
    {
      hide PartsValid, Recorded, Watched, Diagnosed, Authorised, DroveCycle, Pulsed;
      Move();
      Count();
    }

    ghost method Count()
      requires PartsValid() && Authorised() && Recorded()
      requires AtPass(passes + 1) && Watched(passes + 1) && Diagnosed(passes + 1) && steeringTimer == SincePulse(passes + 1)
      modifies `passes
      ensures Valid() && passes == old(passes) + 1
    {
      hide PartsValid, Recorded, Watched, Diagnosed, Authorised, PassStart;
      passes := passes + 1;
    }

    /** One pass of the main loop.  A command that was waiting has been replaced by a newer one or carried out.  The
        interrupt may run before each watchdog call, before and after the request is taken, and in every microsecond. */
    method Pass()
      requires Valid()
      modifies `steeringTimer, `passes, cpu, cpu.mailbox, cpu.slot, cpu.encoder
      modifies motor`state, motor`duty, motor`left, motor`right, steering`key, steering`position, steering`pulseUs, can
      modifies uds, uds.bus, uds.monitors, uds.monitors.encoder, uds.monitors.steering
      ensures cpu.interruptions == old(cpu.interruptions) + CALLS_PER_PASS + 2 + PassLength(old(passes))
      ensures Valid() && passes == old(passes) + 1
      ensures Extends(Past(), old(Past())) && |old(cpu.mailbox.accepted)| <= cpu.mailbox.taken
      ensures old(cpu.mailbox.updated && uds.routine != MotorTest) && uds.routine != MotorTest ==> DrivesOn(CALLS_PER_PASS)
      ensures old(cpu.mailbox.updated && uds.routine == NoRoutine) && uds.routine == NoRoutine ==> Obeying(CALLS_PER_PASS)
      ensures Drove(old(passes)) && BetweenCycles()
    {
      hide PartsValid, Recorded, Watched, Diagnosed, Authorised, BetweenCycles, DroveCycle, Pulsed, SincePulse, PassLength;
      hide AtPass, DrivesOn, Obeying, Cpu.Valid, Covered;
      PlanCovered();
      MoveOn();
    }

    /** No wait in the whole program is too long for the encoder: on a line whose edges are more than 50 us
        apart every edge since the last reset has been counted, and the window counts half of its edges. */
    lemma EncoderCountsEveryEdge()
      requires Valid() && Spaced(cpu.encoder.line)
      ensures cpu.encoder.count == Transitions(cpu.encoder.line, cpu.encoder.resetAt, cpu.now)
      ensures cpu.encoder.windowPulses == (Transitions(cpu.encoder.line, cpu.encoder.windowAt, cpu.now) + 1) / 2
    {
      cpu.encoder.WindowCountsPulses();
    }
  }

  /** Clock, pins, motor and servo drivers. */
  method InitDrivers(line: nat -> bool, arrivals: nat -> seq<RxFrame>) returns (steering: Steering)
    ensures fresh(steering) && fresh(steering.motor) && fresh(steering.motor.cpu)
    ensures fresh(steering.motor.cpu.encoder) && fresh(steering.motor.cpu.mailbox) && fresh(steering.motor.cpu.slot)
    ensures steering.motor.Valid() && steering.motor.state == Stop
    ensures var c := steering.motor.cpu;
            && c.now == 0 && c.trace == [] && c.mailbox.callTimes == [] && c.mailbox.taken == 0 && c.authority == Idle
            && c.slot.checkedAt == 0 && !c.pins.pwmA && !c.pins.pwmB && c.encoder.line == line && c.arrivals == arrivals
  {
    var cpu := new Cpu(line, arrivals);
    var motor := new MotorDrive(cpu);
    steering := new Steering(motor);
  }

  /** The command and the diagnostics task. */
  method InitTasks(steering: Steering, angleAt: nat -> int, speedWord: nat -> nat, busy: nat -> bool)
    returns (can: ActCan, uds: UdsDiag)
    requires steering.motor.cpu.Valid() && steering.motor.duty <= 100 && steering.motor.left <= 100
    requires steering.motor.right <= 100 && steering.motor.cpu.mailbox.taken == 0
    modifies steering.motor`state, steering.motor`duty, steering.motor`left, steering.motor`right
    modifies steering.motor.cpu`pins, steering`key, steering`position, steering`pulseUs
    ensures can.steering == steering && uds.steering == steering && can.Linked() && uds.Valid()
    ensures steering.motor.state == Stop && !steering.motor.cpu.pins.pwmA && !steering.motor.cpu.pins.pwmB
    ensures uds.routine == NoRoutine && uds.log == [] && uds.bus.busy == busy
    ensures fresh(can) && fresh(uds) && fresh(uds.bus) && fresh(uds.monitors)
    ensures fresh(uds.monitors.encoder) && fresh(uds.monitors.steering)
  {
    can := new ActCan(steering);
    var bus := new Transmitter(busy);
    var monitors := new Monitors();
    uds := new UdsDiag(steering, bus, monitors, angleAt, speedWord);
  }

  /** The whole program before its first microsecond, in an arbitrary environment. */
  method PowerOn(line: nat -> bool, arrivals: nat -> seq<RxFrame>,
                 angleAt: nat -> int, speedWord: nat -> nat, busy: nat -> bool) returns (main: ActMain)
    ensures fresh(main) && main.PoweredOn()
    ensures main.cpu.encoder.line == line && main.cpu.arrivals == arrivals && main.uds.bus.busy == busy
  {
    hide Encoder.Valid, RxMailbox.Valid, RequestSlot.Valid, Transmitter.Valid, Monitors.Valid;
    var steering := InitDrivers(line, arrivals);
    var can, uds := InitTasks(steering, angleAt, speedWord, busy);
    main := new ActMain(steering, can, uds);
  }
}
