/**
 Steering servo of the ACT ECU (ACT/Servo.c): one 20 ms pulse per update, with the
 motor kept running during the low part of the pulse.
 */
module Servo {
  import opened ActCanRx
  import opened ActCpu
  import opened EncoderDriver
  import opened Motor
  import opened Sequences
  import opened UdsSlot

  const SERVO_PERIOD_US := 20000
  const SERVO_MIN_US := 900
  const SERVO_MAX_US := 1500
  const LEFT_US := 900
  const MIDDLE_US := 1200
  const RIGHT_US := 1500

  datatype Key = Null | Left | Right
  datatype Position = AtLeft | AtMiddle | AtRight

  function LimitPulse(us: nat): (r: nat)
    ensures SERVO_MIN_US <= r <= SERVO_MAX_US
    ensures SERVO_MIN_US <= us <= SERVO_MAX_US ==> r == us
    ensures us < SERVO_MIN_US ==> r == SERVO_MIN_US
    ensures us > SERVO_MAX_US ==> r == SERVO_MAX_US
  {
    if us < SERVO_MIN_US then SERVO_MIN_US else if us > SERVO_MAX_US then SERVO_MAX_US else us
  }

  function KeyPulse(key: Key): (us: nat)
    ensures SERVO_MIN_US <= us <= SERVO_MAX_US
  {
    match key case Left => LEFT_US case Right => RIGHT_US case Null => MIDDLE_US
  }

  function KeyPosition(key: Key): Position {
    match key case Left => AtLeft case Right => AtRight case Null => AtMiddle
  }

  function AbsDiff(a: nat, b: nat): nat { if a > b then a - b else b - a }

  function Repeat(t: seq<Sample>, k: nat): (r: seq<Sample>)
    ensures |r| == k * |t|
  {
    if k == 0 then [] else Repeat(t, k - 1) + t
  }

  /** The 20 ms of one servo pulse: high for exactly high microseconds, then as many whole
      motor cycles as fit into the low part, then the rest with the motor unpowered. */
  function PulseTrace(p: Pins, authority: Authority, state: MotorState, left: nat, right: nat, high: nat): seq<Sample>
    requires high <= SERVO_PERIOD_US
  {
    var low := SERVO_PERIOD_US - high;
    Held(Sample(p.(servo := true), authority), high)
    + (Repeat(CycleTrace(p.(servo := false), authority, state, left, right), low / 1000)
       + Held(Sample(CyclePins(p.(servo := false), state), authority), low % 1000))
  }

  lemma {:induction false} RepeatAt(t: seq<Sample>, k: nat, i: nat)
    requires |t| == PWM_PERIOD_US && i < k * PWM_PERIOD_US
    ensures Repeat(t, k)[i] == t[i % PWM_PERIOD_US]
  {
    if i < (k - 1) * PWM_PERIOD_US {
      RepeatAt(t, k - 1, i);
    }
  }

  /** Microsecond i of a pulse, told without the trace: the servo line, and the motor cycles underneath. */
  predicate PulseSample(pins: Pins, before: Pins, state: MotorState, left: nat, right: nat, high: nat, i: nat)
    requires high <= SERVO_PERIOD_US
  {
    var motorEnd := high + (SERVO_PERIOD_US - high) / 1000 * 1000;
    && (pins.servo <==> i < high)
    && (i < high ==> pins == before.(servo := true))
    && (high <= i < motorEnd ==> CycleSample(pins, state, left, right, (i - high) % 1000))
    && (motorEnd <= i ==> !pins.pwmA && !pins.pwmB && BrakedAndDirected(pins, state))
  }

  /** From microsecond n on the record shows a servo pulse, with the motor running underneath. */
  predicate PulseSeen(trace: seq<Sample>, n: nat, before: Pins, state: MotorState, left: nat, right: nat, high: nat)
    requires high <= SERVO_PERIOD_US
  {
    && n + SERVO_PERIOD_US <= |trace|
    && forall t :: n <= t < n + SERVO_PERIOD_US ==> PulseSample(trace[t].pins, before, state, left, right, high, t - n)
  }

  /** A servo pulse that begins with the channels unpowered. */
  ghost predicate SomePulse(trace: seq<Sample>, n: nat, state: MotorState, left: nat, right: nat, high: nat)
    requires high <= SERVO_PERIOD_US
  {
    exists before: Pins :: !before.pwmA && !before.pwmB && PulseSeen(trace, n, before, state, left, right, high)
  }

  /** From microsecond n on, count such pulses one after the other. */
  ghost predicate Pulses(trace: seq<Sample>, n: nat, count: nat, state: MotorState, left: nat, right: nat, high: nat)
    requires high <= SERVO_PERIOD_US
  {
    count > 0 ==>
      && Pulses(trace, n, count - 1, state, left, right, high)
      && SomePulse(trace, n + SERVO_PERIOD_US * (count - 1), state, left, right, high)
  }

  lemma {:induction false} PulsesStillSeen(trace: seq<Sample>, later: seq<Sample>, n: nat, count: nat, state: MotorState, left: nat, right: nat, high: nat)
    requires high <= SERVO_PERIOD_US && Pulses(trace, n, count, state, left, right, high) && trace <= later
    ensures Pulses(later, n, count, state, left, right, high)
  {
    if count > 0 {
      var m := n + SERVO_PERIOD_US * (count - 1);
      PulsesStillSeen(trace, later, n, count - 1, state, left, right, high);
      var before: Pins :| !before.pwmA && !before.pwmB && PulseSeen(trace, m, before, state, left, right, high);
      assert PulseSeen(later, m, before, state, left, right, high);
    }
  }

  lemma PulseIsSeen(trace: seq<Sample>, p: Pins, authority: Authority, state: MotorState, left: nat, right: nat, high: nat)
    requires SERVO_MIN_US <= high <= SERVO_MAX_US && !p.pwmA && !p.pwmB
    ensures |PulseTrace(p, authority, state, left, right, high)| == SERVO_PERIOD_US
    ensures PulseSeen(trace + PulseTrace(p, authority, state, left, right, high), |trace|, p, state, left, right, high)
  {
    var pulse := PulseTrace(p, authority, state, left, right, high);
    PulseShape(p, authority, state, left, right, high, 0);
    forall t | |trace| <= t < |trace| + SERVO_PERIOD_US
      ensures PulseSample((trace + pulse)[t].pins, p, state, left, right, high, t - |trace|)
    {
      PulseShape(p, authority, state, left, right, high, t - |trace|);
    }
  }

  /** What happens at each microsecond of a pulse. */
  lemma PulseShape(p: Pins, authority: Authority, state: MotorState, left: nat, right: nat, high: nat, i: nat)
    requires SERVO_MIN_US <= high <= SERVO_MAX_US && i < SERVO_PERIOD_US
    requires !p.pwmA && !p.pwmB
    ensures var t := PulseTrace(p, authority, state, left, right, high);
            && |t| == SERVO_PERIOD_US
            && t[i].authority == authority
            && PulseSample(t[i].pins, p, state, left, right, high, i)
  {
    var low := SERVO_PERIOD_US - high;
    var q := p.(servo := false);
    var cycle := CycleTrace(q, authority, state, left, right);
    CycleShape(q, authority, state, left, right);
    assert low / 1000 * 1000 + low % 1000 == low;
    var t := PulseTrace(p, authority, state, left, right, high);
    var motorEnd := high + low / 1000 * 1000;
    assert |t| == SERVO_PERIOD_US;
    if i < high {
      assert t[i] == Sample(p.(servo := true), authority);
    } else if i < motorEnd {
      RepeatAt(cycle, low / 1000, i - high);
      assert t[i] == cycle[(i - high) % 1000];
    } else {
      assert t[i] == Sample(CyclePins(q, state), authority);
    }
  }

  class Steering {
    const motor: MotorDrive

    var key: Key
    var position: Position
    var pulseUs: nat

    constructor (motor: MotorDrive)
      modifies motor.cpu`pins
      ensures this.motor == motor
      ensures key == Null && position == AtMiddle && pulseUs == MIDDLE_US
      ensures motor.cpu.pins == old(motor.cpu.pins).(servo := false)
    {
      this.motor := motor;
      key, position, pulseUs := Null, AtMiddle, LimitPulse(MIDDLE_US);
      new;
      motor.cpu.pins := motor.cpu.pins.(servo := false);
    }

    method SetTargetPulse(target: nat)
      modifies `pulseUs, `position
      ensures pulseUs == LimitPulse(target)
      ensures target == LEFT_US ==> position == AtLeft
      ensures target == MIDDLE_US ==> position == AtMiddle
      ensures target == RIGHT_US ==> position == AtRight
    {
      pulseUs := LimitPulse(target);
      var leftDiff := AbsDiff(pulseUs, LEFT_US);
      var middleDiff := AbsDiff(pulseUs, MIDDLE_US);
      var rightDiff := AbsDiff(pulseUs, RIGHT_US);
      if leftDiff <= middleDiff && leftDiff <= rightDiff {
        position := AtLeft;
      } else if rightDiff <= middleDiff && rightDiff <= leftDiff {
        position := AtRight;
      } else {
        position := AtMiddle;
      }
    }

    method SetKey(k: Key)
      modifies `key, `pulseUs, `position
      ensures key == k && pulseUs == KeyPulse(k) && position == KeyPosition(k)
    {
      key := k;
      SetTargetPulse(KeyPulse(k));
    }

    method Center()
      modifies `key, `pulseUs, `position
      ensures key == Null && pulseUs == MIDDLE_US && position == AtMiddle
    {
      key, position := Null, AtMiddle;
      pulseUs := LimitPulse(MIDDLE_US);
    }

    /** The low part of a pulse: whole motor cycles, each followed by an encoder update, then the rest. */
    method DelayLow(low: nat)
      requires motor.Valid() && low >= 1000
      modifies motor.cpu, motor.cpu.mailbox, motor.cpu.slot, motor.cpu.encoder
      ensures motor.Valid() && motor.cpu.pins == CyclePins(old(motor.cpu.pins), motor.state)
      ensures motor.cpu.encoder.updates == old(motor.cpu.encoder.updates) + low / 1000
      ensures motor.cpu.Passed(Repeat(Cycle(old(motor.cpu.pins)), low / 1000)
                               + Held(motor.cpu.Current(), low % 1000))
    {
      hide CycleTrace, Cpu.Valid;
      var us := DelayWholeCycles(low);
      motor.DelayIfAny(us);
    }

    method DelayWholeCycles(low: nat) returns (us: nat)
      requires motor.Valid() && low >= 1000
      modifies motor.cpu, motor.cpu.mailbox, motor.cpu.slot, motor.cpu.encoder
      ensures motor.Valid() && motor.cpu.pins == CyclePins(old(motor.cpu.pins), motor.state)
      ensures motor.cpu.encoder.updates == old(motor.cpu.encoder.updates) + low / 1000
      ensures us == low % 1000 && motor.cpu.Passed(Repeat(Cycle(old(motor.cpu.pins)), low / 1000))
    {
      hide CycleTrace, Encoder.Valid, RxMailbox.Valid, Cpu.Caught;
      us := low;
      ghost var k: nat, pins := 0, motor.cpu.pins;
      while us >= 1000
        invariant motor.Valid() && us + 1000 * k == low
        invariant motor.cpu.Passed(Repeat(Cycle(pins), k))
        invariant motor.cpu.encoder.updates == old(motor.cpu.encoder.updates) + k
        invariant motor.cpu.pins == if k == 0 then pins else CyclePins(pins, motor.state)
      {
        NextCycle(old(motor.cpu.trace), pins, k);
        us, k := us - 1000, k + 1;
      }
    }

    /** Cycle k + 1 of a row of equal cycles that began with these pins. */
    method NextCycle(ghost start: seq<Sample>, ghost pins: Pins, ghost k: nat)
      requires motor.Valid() && motor.cpu.trace == start + Repeat(Cycle(pins), k)
      requires motor.cpu.pins == if k == 0 then pins else CyclePins(pins, motor.state)
      modifies motor.cpu, motor.cpu.mailbox, motor.cpu.slot, motor.cpu.encoder
      ensures motor.Valid() && motor.cpu.trace == start + Repeat(Cycle(pins), k + 1)
      ensures motor.cpu.pins == CyclePins(pins, motor.state)
      ensures motor.cpu.encoder.updates == old(motor.cpu.encoder.updates) + 1
      ensures motor.cpu.encoder.resetAt == old(motor.cpu.encoder.resetAt)
      ensures motor.cpu.interruptions == old(motor.cpu.interruptions) + PWM_PERIOD_US
      ensures motor.cpu.authority == old(motor.cpu.authority) && motor.cpu.OnlyReceived()
    {
      hide CycleTrace, Cpu.Valid;
      SameCycle(pins);
      Associate(start, Repeat(Cycle(pins), k), Cycle(pins));
      UpdateMotorAndEncoder();
    }

    /** A cycle leaves the pins as the next one would set them. */
    lemma SameCycle(p: Pins)
      ensures Cycle(CyclePins(p, motor.state)) == Cycle(p)
      ensures CyclePins(CyclePins(p, motor.state), motor.state) == CyclePins(p, motor.state)
    {
    }

    method UpdateMotorAndEncoder()
      requires motor.Valid()
      modifies motor.cpu, motor.cpu.mailbox, motor.cpu.slot, motor.cpu.encoder
      ensures motor.Valid() && motor.cpu.pins == CyclePins(old(motor.cpu.pins), motor.state)
      ensures motor.cpu.encoder.updates == old(motor.cpu.encoder.updates) + 1
      ensures motor.cpu.Passed(Cycle(old(motor.cpu.pins)))
    {
      hide CycleTrace, CyclePins, Cpu.Caught, RxMailbox.Valid;
      motor.Update();
      motor.cpu.encoder.Update1ms(motor.cpu.now);
    }

    ghost function Cycle(p: Pins): seq<Sample>
      reads motor, motor.cpu
    {
      CycleTrace(p, motor.cpu.authority, motor.state, motor.left, motor.right)
    }

    /** Servo_SendOnePulse: exactly 20 ms, whatever pulse is asked for. */
    method SendOnePulse(requested: nat)
      requires motor.Valid()
      modifies motor.cpu, motor.cpu.mailbox, motor.cpu.slot, motor.cpu.encoder
      ensures motor.Valid()
      ensures motor.cpu.pins == CyclePins(old(motor.cpu.pins).(servo := false), motor.state)
      ensures motor.cpu.encoder.updates == old(motor.cpu.encoder.updates) + (SERVO_PERIOD_US - LimitPulse(requested)) / 1000
      ensures motor.cpu.Passed(PulseTrace(old(motor.cpu.pins), motor.cpu.authority, motor.state,
                                          motor.left, motor.right, LimitPulse(requested)))
    {
      hide CycleTrace, Cpu.Valid;
      var high := LimitPulse(requested);
      ghost var start, pins := motor.cpu.trace, motor.cpu.pins;
      HighPart(high);
      DelayLow(SERVO_PERIOD_US - high);
      Associate(start, Held(Sample(pins.(servo := true), motor.cpu.authority), high),
                Repeat(Cycle(pins.(servo := false)), (SERVO_PERIOD_US - high) / 1000)
                + Held(motor.cpu.Current(), (SERVO_PERIOD_US - high) % 1000));
    }

    /** The servo line is high for this time and then low. */
    method HighPart(high: nat)
      requires motor.Valid()
      modifies motor.cpu, motor.cpu.mailbox, motor.cpu.slot, motor.cpu.encoder
      ensures motor.Valid() && motor.cpu.pins == old(motor.cpu.pins).(servo := false)
      ensures motor.cpu.encoder.updates == old(motor.cpu.encoder.updates)
      ensures motor.cpu.Passed(Held(Sample(old(motor.cpu.pins).(servo := true), motor.cpu.authority), high))
    {
      motor.cpu.pins := motor.cpu.pins.(servo := true);
      motor.cpu.DelayUs(high);
      motor.cpu.pins := motor.cpu.pins.(servo := false);
    }

    /** Steering_Update: one pulse of the width that belongs to the current key. */
    method Update()
      requires motor.Valid()
      modifies `pulseUs, `position, motor.cpu, motor.cpu.mailbox, motor.cpu.slot, motor.cpu.encoder
      ensures motor.Valid() && pulseUs == KeyPulse(key) && position == KeyPosition(key)
      ensures motor.cpu.pins == CyclePins(old(motor.cpu.pins).(servo := false), motor.state)
      ensures motor.cpu.encoder.updates == old(motor.cpu.encoder.updates) + if key == Left then 19 else 18
      ensures motor.cpu.Passed(PulseTrace(old(motor.cpu.pins), motor.cpu.authority, motor.state,
                                          motor.left, motor.right, KeyPulse(key)))
    {
      SetTargetPulse(KeyPulse(key));
      SendOnePulse(pulseUs);
    }

    /** Steering_UpdateForMs: one pulse per 20 ms of the requested time, at least one. */
    method UpdateForMs(holdMs: nat) returns (ghost t: seq<Sample>)
      requires motor.Valid() && !motor.cpu.pins.pwmA && !motor.cpu.pins.pwmB
      modifies `pulseUs, `position, motor.cpu, motor.cpu.mailbox, motor.cpu.slot, motor.cpu.encoder
      ensures motor.Valid() && !motor.cpu.pins.pwmA && !motor.cpu.pins.pwmB
      ensures motor.cpu.Passed(t) && |t| == SERVO_PERIOD_US * (if holdMs < 20 then 1 else holdMs / 20)
      ensures QuietTrace(t) && Pulsed(|old(motor.cpu.trace)|, if holdMs < 20 then 1 else holdMs / 20)
    {
      t := Repeatedly(if holdMs < 20 then 1 else holdMs / 20);
    }

    /** So many pulses. */
    method Repeatedly(count: nat) returns (ghost t: seq<Sample>)
      requires motor.Valid() && !motor.cpu.pins.pwmA && !motor.cpu.pins.pwmB
      modifies `pulseUs, `position, motor.cpu, motor.cpu.mailbox, motor.cpu.slot, motor.cpu.encoder
      ensures motor.Valid() && !motor.cpu.pins.pwmA && !motor.cpu.pins.pwmB
      ensures motor.cpu.Passed(t) && |t| == SERVO_PERIOD_US * count
      ensures QuietTrace(t) && Pulsed(|old(motor.cpu.trace)|, count)
    {
      t := [];
      hide Cpu.Caught, Encoder.Valid, RxMailbox.Valid, RequestSlot.Valid, QuietTrace, Pulsed;
      StartsQuiet();
      for i := 0 to count
        invariant motor.Valid() && !motor.cpu.pins.pwmA && !motor.cpu.pins.pwmB
        invariant motor.cpu.Passed(t) && |t| == SERVO_PERIOD_US * i
        invariant Pulsed(|old(motor.cpu.trace)|, i) && QuietTrace(t)
      {
        ghost var p := PulseOnce(|old(motor.cpu.trace)|, i);
        Associate(old(motor.cpu.trace), t, p);
        QuietBoth(t, p);
        t := t + p;
      }
    }

    /** From microsecond n on, count servo pulses for the steering key. */
    ghost predicate Pulsed(n: nat, count: nat)
      reads `key, motor`state, motor`left, motor`right, motor.cpu`trace
    {
      Pulses(motor.cpu.trace, n, count, motor.state, motor.left, motor.right, KeyPulse(key))
    }

    /** Every sample has the present authority, and a stopped motor is not powered in it. */
    ghost predicate QuietTrace(t: seq<Sample>)
      reads motor`state, motor.cpu`authority
    {
      && (forall i :: 0 <= i < |t| ==> t[i].authority == motor.cpu.authority)
      && (motor.state == Stop ==> forall i :: 0 <= i < |t| ==> !t[i].pins.pwmA && !t[i].pins.pwmB)
    }

    lemma StartsQuiet()
      ensures QuietTrace([]) && Pulsed(|motor.cpu.trace|, 0)
    {
    }

    lemma QuietBoth(t: seq<Sample>, p: seq<Sample>)
      requires QuietTrace(t) && QuietTrace(p)
      ensures QuietTrace(t + p)
    {
    }

    /** One pulse after k others. */
    method PulseOnce(ghost n: nat, ghost k: nat) returns (ghost p: seq<Sample>)
      requires motor.Valid() && !motor.cpu.pins.pwmA && !motor.cpu.pins.pwmB
      requires Pulsed(n, k) && |motor.cpu.trace| == n + SERVO_PERIOD_US * k
      modifies `pulseUs, `position, motor.cpu, motor.cpu.mailbox, motor.cpu.slot, motor.cpu.encoder
      ensures motor.Valid() && !motor.cpu.pins.pwmA && !motor.cpu.pins.pwmB
      ensures motor.cpu.Passed(p) && |p| == SERVO_PERIOD_US && QuietTrace(p) && Pulsed(n, k + 1)
    {
      hide Cpu.Valid, SomePulse, QuietTrace;
      p := UpdateOnce();
      PulsesStillSeen(old(motor.cpu.trace), motor.cpu.trace, n, k, motor.state, motor.left, motor.right, KeyPulse(key));
    }

    /** One pulse, and what its trace says about power. */
    method UpdateOnce() returns (ghost p: seq<Sample>)
      requires motor.Valid() && !motor.cpu.pins.pwmA && !motor.cpu.pins.pwmB
      modifies `pulseUs, `position, motor.cpu, motor.cpu.mailbox, motor.cpu.slot, motor.cpu.encoder
      ensures motor.Valid() && !motor.cpu.pins.pwmA && !motor.cpu.pins.pwmB
      ensures motor.cpu.Passed(p) && |p| == SERVO_PERIOD_US && QuietTrace(p)
      ensures SomePulse(motor.cpu.trace, |old(motor.cpu.trace)|, motor.state, motor.left, motor.right, KeyPulse(key))
    {
      hide Cpu.Valid, PulseSeen, PulseTrace;
      p := PulseTrace(motor.cpu.pins, motor.cpu.authority, motor.state, motor.left, motor.right, KeyPulse(key));
      PulsePower(motor.cpu.pins, motor.cpu.authority, motor.state, motor.left, motor.right, KeyPulse(key));
      PulseIsSeen(motor.cpu.trace, motor.cpu.pins, motor.cpu.authority, motor.state, motor.left, motor.right, KeyPulse(key));
      Update();
    }
  }

  /** A stopped motor is not powered during a pulse. */
  lemma PulsePower(p: Pins, authority: Authority, state: MotorState, left: nat, right: nat, high: nat)
    requires SERVO_MIN_US <= high <= SERVO_MAX_US && !p.pwmA && !p.pwmB
    ensures var t := PulseTrace(p, authority, state, left, right, high);
            && |t| == SERVO_PERIOD_US
            && (forall j :: 0 <= j < |t| ==> t[j].authority == authority)
            && (state == Stop ==> forall j :: 0 <= j < |t| ==> !t[j].pins.pwmA && !t[j].pins.pwmB)
  {
    var t := PulseTrace(p, authority, state, left, right, high);
    PulseShape(p, authority, state, left, right, high, 0);
    forall j | 0 <= j < |t|
      ensures t[j].authority == authority && (state == Stop ==> !t[j].pins.pwmA && !t[j].pins.pwmB)
    {
      PulseShape(p, authority, state, left, right, high, j);
    }
  }
}
