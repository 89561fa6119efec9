/**
 Software PWM of the two drive motors (ACT/Motor.c).  Channel A drives the right
 wheel and channel B, wired the other way round, the left wheel.
 */
module Motor {
  import opened ActCanRx
  import opened ActCpu
  import opened EncoderDriver
  import opened Sequences

  const PWM_PERIOD_US := 1000
  const BASE_DUTY := 90

  datatype MotorState = Stop | Forward | Reverse

  function LimitDuty(percent: nat): nat { if percent > 100 then 100 else percent }

  /** Brake and direction pins while a cycle in the given state runs. */
  function CyclePins(p: Pins, state: MotorState): Pins {
    match state
    case Stop => p.(pwmA := false, pwmB := false, brake := true)
    case Forward => p.(pwmA := false, pwmB := false, brake := false, dirA := true, dirB := false)
    case Reverse => p.(pwmA := false, pwmB := false, brake := false, dirA := false, dirB := true)
  }

  /** One PWM period in which channel A is high for highA and channel B for highB microseconds. */
  function PwmTrace(p: Pins, authority: Authority, highA: nat, highB: nat): (t: seq<Sample>)
    ensures |t| == PWM_PERIOD_US
  {
    seq(PWM_PERIOD_US, i requires 0 <= i => Sample(p.(pwmA := i < highA, pwmB := i < highB), authority))
  }

  /** One motor update: each wheel is powered for exactly the first 10 * duty microseconds
      of its cycle when the motor runs, and not at all when it is stopped. */
  function CycleTrace(p: Pins, authority: Authority, state: MotorState, left: nat, right: nat): (t: seq<Sample>)
    ensures |t| == PWM_PERIOD_US
  {
    if state == Stop then PwmTrace(CyclePins(p, state), authority, 0, 0)
    else PwmTrace(CyclePins(p, state), authority, 10 * right, 10 * left)
  }

  /** Microsecond i of a motor cycle, told without the trace: the right wheel is on channel A and the left one
      on channel B, each for the first 10 us per percent; the brake is on exactly when the motor is stopped. */
  predicate CycleSample(pins: Pins, state: MotorState, left: nat, right: nat, i: nat) {
    && (pins.pwmA <==> state != Stop && i < 10 * right)
    && (pins.pwmB <==> state != Stop && i < 10 * left)
    && BrakedAndDirected(pins, state)
  }

  /** The brake is on exactly when the motor is stopped, and a running motor has its direction. */
  predicate BrakedAndDirected(pins: Pins, state: MotorState) {
    && (pins.brake <==> state == Stop)
    && (state == Forward ==> pins.dirA && !pins.dirB)
    && (state == Reverse ==> !pins.dirA && pins.dirB)
  }

  /** From microsecond n on the record shows a motor cycle. */
  predicate CycleSeen(trace: seq<Sample>, n: nat, state: MotorState, left: nat, right: nat) {
    && n + PWM_PERIOD_US <= |trace|
    && forall t :: n <= t < n + PWM_PERIOD_US ==> CycleSample(trace[t].pins, state, left, right, t - n)
  }

  lemma StillSeen(trace: seq<Sample>, later: seq<Sample>, n: nat, state: MotorState, left: nat, right: nat)
    requires CycleSeen(trace, n, state, left, right) && trace <= later
    ensures CycleSeen(later, n, state, left, right)
  {
  }

  lemma CycleShape(p: Pins, authority: Authority, state: MotorState, left: nat, right: nat)
    ensures var t := CycleTrace(p, authority, state, left, right);
            forall i :: 0 <= i < PWM_PERIOD_US ==>
              && CycleSample(t[i].pins, state, left, right, i)
              && t[i].authority == authority && t[i].pins.servo == p.servo
    ensures var q := CyclePins(p, state);
            !q.pwmA && !q.pwmB && BrakedAndDirected(q, state) && q.servo == p.servo
    ensures state == Stop ==> CyclePins(p, state) == p.(pwmA := false, pwmB := false, brake := true)
  {
  }

  /** A period that switches each channel off once: both on, then the longer one on, then both off. */
  function Stretches(p: Pins, authority: Authority, highA: nat, highB: nat): seq<Sample>
    requires highA <= PWM_PERIOD_US && highB <= PWM_PERIOD_US
  {
    var both := Sample(p.(pwmA := highA > 0, pwmB := highB > 0), authority);
    var onlyA := Sample(both.pins.(pwmB := false), authority);
    var onlyB := Sample(both.pins.(pwmA := false), authority);
    var off := Sample(p, authority);
    if highA == highB then Held(both, highA) + Held(off, PWM_PERIOD_US - highA)
    else if highA < highB then Held(both, highA) + (Held(onlyB, highB - highA) + Held(off, PWM_PERIOD_US - highB))
    else Held(both, highB) + (Held(onlyA, highA - highB) + Held(off, PWM_PERIOD_US - highA))
  }

  lemma PwmTraceInStretches(p: Pins, authority: Authority, highA: nat, highB: nat)
    requires highA <= PWM_PERIOD_US && highB <= PWM_PERIOD_US && !p.pwmA && !p.pwmB
    ensures PwmTrace(p, authority, highA, highB) == Stretches(p, authority, highA, highB)
  {
  }

  class MotorDrive {
    const cpu: Cpu

    var state: MotorState
    var duty: nat
    var left: nat
    var right: nat

    ghost predicate Valid()
      reads `duty, `left, `right, cpu`now, cpu`interruptions, cpu`trace, cpu.encoder, cpu.mailbox, cpu.slot
    {
      cpu.Valid() && duty <= 100 && left <= 100 && right <= 100
    }

    constructor (cpu: Cpu)
      requires cpu.Valid()
      modifies cpu`pins
      ensures this.cpu == cpu && Valid()
      ensures state == Stop && duty == left == right == BASE_DUTY
      ensures cpu.pins == old(cpu.pins).(pwmA := false, pwmB := false, brake := true)
    {
      this.cpu := cpu;
      state, duty, left, right := MotorState.Stop, BASE_DUTY, BASE_DUTY, BASE_DUTY;
      new;
      Brake();
    }

    method Forward()
      modifies `state
      ensures state == MotorState.Forward
    {
      state := MotorState.Forward;
    }

    method Reverse()
      modifies `state
      ensures state == MotorState.Reverse
    {
      state := MotorState.Reverse;
    }

    /** MotorControl_Stop and MotorControl_Brake: power off at once, brake on. */
    method Brake()
      modifies `state, cpu`pins
      ensures state == Stop
      ensures cpu.pins == old(cpu.pins).(pwmA := false, pwmB := false, brake := true)
    {
      state := Stop;
      cpu.pins := cpu.pins.(pwmA := false, pwmB := false);
      cpu.pins := cpu.pins.(brake := true);
    }

    method Coast()
      modifies `state, cpu`pins
      ensures state == Stop
      ensures cpu.pins == old(cpu.pins).(pwmA := false, pwmB := false, brake := false)
    {
      state := Stop;
      cpu.pins := cpu.pins.(pwmA := false, pwmB := false);
      cpu.pins := cpu.pins.(brake := false);
    }

    method SetDutyPercent(percent: nat)
      modifies `duty, `left, `right
      ensures duty == left == right == LimitDuty(percent)
    {
      var limited := LimitDuty(percent);
      duty, left, right := limited, limited, limited;
    }

    /** Different wheel duties leave the base duty as it was. */
    method SetWheelDutyPercent(leftPercent: nat, rightPercent: nat)
      modifies `duty, `left, `right
      ensures left == LimitDuty(leftPercent) && right == LimitDuty(rightPercent)
      ensures duty == if left == right then left else old(duty)
    {
      left, right := LimitDuty(leftPercent), LimitDuty(rightPercent);
      if left == right {
        duty := left;
      }
    }

    /** Motor_SendPwmOneCycleChannels: 1000 us, whatever the duties. */
    method SendPwmOneCycleChannels(percentA: nat, percentB: nat)
      requires Valid()
      modifies cpu, cpu.mailbox, cpu.slot, cpu.encoder
      ensures Valid() && cpu.pins == old(cpu.pins).(pwmA := false, pwmB := false)
      ensures cpu.Passed(PwmTrace(cpu.pins, cpu.authority, 10 * LimitDuty(percentA), 10 * LimitDuty(percentB)))
      ensures cpu.encoder.updates == old(cpu.encoder.updates)
    {
      hide PwmTrace, Stretches;
      var dutyA, dutyB := LimitDuty(percentA), LimitDuty(percentB);
      var highA, highB := PWM_PERIOD_US * dutyA / 100, PWM_PERIOD_US * dutyB / 100;
      assert highA == 10 * dutyA && highB == 10 * dutyB;
      cpu.pins := cpu.pins.(pwmA := false, pwmB := false);
      PwmTraceInStretches(cpu.pins, cpu.authority, highA, highB);
      SendHighTimes(highA, highB);
    }

    /** The cycle with these high times. */
    method SendHighTimes(highA: nat, highB: nat)
      requires Valid() && highA <= PWM_PERIOD_US && highB <= PWM_PERIOD_US && !cpu.pins.pwmA && !cpu.pins.pwmB
      modifies cpu, cpu.mailbox, cpu.slot, cpu.encoder
      ensures Valid() && cpu.pins == old(cpu.pins) && cpu.encoder.updates == old(cpu.encoder.updates)
      ensures cpu.Passed(Stretches(cpu.pins, cpu.authority, highA, highB))
    {
      hide Cpu.Valid;
      cpu.pins := cpu.pins.(pwmA := highA > 0, pwmB := highB > 0);
      if highA == highB {
        HoldThenLow(highA, PWM_PERIOD_US - highA);
      } else if highA < highB {
        HoldShorterThenLonger(highA, highB, true);
      } else {
        HoldShorterThenLonger(highB, highA, false);
      }
    }

    /** The channels have different high times: drop one after the shorter, the other after the longer time. */
    method HoldShorterThenLonger(shorter: nat, longer: nat, shorterIsA: bool)
      requires Valid() && shorter < longer <= PWM_PERIOD_US
      modifies cpu, cpu.mailbox, cpu.slot, cpu.encoder
      ensures Valid() && cpu.pins == old(cpu.pins).(pwmA := false, pwmB := false)
      ensures cpu.encoder.updates == old(cpu.encoder.updates)
      ensures var p := old(cpu.pins);
              var then' := if shorterIsA then p.(pwmA := false) else p.(pwmB := false);
              cpu.Passed(Held(Sample(p, cpu.authority), shorter)
                         + (Held(Sample(then', cpu.authority), longer - shorter)
                            + Held(Sample(cpu.pins, cpu.authority), PWM_PERIOD_US - longer)))
    {
      hide Cpu.Valid;
      ghost var start, first := cpu.trace, cpu.Current();
      DelayIfAny(shorter);
      if shorterIsA {
        cpu.pins := cpu.pins.(pwmA := false);
      } else {
        cpu.pins := cpu.pins.(pwmB := false);
      }
      ghost var second := cpu.Current();
      HoldThenLow(longer - shorter, PWM_PERIOD_US - longer);
      Associate(start, Held(first, shorter),
                Held(second, longer - shorter) + Held(cpu.Current(), PWM_PERIOD_US - longer));
    }

    /** Keep the channels as they are, then low: the tail common to the three cases of the cycle. */
    method HoldThenLow(high: nat, low: nat)
      requires Valid()
      modifies cpu, cpu.mailbox, cpu.slot, cpu.encoder
      ensures Valid() && cpu.pins == old(cpu.pins).(pwmA := false, pwmB := false)
      ensures cpu.Passed(Held(old(cpu.Current()), high) + Held(cpu.Current(), low))
      ensures cpu.encoder.updates == old(cpu.encoder.updates)
    {
      hide Cpu.Valid;
      DelayIfAny(high);
      cpu.pins := cpu.pins.(pwmA := false, pwmB := false);
      DelayIfAny(low);
    }

    method DelayIfAny(us: nat)
      requires Valid()
      modifies cpu`now, cpu`interruptions, cpu`trace, cpu.mailbox, cpu.slot, cpu.encoder
      ensures Valid() && cpu.Passed(Held(cpu.Current(), us)) && cpu.encoder.updates == old(cpu.encoder.updates)
    {
      if us > 0 {
        cpu.DelayUs(us);
      }
    }

    /** MotorControl_Update: exactly one millisecond of the current state. */
    method Update()
      requires Valid()
      modifies cpu, cpu.mailbox, cpu.slot, cpu.encoder
      ensures Valid() && cpu.pins == CyclePins(old(cpu.pins), state) && BrakedAndDirected(cpu.pins, state)
      ensures cpu.Passed(CycleTrace(old(cpu.pins), cpu.authority, state, left, right))
      ensures cpu.encoder.updates == old(cpu.encoder.updates)
    {
      hide Cpu.Valid;
      match state {
        case Forward =>
          cpu.pins := cpu.pins.(brake := false);
          cpu.pins := cpu.pins.(dirA := true, dirB := false);
          SendPwmOneCycleChannels(right, left);
        case Reverse =>
          cpu.pins := cpu.pins.(brake := false);
          cpu.pins := cpu.pins.(dirA := false, dirB := true);
          SendPwmOneCycleChannels(right, left);
        case Stop =>
          cpu.pins := cpu.pins.(pwmA := false, pwmB := false);
          cpu.pins := cpu.pins.(brake := true);
          cpu.DelayUs(PWM_PERIOD_US);
          assert Held(cpu.Current(), PWM_PERIOD_US) == PwmTrace(cpu.pins, cpu.authority, 0, 0);
      }
    }
  }
}
