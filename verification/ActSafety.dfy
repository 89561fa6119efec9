/**
 When the motor of the ACT ECU may be powered (ACT/Cpu0_Main.c), over the whole record of a run.

 The watchdog counts calls, not time: ten calls per pass, but every 20th pass also
 spends 20 ms on a servo pulse.  Its "200 ms" are therefore up to 400 ms.
 */
module ActSafety {
  import opened ActCan
  import opened ActCanRx
  import opened ActCpu
  import opened Bytes
  import opened Motor
  import opened Servo
  import opened SingleFrame
  import opened UdsDiag
  import opened UdsService
  import opened UdsSlot

  const CALLS_PER_PASS := 10
  const STEERING_PERIOD := 20
  const STOP_BOUND_US := 400_000
  const TEST_BOUND_US := 2_000_000
  const TEST_HIGH_US := 300

  // ---------- The schedule ----------

  /** Time at which pass q of the main loop begins, counted from the beginning of the loop. */
  function PassStart(q: nat): nat {
    PWM_PERIOD_US * q + SERVO_PERIOD_US * (q / STEERING_PERIOD)
  }

  /** Passes since the last servo pulse, after q passes. */
  function SincePulse(q: nat): nat { q % STEERING_PERIOD }

  /** How long pass q takes. */
  function PassLength(q: nat): nat {
    if SincePulse(q) == STEERING_PERIOD - 1 then PWM_PERIOD_US + SERVO_PERIOD_US else PWM_PERIOD_US
  }

  lemma PassStep(q: nat)
    ensures PassStart(q + 1) == PassStart(q) + PassLength(q)
    ensures SincePulse(q + 1) == if SincePulse(q) == STEERING_PERIOD - 1 then 0 else SincePulse(q) + 1
    ensures SincePulse(q) < STEERING_PERIOD
  {
  }

  /** Time of the k-th watchdog call, counted from the beginning of the loop. */
  function CallTime(k: nat): nat { PassStart(k / CALLS_PER_PASS) }

  lemma PassStartMonotone(p: nat, q: nat)
    requires p <= q
    ensures PassStart(p) <= PassStart(q)
  {
  }

  /** The 2000 watchdog calls after any call take exactly 400 ms: 200 motor cycles and 10 servo pulses. */
  lemma TwoThousandCalls(k: nat)
    ensures CallTime(k + TIMEOUT_TICKS) == CallTime(k) + STOP_BOUND_US
  {
    assert (k + 2000) / 10 == k / 10 + 200;
    assert (k / 10 + 200) / 20 == k / 10 / 20 + 10;
  }

  /** A thousand passes take exactly two seconds. */
  lemma ThousandPasses(q: nat)
    ensures PassStart(q + MOTOR_TEST_CALLS) == PassStart(q) + TEST_BOUND_US
  {
    assert (q + 1000) / 20 == q / 20 + 50;
  }

  /** A command accepted between calls c - 1 and c is dropped by call c + 1999, at most 400 ms later;
      the bound is met exactly by a command that arrives right after the last call of a pass. */
  lemma StopLatency(c: nat, time: nat)
    requires c > 0 ==> CallTime(c - 1) <= time
    ensures CallTime(c + TIMEOUT_TICKS - 1) <= time + STOP_BOUND_US
    ensures c > 0 && time == CallTime(c - 1) ==> CallTime(c + TIMEOUT_TICKS - 1) == time + STOP_BOUND_US
  {
    if c > 0 {
      TwoThousandCalls(c - 1);
    } else {
      assert CallTime(1999) == 379_000;
    }
  }

  // ---------- The licence ----------

  function Max(a: nat, b: nat): nat { if a >= b then a else b }

  predicate Powered(s: Sample) { s.pins.pwmA || s.pins.pwmB }

  /** What a run has received and done: the commands accepted, the request frames that the calls of the
      diagnostics task took, and when the main loop began. */
  datatype History = History(accepted: seq<Accepted>, requests: seq<Option<Received>>, loopStart: nat)

  predicate InPass(t: nat, q: nat, loopStart: nat) {
    loopStart + PassStart(q) <= t < loopStart + PassStart(q + 1)
  }

  /** After the diagnostics call of pass q the motor test is running, by the requests taken until then. */
  predicate TestRuns(requests: seq<Option<Received>>, q: nat) {
    q < |requests| && StateAfter(requests[..q + 1]).routine == MotorTest
  }

  /** The first 300 us of a motor cycle: of the one with which the pass begins, or of one during the low
      part of a servo pulse, whose high part depends on the steering key. */
  predicate EarlyInCycle(off: int) {
    0 <= off < TEST_HIGH_US
    || exists key :: off >= PWM_PERIOD_US + KeyPulse(key) && (off - PWM_PERIOD_US - KeyPulse(key)) % 1000 < TEST_HIGH_US
  }

  /** Why the motor may be powered at microsecond t.  The brake is off, and either the motor test is running
      in the pass of t, and the motor turns forward in the first 300 us of a cycle; or a command accepted less than 400 ms before
      (counted from the beginning of the loop, if it came during start-up) asks for motion in the direction
      in which the motor turns. */
  ghost predicate Licensed(s: Sample, t: nat, h: History) {
    !s.pins.brake &&
    match s.authority
    case Idle => false
    case ByTest =>
      && s.pins.dirA && !s.pins.dirB
      && exists q :: TestRuns(h.requests, q) && InPass(t, q, h.loopStart)
                     && EarlyInCycle(t - h.loopStart - PassStart(q))
    case ByCommand(a) =>
      && a in h.accepted && Moves(a.cmd)
      && (s.pins.dirA <==> a.cmd.gear == GEAR_D) && (s.pins.dirB <==> a.cmd.gear == GEAR_R)
      && a.time <= t < Max(a.time, h.loopStart) + STOP_BOUND_US
  }

  /** Every powered microsecond of a run is licensed. */
  ghost predicate Safe(trace: seq<Sample>, h: History) {
    forall t :: 0 <= t < |trace| && Powered(trace[t]) ==> Licensed(trace[t], t, h)
  }

  predicate Extends(later: History, h: History) {
    h.accepted <= later.accepted && h.requests <= later.requests && h.loopStart == later.loopStart
  }

  lemma LicensedLater(s: Sample, t: nat, h: History, later: History)
    requires Licensed(s, t, h) && Extends(later, h)
    ensures Licensed(s, t, later)
  {
    hide EarlyInCycle, InPass, TestRuns, PassStart;
    if s.authority.ByTest? {
      var q :| TestRuns(h.requests, q) && InPass(t, q, h.loopStart) && EarlyInCycle(t - h.loopStart - PassStart(q));
      TestRunsLater(h.requests, later.requests, q);
    }
  }

  lemma TestRunsLater(requests: seq<Option<Received>>, later: seq<Option<Received>>, q: nat)
    requires TestRuns(requests, q) && requests <= later
    ensures TestRuns(later, q)
  {
    assert later[..q + 1] == requests[..q + 1];
  }

  lemma SafeExtend(trace: seq<Sample>, more: seq<Sample>, h: History, later: History)
    requires Safe(trace, h) && Extends(later, h)
    requires forall i :: 0 <= i < |more| && Powered(more[i]) ==> Licensed(more[i], |trace| + i, later)
    ensures Safe(trace + more, later)
  {
    hide Licensed, Extends;
    forall t | 0 <= t < |trace + more| && Powered((trace + more)[t])
      ensures Licensed((trace + more)[t], t, later)
    {
      if t < |trace| {
        LicensedLater(trace[t], t, h, later);
      } else {
        assert (trace + more)[t] == more[t - |trace|];
      }
    }
  }

  // ---------- What covers a pass ----------

  /** The motor state, and why it is what it is, allow driving from this time until pass q ends. */
  ghost predicate Covers(authority: Authority, state: MotorState, left: nat, right: nat, h: History, q: nat, from: nat) {
    state == Stop ||
    match authority
    case Idle => false
    case ByTest => state == Forward && left == right == TEST_DUTY && TestRuns(h.requests, q)
    case ByCommand(a) =>
      && a in h.accepted && Drive(a.cmd) == state && a.time <= from
      && h.loopStart + PassStart(q + 1) <= Max(a.time, h.loopStart) + STOP_BOUND_US
  }

  lemma CoversLater(authority: Authority, state: MotorState, left: nat, right: nat, h: History, later: History,
                    q: nat, from: nat, then': nat)
    requires Covers(authority, state, left, right, h, q, from) && Extends(later, h) && from <= then'
    ensures Covers(authority, state, left, right, later, q, then')
  {
    if authority.ByTest? && state != Stop {
      TestRunsLater(h.requests, later.requests, q);
    }
  }

  /** The cycle with which pass q begins. */
  lemma CycleLicensed(p: Pins, authority: Authority, state: MotorState, left: nat, right: nat, h: History, q: nat)
    requires Covers(authority, state, left, right, h, q, h.loopStart + PassStart(q))
    ensures var t := CycleTrace(p, authority, state, left, right);
            var from := h.loopStart + PassStart(q);
            forall i :: 0 <= i < |t| && Powered(t[i]) ==> Licensed(t[i], from + i, h)
  {
    PassStep(q);
    var t := CycleTrace(p, authority, state, left, right);
    forall i | 0 <= i < |t| && Powered(t[i])
      ensures Licensed(t[i], h.loopStart + PassStart(q) + i, h)
    {
      if authority.ByTest? {
        assert i < TEST_HIGH_US && InPass(h.loopStart + PassStart(q) + i, q, h.loopStart);
      }
    }
  }

  /** The servo pulse that ends pass q. */
  lemma PulseLicensed(p: Pins, authority: Authority, state: MotorState, left: nat, right: nat, key: Key, h: History, q: nat)
    requires !p.pwmA && !p.pwmB && SincePulse(q) == STEERING_PERIOD - 1
    requires Covers(authority, state, left, right, h, q, h.loopStart + PassStart(q) + PWM_PERIOD_US)
    ensures var t := PulseTrace(p, authority, state, left, right, KeyPulse(key));
            var from := h.loopStart + PassStart(q) + PWM_PERIOD_US;
            && |t| == SERVO_PERIOD_US
            && forall i :: 0 <= i < |t| && Powered(t[i]) ==> Licensed(t[i], from + i, h)
  {
    PassStep(q);
    PulseShape(p, authority, state, left, right, KeyPulse(key), 0);
    var t := PulseTrace(p, authority, state, left, right, KeyPulse(key));
    forall i | 0 <= i < |t| && Powered(t[i])
      ensures Licensed(t[i], h.loopStart + PassStart(q) + PWM_PERIOD_US + i, h)
    {
      PulseShape(p, authority, state, left, right, KeyPulse(key), i);
      if authority.ByTest? {
        EarlyInPulse(i, key);
        assert InPass(h.loopStart + PassStart(q) + PWM_PERIOD_US + i, q, h.loopStart);
      }
    }
  }

  /** A licensed cycle keeps the record safe and leaves the rest of the pass covered. */
  lemma CycleIsSafe(trace: seq<Sample>, p: Pins, authority: Authority, state: MotorState, left: nat, right: nat,
                    h: History, later: History, q: nat)
    requires Safe(trace, h) && Extends(later, h) && |trace| == h.loopStart + PassStart(q)
    requires Covers(authority, state, left, right, h, q, |trace|)
    ensures Safe(trace + CycleTrace(p, authority, state, left, right), later)
    ensures Covers(authority, state, left, right, later, q, |trace| + PWM_PERIOD_US)
  {
    hide Safe, Licensed, Covers, PassStart, CycleTrace;
    CoversLater(authority, state, left, right, h, later, q, |trace|, |trace|);
    CycleLicensed(p, authority, state, left, right, later, q);
    SafeExtend(trace, CycleTrace(p, authority, state, left, right), h, later);
    CoversLater(authority, state, left, right, h, later, q, |trace|, |trace| + PWM_PERIOD_US);
  }

  lemma PulseIsSafe(trace: seq<Sample>, p: Pins, authority: Authority, state: MotorState, left: nat, right: nat, key: Key,
                    h: History, later: History, q: nat)
    requires Safe(trace, h) && Extends(later, h) && |trace| == h.loopStart + PassStart(q) + PWM_PERIOD_US
    requires !p.pwmA && !p.pwmB && SincePulse(q) == STEERING_PERIOD - 1
    requires Covers(authority, state, left, right, h, q, |trace|)
    ensures Safe(trace + PulseTrace(p, authority, state, left, right, KeyPulse(key)), later)
    ensures Covers(authority, state, left, right, later, q, |trace| + SERVO_PERIOD_US)
  {
    hide Safe, Licensed, Covers, PassStart, PulseTrace;
    CoversLater(authority, state, left, right, h, later, q, |trace|, |trace|);
    PulseLicensed(p, authority, state, left, right, key, later, q);
    SafeExtend(trace, PulseTrace(p, authority, state, left, right, KeyPulse(key)), h, later);
    CoversLater(authority, state, left, right, h, later, q, |trace|, |trace| + SERVO_PERIOD_US);
  }

  lemma EarlyInPulse(i: nat, key: Key)
    requires KeyPulse(key) <= i && (i - KeyPulse(key)) % 1000 < TEST_HIGH_US
    ensures EarlyInCycle(PWM_PERIOD_US + i)
  {
    assert PWM_PERIOD_US + i >= PWM_PERIOD_US + KeyPulse(key);
  }

  /** A command that the watchdog still honours covers the pass that begins now, servo pulse included. */
  lemma FreshCovers(a: Accepted, left: nat, right: nat, h: History, callTimes: seq<nat>, pass: nat, from: nat)
    requires a in h.accepted && Moves(a.cmd) && a.time <= from
    requires |callTimes| == CALLS_PER_PASS * (pass + 1) && a.calls <= |callTimes| < a.calls + TIMEOUT_TICKS
    requires OnTime(callTimes, h.loopStart)
    requires a.calls > 0 ==> callTimes[a.calls - 1] <= a.time
    ensures Covers(ByCommand(a), Drive(a.cmd), left, right, h, pass, from)
  {
    var since := if a.time >= h.loopStart then a.time - h.loopStart else 0;
    StopLatency(a.calls, since);
    PassStartMonotone(pass + 1, (a.calls + TIMEOUT_TICKS - 1) / CALLS_PER_PASS);
  }

  ghost function Times(n: nat, now: nat): seq<nat> { seq(n, _ => now) }

  ghost predicate OnTime(callTimes: seq<nat>, loopStart: nat) {
    forall k :: 0 <= k < |callTimes| ==> callTimes[k] == loopStart + CallTime(k)
  }

  /** The call times stay on schedule when the ten calls of a pass are added. */
  lemma OnSchedule(before: seq<nat>, pass: nat, loopStart: nat)
    requires |before| == CALLS_PER_PASS * pass && OnTime(before, loopStart)
    ensures var after := before + Times(CALLS_PER_PASS, loopStart + PassStart(pass));
            |after| == CALLS_PER_PASS * (pass + 1) && OnTime(after, loopStart)
  {
    var after := before + Times(CALLS_PER_PASS, loopStart + PassStart(pass));
    forall k | 0 <= k < |after|
      ensures after[k] == loopStart + CallTime(k)
    {
      if k >= |before| {
        assert k / CALLS_PER_PASS == pass;
      }
    }
  }

  // ---------- The motor test ----------

  predicate AsksForTest(r: Received) {
    |r.data| == 8 && ParseRequest(r.data) == Some([SID_ROUTINE, 0x01, 0x01, 0x00])
  }

  /** The frame that the call of pass p took was received before that call, and after the call before. */
  predicate TakenOnTime(r: Received, p: nat, received: seq<Received>, loopStart: nat) {
    && r in received && r.time <= loopStart + PassStart(p)
    && (p > 0 ==> loopStart + PassStart(p - 1) <= r.time)
  }

  predicate RequestsOnTime(requests: seq<Option<Received>>, received: seq<Received>, loopStart: nat) {
    forall p :: 0 <= p < |requests| && requests[p].Some? ==> TakenOnTime(requests[p].value, p, received, loopStart)
  }

  lemma InputsPrefix(log: seq<Option<Received>>, n: nat)
    requires n <= |log|
    ensures Inputs(log)[..n] == Inputs(log[..n])
  {
  }

  /** A running motor test goes back to a start request in an extended session at most 998 passes before. */
  lemma TestWasRequested(requests: seq<Option<Received>>, q: nat) returns (p: nat)
    requires TestRuns(requests, q)
    ensures p <= q < p + MOTOR_TEST_CALLS - 1
    ensures requests[p].Some? && AsksForTest(requests[p].value)
    ensures StateAfter(requests[..p]).session == SESSION_EXTENDED && StateAfter(requests[..p]).routine == NoRoutine
  {
    var log := requests[..q + 1];
    ResultImpliesStart(AtPowerOn, Inputs(log));
    p := q + 1 - Elapsed(StateAfter(log));
    InputsPrefix(log, p);
    assert log[..p] == requests[..p];
    StartRequest(StateAfter(requests[..p]), Inputs(log)[p]);
    assert Inputs(log)[p] == Input(requests[p]);
  }

  lemma StartRequest(c: Control, request: Option<seq<byte>>)
    requires Starts(c, request, MotorTest)
    ensures request == Some([SID_ROUTINE, 0x01, 0x01, 0x00])
    ensures c.session == SESSION_EXTENDED && c.routine == NoRoutine
  {
    var uds := request.value;
    assert uds == [uds[0], uds[1], uds[2], uds[3]];
  }

  /** Power of the motor test goes back to a request frame received less than two seconds before (counted
      from the beginning of the loop, if it came during start-up). */
  lemma TestPowerIsRequested(s: Sample, t: nat, h: History, received: seq<Received>) returns (r: Received)
    requires Licensed(s, t, h) && s.authority.ByTest? && RequestsOnTime(h.requests, received, h.loopStart)
    ensures r in received && AsksForTest(r) && r.time <= t < Max(r.time, h.loopStart) + TEST_BOUND_US
  {
    var q :| TestRuns(h.requests, q) && InPass(t, q, h.loopStart) && EarlyInCycle(t - h.loopStart - PassStart(q));
    var p := TestWasRequested(h.requests, q);
    r := h.requests[p].value;
    assert TakenOnTime(r, p, received, h.loopStart);
    TestBound(p, q, t, r.time, h.loopStart);
  }

  lemma TestBound(p: nat, q: nat, t: nat, time: nat, loopStart: nat)
    requires p <= q < p + MOTOR_TEST_CALLS - 1 && InPass(t, q, loopStart)
    requires time <= loopStart + PassStart(p) && (p > 0 ==> loopStart + PassStart(p - 1) <= time)
    ensures time <= t < Max(time, loopStart) + TEST_BOUND_US
  {
    PassStartMonotone(p, q);
    PassStartMonotone(q + 1, p + 999);
    if p > 0 {
      ThousandPasses(p - 1);
    } else {
      assert PassStart(999) == 1_979_000;
    }
  }
}
