/**
 How long a fault must last before ACT stores it (ACT/UdsDiag.c).  A fault timer
 saturates at the detection threshold; every 3000th update evaluates it; three
 failing evaluations in a row confirm.
 */
module DtcLatency {
  import opened DtcMonitor

  const MONITOR_PERIOD_MS := 3000
  const ENCODER_NO_SIGNAL_MS := 2000
  const STEERING_MISMATCH_MS := 1000

  datatype Monitor = Monitor(faultMs: nat, periodMs: nat, failCount: nat, status: bv8)

  /** One call of UdsDiag_Update1ms as one code's monitor sees it. */
  function Tick(m: Monitor, active: bool, threshold: nat): Monitor {
    var faultMs := if !active then 0 else if m.faultMs < threshold then m.faultMs + 1 else m.faultMs;
    if m.periodMs + 1 < MONITOR_PERIOD_MS then m.(faultMs := faultMs, periodMs := m.periodMs + 1)
    else
      var (status, failCount) := Evaluate(m.status, m.failCount, faultMs >= threshold);
      Monitor(faultMs, 0, failCount, status)
  }

  /** n calls during which the fault is, or is not, present. */
  function Run(m: Monitor, active: bool, n: nat, threshold: nat): Monitor {
    if n == 0 then m else Tick(Run(m, active, n - 1, threshold), active, threshold)
  }

  /** ClearDiagnosticInformation as one monitor sees it. */
  function Cleared(m: Monitor): Monitor {
    m.(failCount := 0, status := m.status & !HISTORY_BIT)
  }

  predicate Stored(status: bv8) { status & HISTORY_BIT != 0 }

  /** Nothing of an earlier fault is left in the monitor. */
  predicate Clean(m: Monitor) {
    m.faultMs == 0 && m.failCount == 0 && m.periodMs < MONITOR_PERIOD_MS && !Stored(m.status)
  }

  /** The call, counted from the onset of a lasting fault, whose evaluation is the first to fail. */
  function FirstFailingCall(m: Monitor, threshold: nat): nat
    requires m.periodMs < MONITOR_PERIOD_MS
  {
    var e := MONITOR_PERIOD_MS - m.periodMs;
    if e >= threshold then e else e + MONITOR_PERIOD_MS
  }

  function FailingEvaluations(m: Monitor, threshold: nat, n: nat): nat
    requires m.periodMs < MONITOR_PERIOD_MS
  {
    var first := FirstFailingCall(m, threshold);
    if n < first then 0 else (n - first) / MONITOR_PERIOD_MS + 1
  }

  /** Closed form of a fault that has lasted for n calls. */
  lemma {:induction false} LastingFault(m: Monitor, threshold: nat, n: nat)
    requires Clean(m) && 0 < threshold < MONITOR_PERIOD_MS
    ensures var r := Run(m, true, n, threshold);
            && r.faultMs == Saturate(n, threshold)
            && r.periodMs == (m.periodMs + n) % MONITOR_PERIOD_MS
            && r.failCount == Saturate(FailingEvaluations(m, threshold, n), CONFIRM_FAIL_COUNT)
            && (Stored(r.status) <==> FailingEvaluations(m, threshold, n) >= CONFIRM_FAIL_COUNT)
  {
    hide Tick, Stored, FailingEvaluations;
    FailingEvaluationsStep(m, threshold, n);
    if n > 0 {
      LastingFault(m, threshold, n - 1);
      TickInFault(Run(m, true, n - 1, threshold), threshold);
    }
  }

  /** The evaluations that fail are those from the first one on. */
  lemma FailingEvaluationsStep(m: Monitor, threshold: nat, n: nat)
    requires m.periodMs < MONITOR_PERIOD_MS && 0 < threshold < MONITOR_PERIOD_MS
    ensures n == 0 ==> FailingEvaluations(m, threshold, n) == 0
    ensures n > 0 ==>
              FailingEvaluations(m, threshold, n)
              == FailingEvaluations(m, threshold, n - 1)
                 + if (m.periodMs + n) % MONITOR_PERIOD_MS == 0 && n >= threshold then 1 else 0
    ensures n > 0 && (m.periodMs + n) % MONITOR_PERIOD_MS == 0 && n < threshold ==> FailingEvaluations(m, threshold, n) == 0
  {
    if n > 0 {
      var first := FirstFailingCall(m, threshold);
      if n > first {
        var k := n - first;
        assert (m.periodMs + n) % MONITOR_PERIOD_MS == k % MONITOR_PERIOD_MS;
        assert k / MONITOR_PERIOD_MS == (k - 1) / MONITOR_PERIOD_MS + if k % MONITOR_PERIOD_MS == 0 then 1 else 0;
      }
    }
  }

  /** One more call of a lasting fault. */
  lemma TickInFault(r: Monitor, threshold: nat)
    requires r.periodMs < MONITOR_PERIOD_MS && r.faultMs <= threshold
    ensures var t := Tick(r, true, threshold);
            var fails := r.periodMs + 1 == MONITOR_PERIOD_MS && Saturate(r.faultMs + 1, threshold) == threshold;
            && t.faultMs == Saturate(r.faultMs + 1, threshold)
            && t.periodMs == (r.periodMs + 1) % MONITOR_PERIOD_MS
            && (fails ==> t.failCount == Saturate(r.failCount + 1, CONFIRM_FAIL_COUNT)
                          && (Stored(t.status) <==> Stored(r.status) || r.failCount + 1 >= CONFIRM_FAIL_COUNT))
            && (r.periodMs + 1 < MONITOR_PERIOD_MS ==> t.failCount == r.failCount && t.status == r.status)
            && (r.periodMs + 1 == MONITOR_PERIOD_MS && !fails ==>
                  t.failCount == 0 && (Stored(t.status) <==> Stored(r.status)))
  {
    EvaluateStored(r.status, r.failCount, true);
    EvaluateStored(r.status, r.failCount, false);
  }

  lemma EvaluateStored(status: bv8, failCount: nat, fault: bool)
    ensures Stored(Evaluate(status, failCount, fault).0)
            <==> Stored(status) || (fault && failCount + 1 >= CONFIRM_FAIL_COUNT)
  {
  }

  /** A lasting fault is stored at one definite call, between threshold + 6000 and threshold + 8999
      calls after its onset, and not before. */
  lemma ConfirmationLatency(m: Monitor, threshold: nat, n: nat)
    requires Clean(m) && 0 < threshold < MONITOR_PERIOD_MS
    ensures var at := FirstFailingCall(m, threshold) + 2 * MONITOR_PERIOD_MS;
            && (Stored(Run(m, true, n, threshold).status) <==> n >= at)
            && threshold + 6000 <= at <= threshold + 8999
  {
    LastingFault(m, threshold, n);
  }

  lemma EncoderConfirmation(m: Monitor, n: nat)
    requires Clean(m)
    ensures n >= 10999 ==> Stored(Run(m, true, n, ENCODER_NO_SIGNAL_MS).status)
    ensures n < 8000 ==> !Stored(Run(m, true, n, ENCODER_NO_SIGNAL_MS).status)
  {
    ConfirmationLatency(m, ENCODER_NO_SIGNAL_MS, n);
  }

  lemma SteeringConfirmation(m: Monitor, n: nat)
    requires Clean(m)
    ensures n >= 9999 ==> Stored(Run(m, true, n, STEERING_MISMATCH_MS).status)
    ensures n < 7000 ==> !Stored(Run(m, true, n, STEERING_MISMATCH_MS).status)
  {
    ConfirmationLatency(m, STEERING_MISMATCH_MS, n);
  }

  /** Both ends of the latency are reached, depending on where in the period the fault begins. */
  lemma LatencyIsTight(threshold: nat)
    requires 0 < threshold < MONITOR_PERIOD_MS
    ensures var early := Monitor(0, MONITOR_PERIOD_MS - threshold, 0, 0);
            var late := Monitor(0, (MONITOR_PERIOD_MS - threshold + 1) % MONITOR_PERIOD_MS, 0, 0);
            && Stored(Run(early, true, threshold + 6000, threshold).status)
            && (threshold > 1 ==> !Stored(Run(late, true, threshold + 8998, threshold).status))
  {
    ConfirmationLatency(Monitor(0, MONITOR_PERIOD_MS - threshold, 0, 0), threshold, threshold + 6000);
    ConfirmationLatency(Monitor(0, (MONITOR_PERIOD_MS - threshold + 1) % MONITOR_PERIOD_MS, 0, 0),
                        threshold, threshold + 8998);
  }

  /** Once the fault is gone nothing more can be stored, and the counter is zero within one period. */
  lemma {:induction false} Recovery(m: Monitor, threshold: nat, k: nat)
    requires 0 < threshold && m.periodMs < MONITOR_PERIOD_MS
    ensures var r := Run(m, false, k, threshold);
            && (Stored(r.status) <==> Stored(m.status))
            && r.periodMs == (m.periodMs + k) % MONITOR_PERIOD_MS
            && (r.failCount == 0 || r.failCount == m.failCount)
            && (k >= MONITOR_PERIOD_MS - m.periodMs ==> r.failCount == 0)
  {
    if k > 0 {
      Recovery(m, threshold, k - 1);
      var r := Run(m, false, k - 1, threshold);
      EvaluateStored(r.status, r.failCount, false);
    }
  }

  /** A single fault of n calls followed by any time without fault is stored iff it lasted long enough. */
  lemma SingleFaultStoredIff(m: Monitor, threshold: nat, n: nat, k: nat)
    requires Clean(m) && 0 < threshold < MONITOR_PERIOD_MS
    ensures Stored(Run(Run(m, true, n, threshold), false, k, threshold).status)
            <==> n >= FirstFailingCall(m, threshold) + 2 * MONITOR_PERIOD_MS
  {
    LastingFault(m, threshold, n);
    ConfirmationLatency(m, threshold, n);
    Recovery(Run(m, true, n, threshold), threshold, k);
  }

  /** The rule is about evaluations, not about an unbroken fault: a fault that vanishes for one call
      right after each evaluation is stored as well, although no stretch of it reaches 3000 calls. */
  lemma InterruptedFaultIsStoredToo()
    ensures var m := Monitor(0, 0, 0, 0);
            var once := (x: Monitor) => Run(Tick(x, false, ENCODER_NO_SIGNAL_MS), true, 2999, ENCODER_NO_SIGNAL_MS);
            Stored(once(once(once(m))).status)
  {
    OneInterruptedPeriod(Monitor(0, 0, 0, 0));
    var m1 := Run(Tick(Monitor(0, 0, 0, 0), false, ENCODER_NO_SIGNAL_MS), true, 2999, ENCODER_NO_SIGNAL_MS);
    OneInterruptedPeriod(m1);
    var m2 := Run(Tick(m1, false, ENCODER_NO_SIGNAL_MS), true, 2999, ENCODER_NO_SIGNAL_MS);
    OneInterruptedPeriod(m2);
  }

  lemma OneInterruptedPeriod(m: Monitor)
    requires m.periodMs == 0
    ensures var r := Run(Tick(m, false, ENCODER_NO_SIGNAL_MS), true, 2999, ENCODER_NO_SIGNAL_MS);
            && r.periodMs == 0
            && r.failCount == Saturate(m.failCount + 1, CONFIRM_FAIL_COUNT)
            && (Stored(r.status) <==> Stored(m.status) || m.failCount + 1 >= CONFIRM_FAIL_COUNT)
  {
    var t := Tick(m, false, ENCODER_NO_SIGNAL_MS);
    WithinPeriod(t, 2998);
    var r := Run(t, true, 2998, ENCODER_NO_SIGNAL_MS);
    EvaluateStored(r.status, r.failCount, true);
  }

  lemma {:induction false} WithinPeriod(m: Monitor, n: nat)
    requires m.faultMs == 0 && m.periodMs + n < MONITOR_PERIOD_MS
    ensures Run(m, true, n, ENCODER_NO_SIGNAL_MS)
            == m.(faultMs := Saturate(n, ENCODER_NO_SIGNAL_MS), periodMs := m.periodMs + n)
  {
    if n > 0 {
      WithinPeriod(m, n - 1);
    }
  }
}
