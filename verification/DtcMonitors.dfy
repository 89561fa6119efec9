/** The two trouble codes of ACT and the period timer they share (ACT/UdsDiag.c). */
module DtcMonitors {
  import opened DtcLatency
  import opened DtcMonitor
  import opened DtcRule

  class Monitors {
    const encoder: FaultMonitor
    const steering: FaultMonitor

    var periodMs: nat

    ghost predicate Valid()
      reads this, encoder, steering
    {
      && encoder != steering && encoder.Valid() && steering.Valid()
      && encoder.threshold == ENCODER_NO_SIGNAL_MS && steering.threshold == STEERING_MISMATCH_MS
      && |steering.inputs| == |encoder.inputs| && periodMs == |encoder.inputs| % MONITOR_PERIOD_MS
    }

    constructor ()
      ensures Valid() && fresh(encoder) && fresh(steering) && encoder.inputs == [] && periodMs == 0
    {
      encoder := new FaultMonitor(ENCODER_NO_SIGNAL_MS);
      steering := new FaultMonitor(STEERING_MISMATCH_MS);
      periodMs := 0;
    }

    /** ClearDiagnosticInformation: both codes, before the call in progress is observed. */
    method ClearStored()
      requires Valid()
      modifies encoder`status, encoder`failCount, encoder`history, encoder`cleared
      modifies steering`status, steering`failCount, steering`history, steering`cleared
      ensures Valid() && encoder.cleared && steering.cleared
      ensures encoder.history == old(encoder.history) + [Clear] && steering.history == old(steering.history) + [Clear]
    {
      encoder.ClearStored();
      steering.ClearStored();
    }

    /** One millisecond: both faults are observed, and every 3000th call evaluates them. */
    method Observe(noSignal: bool, mismatch: bool)
      requires Valid()
      modifies this, encoder, steering
      ensures Valid() && !encoder.cleared && !steering.cleared
      ensures encoder.inputs == old(encoder.inputs) + [Input(noSignal, old(encoder.cleared))]
      ensures steering.inputs == old(steering.inputs) + [Input(mismatch, old(steering.cleared))]
    {
      PeriodStep(|encoder.inputs|);
      var evaluate := periodMs + 1 >= MONITOR_PERIOD_MS;
      encoder.Observe(noSignal, evaluate);
      steering.Observe(mismatch, evaluate);
      periodMs := if evaluate then 0 else periodMs + 1;
    }
  }
}
