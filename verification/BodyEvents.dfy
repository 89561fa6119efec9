/**
 Collision events of the BODY ECU (BODY/BodyCan.c): one pending event is offered to the CAN
 controller until it is taken; every report is covered by an event.
 */
module BodyEvents {
  import opened Bytes

  const EVENT_ID := 0x210
  const EVENT_DLC := 5
  const WRAP: nat := 0x1_0000_0000

  /** A collision is reported at a time, or the pending event is offered to the CAN controller. */
  datatype EventOp = Report(at: nat) | Offer(taken: bool)

  /** The time of the first report that has not been sent. */
  function Pending(ops: seq<EventOp>): Option<nat> {
    if ops == [] then None
    else
      var before := Pending(ops[..|ops| - 1]);
      match ops[|ops| - 1]
      case Report(at) => if before.Some? then before else Some(at)
      case Offer(taken) => if taken then None else before
  }

  /** The times sent so far. */
  function SentTimes(ops: seq<EventOp>): seq<nat> {
    if ops == [] then []
    else
      var before := ops[..|ops| - 1];
      match ops[|ops| - 1]
      case Report(_) => SentTimes(before)
      case Offer(taken) => SentTimes(before) + if taken && Pending(before).Some? then [Pending(before).value] else []
  }

  function Reports(ops: seq<EventOp>): seq<nat> {
    if ops == [] then []
    else Reports(ops[..|ops| - 1]) + if ops[|ops| - 1].Report? then [ops[|ops| - 1].at] else []
  }

  /** Events are merged, never invented: each one sent or pending stands for a report of its own. */
  lemma {:induction false} EventsStandForReports(ops: seq<EventOp>)
    ensures |SentTimes(ops)| + (if Pending(ops).Some? then 1 else 0) <= |Reports(ops)|
    ensures forall t :: t in SentTimes(ops) ==> t in Reports(ops)
    ensures Pending(ops).Some? ==> Pending(ops).value in Reports(ops)
  {
    if ops != [] {
      EventsStandForReports(ops[..|ops| - 1]);
    }
  }

  /** While there has been no report nothing is sent or pending, and from the first one on something is. */
  lemma {:induction false} NothingIffNoReport(ops: seq<EventOp>)
    ensures SentTimes(ops) == [] && Pending(ops) == None <==> Reports(ops) == []
  {
    if ops != [] {
      NothingIffNoReport(ops[..|ops| - 1]);
    }
  }

  /** No report is lost: once the controller has taken an event after it, an event that is not younger than
      the report has been sent since. */
  lemma {:induction false} ReportIsSent(before: seq<EventOp>, at: nat, after: seq<EventOp>)
    requires forall k :: 0 <= k < |after| ==> after[k] != Offer(true)
    ensures var ops := before + [Report(at)] + after;
            var event := if Pending(before).Some? then Pending(before).value else at;
            && Pending(ops) == Some(event)
            && SentTimes(ops + [Offer(true)]) == SentTimes(before) + [event]
            && SentTimes(ops) == SentTimes(before)
  {
    var ops := before + [Report(at)] + after;
    assert (ops + [Offer(true)])[..|ops|] == ops;
    if after == [] {
      assert ops[..|before|] == before && ops == before + [Report(at)];
    } else {
      var last := |after| - 1;
      ReportIsSent(before, at, after[..last]);
      assert ops[..|ops| - 1] == before + [Report(at)] + after[..last];
    }
  }

  lemma OneMoreOp(ops: seq<EventOp>, op: EventOp)
    ensures (ops + [op])[..|ops|] == ops
  {
  }

  /** What a pass does: the pending event is offered, and taken if the controller is free; then a press may be
      reported. */
  function PassOps(ops: seq<EventOp>, free: bool, press: Option<nat>): seq<EventOp> {
    WithReport(if Pending(ops).Some? then ops + [Offer(free)] else ops, press)
  }

  function WithReport(ops: seq<EventOp>, press: Option<nat>): seq<EventOp> {
    if press.Some? then ops + [Report(press.value)] else ops
  }

  /** Whether the controller is free in a pass, and when a press is reported in it. */
  datatype Passed = Passed(free: bool, press: Option<nat>)

  function RunOps(ops: seq<EventOp>, passes: seq<Passed>): seq<EventOp> {
    if passes == [] then ops
    else
      var last := passes[|passes| - 1];
      PassOps(RunOps(ops, passes[..|passes| - 1]), last.free, last.press)
  }

  lemma OpStep(ops: seq<EventOp>, op: EventOp)
    ensures Pending(ops + [op]) == (match op case Report(at) => if Pending(ops).Some? then Pending(ops) else Some(at)
                                             case Offer(taken) => if taken then None else Pending(ops))
    ensures SentTimes(ops + [op]) == if op == Offer(true) && Pending(ops).Some? then SentTimes(ops) + [Pending(ops).value]
                                     else SentTimes(ops)
  {
    OneMoreOp(ops, op);
    assert SentTimes(ops) + [] == SentTimes(ops);
  }

  /** While the controller is busy a pending event waits, with its time. */
  lemma {:induction false} EventWaits(ops: seq<EventOp>, passes: seq<Passed>)
    requires Pending(ops).Some? && forall i :: 0 <= i < |passes| ==> !passes[i].free
    ensures Pending(RunOps(ops, passes)) == Pending(ops) && SentTimes(RunOps(ops, passes)) == SentTimes(ops)
  {
    if passes != [] {
      var before, last := RunOps(ops, passes[..|passes| - 1]), passes[|passes| - 1];
      EventWaits(ops, passes[..|passes| - 1]);
      OpStep(before, Offer(last.free));
      if last.press.Some? {
        OpStep(before + [Offer(last.free)], Report(last.press.value));
      }
    }
  }

  /** Every press is on the bus by the first later pass whose offer finds the controller free: in that pass, and
      not before, the one event that covers it is sent, with the time of the press or of an earlier one that
      has not been sent either. */
  lemma {:induction false} PressIsSent(ops: seq<EventOp>, first: Passed, busy: seq<Passed>, next: Passed)
    requires first.press.Some? && next.free && forall i :: 0 <= i < |busy| ==> !busy[i].free
    ensures var reported := PassOps(ops, first.free, first.press);
            var waiting := RunOps(reported, busy);
            var event := Pending(reported);
            && event.Some? && Pending(waiting) == event && SentTimes(waiting) == SentTimes(reported)
            && SentTimes(PassOps(waiting, next.free, next.press)) == SentTimes(reported) + [event.value]
            && event == (if Pending(ops).Some? && !first.free then Pending(ops) else first.press)
  {
    if Pending(ops).Some? {
      OpStep(ops, Offer(first.free));
      OpStep(ops + [Offer(first.free)], Report(first.press.value));
    } else {
      OpStep(ops, Report(first.press.value));
    }
    var reported := PassOps(ops, first.free, first.press);
    EventWaits(reported, busy);
    var waiting := RunOps(reported, busy);
    OpStep(waiting, Offer(true));
    if next.press.Some? {
      OpStep(waiting + [Offer(true)], Report(next.press.value));
    }
  }

  function OffersMade(ops: seq<EventOp>): nat {
    if ops == [] then 0 else OffersMade(ops[..|ops| - 1]) + if ops[|ops| - 1].Offer? then 1 else 0
  }

  lemma OneMorePass(ops: seq<EventOp>, run: seq<Passed>, p: Passed)
    ensures RunOps(ops, run + [p]) == PassOps(RunOps(ops, run), p.free, p.press)
  {
    assert (run + [p])[..|run|] == run;
  }

  lemma {:induction false} RunInTwo(ops: seq<EventOp>, run: seq<Passed>, k: nat)
    requires k <= |run|
    ensures RunOps(ops, run) == RunOps(RunOps(ops, run[..k]), run[k..])
  {
    if k < |run| {
      var last := |run| - 1;
      RunInTwo(ops, run[..last], k);
      assert run[..last][..k] == run[..k] && run[..last][k..] == run[k..][..last - k];
    } else {
      assert run[..k] == run;
    }
  }

  lemma {:induction false} SentStays(ops: seq<EventOp>, run: seq<Passed>)
    ensures SentTimes(ops) <= SentTimes(RunOps(ops, run))
  {
    if run != [] {
      var before, last := RunOps(ops, run[..|run| - 1]), run[|run| - 1];
      SentStays(ops, run[..|run| - 1]);
      OpStep(before, Offer(last.free));
      if last.press.Some? {
        OpStep(before, Report(last.press.value));
        OpStep(before + [Offer(last.free)], Report(last.press.value));
      }
    }
  }

  /** In any run: the press of pass k is covered by an event that has not been sent after pass k, and that is sent
      in pass m, the first one after k whose offer finds the controller free. */
  lemma PressReachesBus(ops: seq<EventOp>, run: seq<Passed>, k: nat, m: nat)
    requires k < m < |run| && run[k].press.Some? && run[m].free && forall i :: k < i < m ==> !run[i].free
    ensures var after := RunOps(ops, run[..k + 1]);
            var sent := SentTimes(after);
            && Pending(after).Some? && SentTimes(RunOps(ops, run[..m])) == sent
            && SentTimes(RunOps(ops, run[..m + 1])) == sent + [Pending(after).value]
            && sent + [Pending(after).value] <= SentTimes(RunOps(ops, run))
            && (Pending(after) == run[k].press || Pending(after) == Pending(RunOps(ops, run[..k])))
  {
    hide RunOps, PassOps, Pending, SentTimes;
    StepOfRun(ops, run, k);
    StepOfRun(ops, run, m);
    BetweenInRun(ops, run, k, m);
    PressIsSent(RunOps(ops, run[..k]), run[k], run[k + 1..m], run[m]);
    RunInTwo(ops, run, m + 1);
    SentStays(RunOps(ops, run[..m + 1]), run[m + 1..]);
  }

  lemma StepOfRun(ops: seq<EventOp>, run: seq<Passed>, k: nat)
    requires k < |run|
    ensures RunOps(ops, run[..k + 1]) == PassOps(RunOps(ops, run[..k]), run[k].free, run[k].press)
  {
    OneMorePass(ops, run[..k], run[k]);
    assert run[..k + 1] == run[..k] + [run[k]];
  }

  lemma BetweenInRun(ops: seq<EventOp>, run: seq<Passed>, k: nat, m: nat)
    requires k < m <= |run|
    ensures RunOps(ops, run[..m]) == RunOps(RunOps(ops, run[..k + 1]), run[k + 1..m])
  {
    RunInTwo(ops, run[..m], k + 1);
    assert run[..m][..k + 1] == run[..k + 1] && run[..m][k + 1..] == run[k + 1..m];
  }

  /** Only a report adds to the reports. */
  lemma ReportsStep(ops: seq<EventOp>, op: EventOp)
    ensures Reports(ops + [op]) == if op.Report? then Reports(ops) + [op.at] else Reports(ops)
  {
    OneMoreOp(ops, op);
    assert Reports(ops) + [] == Reports(ops);
  }

  /** A reader of the event gets its time back. */
  lemma EventIsRead(time: nat)
    requires time < WRAP
    ensures var f := EventFrame(time);
            f.id == 0x210 && f.dlc == 5 && |f.data| == 5 && f.data[0] == 1 && Word32(f.data[1..]) == time
  {
    Word32RoundTrip(time);
    assert EventFrame(time).data[1..] == BigEndian32(time);
  }

  function EventFrame(time: nat): CanFrame
    requires time < WRAP
  {
    CanFrame(EVENT_ID, true, EVENT_DLC, [1] + BigEndian32(time))
  }

  class EventSender {
    // Whether the k-th offer finds the controller busy.
    const busy: nat -> bool

    var timeMs: nat
    var eventPending: bool
    var eventTimeMs: nat
    var offers: nat
    var frames: seq<CanFrame>
    ghost var ops: seq<EventOp>

    ghost predicate Valid()
      reads this
    {
      && timeMs < WRAP && eventTimeMs < WRAP
      && Pending(ops) == (if eventPending then Some(eventTimeMs) else None)
      && offers == OffersMade(ops)
      && FramesSent(frames, SentTimes(ops))
    }

    constructor (busy: nat -> bool)
      ensures Valid() && ops == [] && this.busy == busy && timeMs == 0 && offers == 0 && !eventPending && frames == []
    {
      this.busy := busy;
      timeMs, eventPending, eventTimeMs, offers, frames, ops := 0, false, 0, 0, [], [];
    }

    /** Offer the pending collision event, and keep it until it has been taken. */
    method SendPendingCollisionEventIfNeeded()
      requires Valid()
      modifies `eventPending, `offers, `frames, `ops
      ensures Valid() && Offered()
    {
      if !eventPending {
        return;
      }
      var taken := !busy(offers);
      offers := offers + 1;
      OneMoreOp(ops, Offer(taken));
      if taken {
        frames := frames + [EventFrame(eventTimeMs)];
        eventPending := false;
      }
      ops := ops + [Offer(taken)];
    }

    /** A pending event has been offered: a free controller has it, with its time, and a busy one leaves it
        pending.  Without a pending event nothing is offered. */
    twostate predicate Offered()
      requires old(eventTimeMs) < WRAP
      reads `ops, `offers, `eventPending, `frames, `eventTimeMs
    {
      && ops == (if old(eventPending) then old(ops) + [Offer(!busy(old(offers)))] else old(ops))
      && offers == old(offers) + (if old(eventPending) then 1 else 0)
      && eventPending == (old(eventPending) && busy(old(offers)))
      && frames == (if old(eventPending) && !busy(old(offers)) then old(frames) + [EventFrame(old(eventTimeMs))] else old(frames))
      && eventTimeMs == old(eventTimeMs)
    }

    method UpdateClock()
      requires Valid()
      modifies `timeMs
      ensures Valid() && timeMs == (old(timeMs) + 1) % WRAP
    {
      timeMs := (timeMs + 1) % WRAP;
    }

    /** A collision: the event keeps the time of the first report that has not been sent. */
    method ReportCollisionOccurred()
      requires Valid()
      modifies `eventPending, `eventTimeMs, `ops
      ensures Valid() && eventPending && ops == old(ops) + [Report(timeMs)]
      ensures eventTimeMs == if old(eventPending) then old(eventTimeMs) else timeMs
    {
      OneMoreOp(ops, Report(timeMs));
      if !eventPending {
        eventTimeMs := timeMs;
      }
      eventPending := true;
      ops := ops + [Report(timeMs)];
    }
  }

  /** The frames on the bus are those of the times sent. */
  ghost predicate FramesSent(frames: seq<CanFrame>, times: seq<nat>) {
    |frames| == |times| && forall k :: 0 <= k < |frames| ==> times[k] < WRAP && frames[k] == EventFrame(times[k])
  }
}
