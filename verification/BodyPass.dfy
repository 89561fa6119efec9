/**
 What one pass of BODY's main loop does, told from the state before it (BODY/Cpu0_Main.c).
 */
module BodyPass {
  import opened BodyBlink
  import opened BodyButton
  import opened BodyCollision
  import opened BodyCpu
  import opened BodyDiag
  import opened BodyDtc
  import opened BodyEvents
  import opened BodyLamps
  import opened BodyRx
  import opened BodyTester
  import opened BodyUds
  import opened Bytes
  import opened Sequences
  import opened UdsReader
  import opened UdsSlot
  import DtcMonitor

  const LOOP_US := 1000

  /** The state before a pass: turn signals, warning, number of the next measurement, record and trouble code; the
      commands that the pass finds accepted, how many of them had been taken, and the calls so far; the request
      that it takes; and what has been sent and answered. */
  datatype Snap = Snap(
    blink: Blink, warn: Warn, next: nat, trace: seq<Sample>, books: Books,
    arrived: seq<Accepted>, taken: nat, calls: nat, request: Option<Received>,
    ops: seq<EventOp>, eventOffers: nat, frames: seq<CanFrame>, pending: bool, eventTime: nat, timeMs: nat,
    offers: nat, responses: seq<CanFrame>, stable: bool)

  /** The command that is in force in the pass, and whether it is new in it. */
  function InForce(s: Snap): Option<Command> {
    if s.arrived == [] then None
    else
      var a := s.arrived[|s.arrived| - 1];
      if s.calls + 1 - a.calls < 200 && a.cmd.mode == MODE_REMOTE then Some(a.cmd) else None
  }

  predicate IsNew(s: Snap) { |s.arrived| > s.taken }

  /** The turn signals after the command part: a new command is carried out, an old one leaves them, and without
      one they are off. */
  function Commanded(s: Snap): Blink {
    match InForce(s)
    case None => Blink(false, false, false, 0)
    case Some(c) => if IsNew(s) then Step(s.blink, Turn(c.turn as int)) else s.blink
  }

  /** The lamps that are lit in this blink phase. */
  function LightsIn(s: Snap, b: Blink): Lights {
    match InForce(s)
    case None => AllDark
    case Some(c) => Lights(c.headlamp == ON, c.brake == ON, b.left && b.lit, b.right && b.lit)
  }

  function EffectOn(s: Snap): Effect { EffectIn(s.request) }

  /** What the sensor reports for the request. */
  function MeasuredBy(s: Snap, echo: nat -> Echo): Option<nat> {
    if EffectOn(s) == MeasureDistance then echo(s.next).distance else None
  }

  function NextAfterRequest(s: Snap): nat { if EffectOn(s) == MeasureDistance then s.next + 1 else s.next }

  /** How long the request takes. */
  function RequestUs(s: Snap, echo: nat -> Echo, toneUs: nat): nat {
    match EffectOn(s)
    case SoundBuzzer => toneUs
    case LightLamps => TEST_US
    case MeasureDistance => echo(s.next).us
    case _ => 0
  }

  /** The warning after the command part, and after the request. */
  function Warned(s: Snap): Warn {
    match InForce(s)
    case None => WarnOff
    case Some(c) => if IsNew(s) then Switched(s.warn, c.warning == ON) else s.warn
  }

  function WarnedAndMeasured(s: Snap, echo: nat -> Echo): Warn {
    if EffectOn(s) == MeasureDistance then Diagnosed(Warned(s), MeasuredBy(s, echo)) else Warned(s)
  }

  /** What the millisecond of the warning leads to: its state, the number of the next measurement, and the time
      it takes. */
  datatype Sensed = Sensed(warn: Warn, next: nat, us: nat)

  function Sensing(w: Warn, echo: nat -> Echo, k: nat): Sensed
    requires w.level <= 3
  {
    if Measures(w) then Sensed(Ticked(w, echo(k).distance), k + 1, echo(k).us) else Sensed(Ticked(w, None), k, 0)
  }

  function SensedBy(s: Snap, echo: nat -> Echo): Sensed
    requires s.warn.level <= 3
  {
    LevelStays(s, echo);
    Sensing(WarnedAndMeasured(s, echo), echo, NextAfterRequest(s))
  }

  lemma LevelStays(s: Snap, echo: nat -> Echo)
    requires s.warn.level <= 3
    ensures WarnedAndMeasured(s, echo).level <= 3
  {
  }

  predicate Checks(s: Snap) { s.books.timer >= CHECK_PERIOD_MS }

  /** With the check of the sensor, if it is due. */
  function CheckedBy(s: Snap, echo: nat -> Echo): Sensed
    requires s.warn.level <= 3
  {
    var u := SensedBy(s, echo);
    if Checks(s) then Sensed(Diagnosed(u.warn, echo(u.next).distance), u.next + 1, u.us + echo(u.next).us) else u
  }

  /** What the check finds. */
  function CheckOk(s: Snap, echo: nat -> Echo): bool
    requires s.warn.level <= 3
  {
    Checks(s) ==> echo(SensedBy(s, echo).next).distance.Some?
  }

  /** The trouble code after the request: only a clear changes it. */
  predicate CodeAfterRequest(s: Snap, b: Books) {
    if EffectOn(s) == ClearCodes
    then b.history == s.books.history + [DtcMonitor.Clear] && b.timer == s.books.timer && b.fault == s.books.fault
         && b.status == s.books.status & !DtcMonitor.HISTORY_BIT && !b.blinks
    else b == s.books
  }

  /** And after the millisecond. */
  ghost predicate CodePassed(s: Snap, b: Books, ok: bool) {
    exists mid :: CodeAfterRequest(s, mid) && Advances(mid, b, ok)
  }

  /** What the request is told: the state after the command part and the effect of the request. */
  function ViewIn(s: Snap, echo: nat -> Echo): (v: View)
    ensures v.distanceMm < 0x1_0000
  {
    var m := MeasuredBy(s, echo);
    var c := InForce(s);
    var status := if EffectOn(s) == ClearCodes then s.books.status & !DtcMonitor.HISTORY_BIT else s.books.status;
    View(m.Some?, Millimetres(m), if c.Some? then c.value.turn else 0, s.stable, if c.Some? then c.value.warning else 0,
         status as int)
  }

  /** The response to the request is offered once, and dropped by a busy controller. */
  function Responses(s: Snap, echo: nat -> Echo, busy: nat -> bool): seq<CanFrame> {
    match Asked(s.request)
    case None => s.responses
    case Some(uds) =>
      if busy(s.offers) then s.responses else s.responses + [ResponseFrame(Answer(uds, ViewIn(s, echo)))]
  }

  /** The record of the pass: the lamp test or the lamps of the command during the request, these during the
      sensors' time, and then the lamps of the millisecond until the next pass. */
  function RecordUntil(s: Snap, echo: nat -> Echo, toneUs: nat, us: nat): seq<Sample> {
    var lights := LightsIn(s, Commanded(s));
    s.trace + Held(Sample(if EffectOn(s) == LightLamps then AllLit else lights, s.calls + 1), RequestUs(s, echo, toneUs))
    + Held(Sample(lights, s.calls + 1), us)
  }

  function RecordOf(s: Snap, echo: nat -> Echo, toneUs: nat): seq<Sample>
    requires s.warn.level <= 3
  {
    RecordUntil(s, echo, toneUs, CheckedBy(s, echo).us)
    + Held(Sample(LightsIn(s, Step(Commanded(s), Tick)), s.calls + 1), LOOP_US)
  }

  /** A pending event is offered: a free controller has it, with its time, and a busy one leaves it pending.
      Then a press is reported, with the time of the pass. */
  predicate Sends(s: Snap, free: bool) { s.pending && free }

  function EventTime(s: Snap): nat { (s.timeMs + 1) % WRAP }

  // ---------- Facts about it ----------

  /** A blink that is not requested and a warning that is off forget their timers in the next millisecond. */
  lemma OffForgets(b: Blink, timerMs: nat, w: Warn, echo: nat -> Echo, k: nat)
    requires w.level <= 3
    ensures !b.left && !b.right ==> Step(b.(timerMs := timerMs), Tick) == Step(b, Tick)
    ensures !w.lampOn ==> Sensing(w, echo, k) == Sensed(WarnOff, k, 0)
  {
  }

  lemma WithoutCommandOff(s: Snap, echo: nat -> Echo)
    ensures InForce(s).None? ==>
              !Warned(s).lampOn && !WarnedAndMeasured(s, echo).lampOn && !Commanded(s).left && !Commanded(s).right
  {
  }

  /** Pass after pass without a new command the blink phase only counts on. */
  lemma OldCommandOnlyTicks(s: Snap)
    requires InForce(s).Some? && !IsNew(s)
    ensures Step(Commanded(s), Tick) == Step(s.blink, Tick)
  {
  }

  /** The response to a request in a pass, if the controller is free, tells the tester the distance measured for
      it, the turn signal and the warning of the command in force, the button, the status of the trouble code, or
      why the request is refused. */
  lemma PassAnswers(s: Snap, echo: nat -> Echo, busy: nat -> bool)
    requires Asked(s.request).Some?
    ensures var uds := Asked(s.request).value;
            var c := InForce(s);
            var cleared := uds == [0x14, 0xFF, 0xFF, 0xFF];
            var status := if cleared then s.books.status & !DtcMonitor.HISTORY_BIT else s.books.status;
            var distance := if EffectOn(s) == MeasureDistance then echo(s.next).distance else None;
            var view := View(distance.Some?, Millimetres(distance), if c.Some? then c.value.turn else 0, s.stable,
                             if c.Some? then c.value.warning else 0, status as int);
            && (busy(s.offers) ==> Responses(s, echo, busy) == s.responses)
            && (!busy(s.offers) ==>
                  && |Responses(s, echo, busy)| == |s.responses| + 1 && s.responses <= Responses(s, echo, busy)
                  && var f := Responses(s, echo, busy)[|s.responses|];
                     f.id == 0x718 && Told(uds, view, ReadFrame(f)))
  {
    var uds := Asked(s.request).value;
    if |uds| == 4 {
      assert uds == [uds[0], uds[1], uds[2], uds[3]];
    }
    ResponseTells(uds, ViewIn(s, echo));
  }
}
