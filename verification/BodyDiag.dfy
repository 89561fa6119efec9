/**
 Diagnostic requests of the BODY ECU (BODY/BodyCan.c): one per call of the 1 ms task, carried out
 at once, in any session and whatever the commands say.
 */
module BodyDiag {
  import opened BodyButton
  import opened BodyCan
  import opened BodyCollision
  import opened BodyCpu
  import opened BodyDtc
  import opened BodyLamps
  import opened BodyRx
  import opened BodyUds
  import opened Bytes
  import opened Sequences
  import opened SingleFrame
  import opened UdsSlot
  import DtcMonitor

  /** The request in a frame taken out of the slot. */
  function Asked(r: Option<Received>): (request: Option<seq<byte>>)
    ensures request.Some? ==> 1 <= |request.value| <= 7
  {
    if r.Some? && |r.value.data| == 8 then ParseRequest(r.value.data) else None
  }

  /** What such a frame makes the dispatcher do. */
  function EffectIn(r: Option<Received>): Effect {
    if Asked(r).Some? then EffectOf(Asked(r).value) else Nothing
  }

  function ResponseFrame(payload: seq<byte>): CanFrame
    requires 1 <= |payload| <= 7
  {
    CanFrame(RESPONSE_ID, true, DLC_8_BYTES, Pack(payload, 8))
  }

  class BodyDiag {
    const can: BodyCan
    const lamps: Lamps := can.lamps
    const cpu: BodyCpu := can.lamps.cpu
    const button: CollisionButton
    const dtc: UltrasonicDtc
    // Whether the k-th response finds the controller busy, and how long the test tone takes.
    const busy: nat -> bool
    const toneUs: nat

    var offers: nat
    var responses: seq<CanFrame>
    // For every call the frame it took out of the slot.
    ghost var log: seq<Option<Received>>

    constructor (can: BodyCan, button: CollisionButton, dtc: UltrasonicDtc, busy: nat -> bool, toneUs: nat)
      ensures this.can == can && this.button == button && this.dtc == dtc && this.busy == busy && this.toneUs == toneUs
      ensures log == [] && responses == [] && offers == 0
    {
      this.can, this.button, this.dtc, this.busy, this.toneUs := can, button, dtc, busy, toneUs;
      offers, responses, log := 0, [], [];
    }

    /** Offer a response once; a busy controller drops it. */
    method Respond(payload: seq<byte>)
      requires 1 <= |payload| <= 7
      modifies `offers, `responses
      ensures offers == old(offers) + 1
      ensures responses == if busy(old(offers)) then old(responses) else old(responses) + [ResponseFrame(payload)]
    {
      var frame := SendUdsPayload(payload);
      if !busy(offers) {
        responses := responses + [frame.value];
      }
      offers := offers + 1;
    }

    /** The lamps while a request is carried out. */
    function LightsFor(e: Effect): Lights
      reads cpu`lights
    {
      if e == LightLamps then AllLit else cpu.lights
    }

    /** How long a request takes, if a measurement for it is the next one. */
    function UsFor(e: Effect): nat
      reads cpu`measurements
    {
      match e
      case SoundBuzzer => toneUs
      case LightLamps => TEST_US
      case MeasureDistance => cpu.echo(cpu.measurements).us
      case _ => 0
    }

    /** What the sensor reports for the request, if it asks for a measurement. */
    function MeasuredFor(e: Effect): Option<nat>
      reads cpu`measurements
    {
      if e == MeasureDistance then cpu.echo(cpu.measurements).distance else None
    }

    /** What a request does to the sensor's data and to the trouble code: a measurement replaces the distance,
        a clear empties the history, and nothing else touches them. */
    twostate predicate SideEffects(e: Effect)
      reads cpu`measurements, lamps.warning, dtc
    {
      && cpu.measurements == old(cpu.measurements) + (if e == MeasureDistance then 1 else 0)
      && lamps.warning.State()
         == (if e == MeasureDistance then Diagnosed(old(lamps.warning.State()), old(MeasuredFor(e))) else old(lamps.warning.State()))
      && (e != ClearCodes ==> unchanged(dtc))
      && (e == ClearCodes ==>
            && dtc.history == old(dtc.history) + [DtcMonitor.Clear] && dtc.checkTimerMs == old(dtc.checkTimerMs)
            && dtc.status == old(dtc.status) & !DtcMonitor.HISTORY_BIT && !dtc.blinkActive && dtc.lampFault == old(dtc.lampFault))
    }

    /** Carry out a request, which may take a while.  Only the lamp test touches the lamps. */
    method CarryOut(e: Effect) returns (measured: bool, distanceMm: nat)
      requires cpu.Valid() && lamps.Valid() && dtc.Valid()
      modifies cpu`lights, cpu`trace, cpu`interruptions, cpu`measurements
      modifies cpu.commands`rx, cpu.commands`updated, cpu.commands`timeoutMs, cpu.commands`accepted
      modifies cpu.slot`pending, cpu.slot`data, cpu.slot`received
      modifies lamps.warning`distanceCm, lamps.warning`distanceValid, dtc
      ensures cpu.Valid() && lamps.Valid() && dtc.Valid() && cpu.OnlyReceived() && SideEffects(e)
      ensures cpu.trace == old(cpu.trace) + Held(Sample(old(LightsFor(e)), cpu.commands.calls), old(UsFor(e)))
      ensures measured == old(MeasuredFor(e)).Some? && distanceMm == Millimetres(old(MeasuredFor(e)))
    {
      hide BodyCpu.Valid, UltrasonicDtc.Valid, CollisionWarning.Valid, UltrasonicDtc.LedShould;
      measured, distanceMm := false, 0xFFFF;
      match e {
        case SoundBuzzer => cpu.WaitTime(toneUs);
        case LightLamps => lamps.RunLedDiagnosticRoutine();
        case MeasureDistance =>
          var distance := cpu.Measure();
          measured, distanceMm := lamps.warning.RunUltrasonicDiagnosticRoutine(distance);
        case ClearCodes => dtc.ClearDtcHistory();
        case Nothing =>
      }
    }

    /** What a response may report, if it is made now, after a measurement. */
    function ViewAfter(m: Option<nat>): (v: View)
      reads can`curTurn, can`curWarning, button`stable, dtc`status
      ensures v.distanceMm < 0x1_0000
    {
      View(m.Some?, Millimetres(m), can.curTurn, button.stable, can.curWarning, dtc.status as int)
    }

    /** The response to the request, if there is one, is offered once. */
    twostate predicate Responded(request: Option<seq<byte>>)
      requires request.Some? ==> |request.value| > 0
      reads `offers, `responses, cpu`measurements, can`curTurn, can`curWarning, button`stable, dtc`status
    {
      match request
      case None => offers == old(offers) && responses == old(responses)
      case Some(uds) =>
        var answer := Answer(uds, ViewAfter(old(MeasuredFor(EffectOf(uds)))));
        && offers == old(offers) + 1
        && responses == if busy(old(offers)) then old(responses) else old(responses) + [ResponseFrame(answer)]
    }

    /** Dispatch the data of a request frame if it is a well-formed single frame. */
    method HandleUdsRequest(data: seq<byte>)
      requires |data| == 8 && cpu.Valid() && lamps.Valid() && dtc.Valid()
      modifies `offers, `responses, cpu`lights, cpu`trace, cpu`interruptions, cpu`measurements
      modifies cpu.commands`rx, cpu.commands`updated, cpu.commands`timeoutMs, cpu.commands`accepted
      modifies cpu.slot`pending, cpu.slot`data, cpu.slot`received
      modifies lamps.warning`distanceCm, lamps.warning`distanceValid, dtc
      ensures cpu.Valid() && lamps.Valid() && dtc.Valid() && cpu.OnlyReceived()
      ensures cpu.trace == old(cpu.trace) + Held(Sample(old(LightsFor(Parsed(data))), cpu.commands.calls), old(UsFor(Parsed(data))))
      ensures SideEffects(Parsed(data)) && Responded(ParseRequest(data))
    {
      hide BodyCpu.Valid, UltrasonicDtc.Valid, Lamps.Valid, Answer, EffectOf;
      var request, _ := TakeRequest(data);
      if request.Some? {
        var uds := request.value;
        var measured, distanceMm := CarryOut(EffectOf(uds));
        Respond(Answer(uds, View(measured, distanceMm, can.curTurn, button.stable, can.curWarning, dtc.status as int)));
      }
    }

    static function Parsed(data: seq<byte>): Effect
      requires |data| == 8
    {
      if ParseRequest(data).Some? then EffectOf(ParseRequest(data).value) else Nothing
    }

    /** Look into the slot and carry out what is there. */
    method ProcessUdsRequestIfNeeded()
      requires cpu.Valid() && lamps.Valid() && dtc.Valid()
      modifies this, cpu`lights, cpu`trace, cpu`interruptions, cpu`measurements
      modifies cpu.commands`rx, cpu.commands`updated, cpu.commands`timeoutMs, cpu.commands`accepted
      modifies cpu.slot, lamps.warning`distanceCm, lamps.warning`distanceValid, dtc
      ensures cpu.Valid() && lamps.Valid() && dtc.Valid()
      ensures cpu.commands.calls == old(cpu.commands.calls) && cpu.commands.taken == old(cpu.commands.taken)
      ensures old(cpu.commands.accepted) <= cpu.commands.accepted && old(cpu.slot.received) <= cpu.slot.received
      ensures cpu.slot.checkedAt == cpu.commands.calls && log == old(log) + [old(cpu.slot.Waiting())]
      ensures var e := EffectIn(old(cpu.slot.Waiting()));
              && cpu.trace == old(cpu.trace) + Held(Sample(old(LightsFor(e)), cpu.commands.calls), old(UsFor(e)))
              && SideEffects(e) && Responded(Asked(old(cpu.slot.Waiting())))
    {
      hide CommandBox.Valid, UltrasonicDtc.Valid, Lamps.Valid, EffectOf, Answer, ResponseFrame;
      hide BodyCpu.Caught, Diagnosed, Millimetres, ParseRequest, UltrasonicDtc.LedShould;
      log := log + [cpu.slot.Waiting()];
      var data := cpu.slot.Take(cpu.commands.calls);
      if data.Some? {
        HandleUdsRequest(data.value);
      }
    }
  }
}
