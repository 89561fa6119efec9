/**
 The diagnostic relay end to end: tester, gateway, CAN, ECU, and back.
 */
module Relay {
  import opened Bytes
  import opened MainDoip
  import opened SingleFrame
  import opened UdsSlot
  import ActCanRx
  import BodyCpu
  import BodyMain
  import BodyUds
  import UdsDiag
  import UdsTransport

  /** The request slots of ACT and BODY take frames of this form. */
  predicate IsRequestFor(ta: nat, f: CanFrame) {
    (ta == TA_ACT && ActCanRx.IsRequest(f)) || (ta == TA_BODY && BodyUds.IsRequest(f))
  }

  /** Some frame among the outputs carries the request to the slot of this ECU. */
  predicate Reaches(outputs: seq<Output>, ta: nat, uds: seq<byte>) {
    exists i :: 0 <= i < |outputs| && Delivers(outputs[i], ta, uds)
  }

  predicate Delivers(o: Output, ta: nat, uds: seq<byte>) {
    o.Can? && |o.frame.data| == 8 && IsRequestFor(ta, o.frame) && ParseRequest(o.frame.data) == Some(uds)
  }

  // ---------- From the slot to the dispatcher ----------

  /** A frame, and when the receive interrupt handles it. */
  datatype Arrival = Arrival(frame: RxFrame, time: nat)

  /** What an ECU's slot receives of these frames, one after the other. */
  function Slot(ta: nat, arrivals: seq<Arrival>): seq<Received> {
    if arrivals == [] then []
    else
      var a := arrivals[|arrivals| - 1];
      Slot(ta, arrivals[..|arrivals| - 1]) + if IsRequestFor(ta, a.frame) then [Received(a.frame.data, a.time)] else []
  }

  /** The request frame that the next look into the slot finds. */
  function Found(ta: nat, arrivals: seq<Arrival>): (k: Option<nat>)
    ensures k.Some? ==> k.value < |arrivals|
  {
    if arrivals == [] then None
    else if IsRequestFor(ta, arrivals[|arrivals| - 1].frame) then Some(|arrivals| - 1)
    else Found(ta, arrivals[..|arrivals| - 1])
  }

  /** A request frame is found by the next look iff no other request frame for the ECU arrives after it
      and before the look: the slot holds one. */
  lemma {:induction false} FoundIffLast(ta: nat, arrivals: seq<Arrival>, i: nat)
    requires i < |arrivals| && IsRequestFor(ta, arrivals[i].frame)
    ensures Found(ta, arrivals) == Some(i) <==> forall j :: i < j < |arrivals| ==> !IsRequestFor(ta, arrivals[j].frame)
  {
    var last := |arrivals| - 1;
    if i < last {
      FoundIffLast(ta, arrivals[..last], i);
      assert IsRequestFor(ta, arrivals[last].frame) || forall j :: i < j < last ==> arrivals[..last][j] == arrivals[j];
    }
  }

  lemma {:induction false} FoundIsWaiting(ta: nat, arrivals: seq<Arrival>)
    ensures match Found(ta, arrivals)
            case None => Slot(ta, arrivals) == []
            case Some(i) =>
              && i < |arrivals| && Slot(ta, arrivals) != []
              && Slot(ta, arrivals)[|Slot(ta, arrivals)| - 1] == Received(arrivals[i].frame.data, arrivals[i].time)
  {
    if arrivals != [] {
      FoundIsWaiting(ta, arrivals[..|arrivals| - 1]);
    }
  }

  function Batch(frames: seq<RxFrame>, time: nat): seq<Arrival> {
    seq(|frames|, i requires 0 <= i < |frames| => Arrival(frames[i], time))
  }

  /** This is how an interruption point of ACT extends the slot. */
  lemma {:induction false} BatchOfAct(frames: seq<RxFrame>, time: nat)
    ensures Slot(TA_ACT, Batch(frames, time)) == ActCanRx.Requests(frames, time)
  {
    if frames != [] {
      var last := |frames| - 1;
      BatchOfAct(frames[..last], time);
      assert Batch(frames, time)[..last] == Batch(frames[..last], time);
    }
  }

  /** And of BODY. */
  lemma {:induction false} BatchOfBody(frames: seq<RxFrame>, calls: nat)
    ensures Slot(TA_BODY, Batch(frames, calls)) == BodyCpu.RequestsIn(frames, calls)
  {
    if frames != [] {
      var last := |frames| - 1;
      BatchOfBody(frames[..last], calls);
      assert Batch(frames, calls)[..last] == Batch(frames[..last], calls);
    }
  }

  /** What the next look into a slot takes after these arrivals. */
  function Taken(ta: nat, arrivals: seq<Arrival>): (r: Option<Received>)
    ensures r.Some? ==> |r.value.data| == 8
  {
    match Found(ta, arrivals)
    case None => None
    case Some(i) => Some(Received(arrivals[i].frame.data, arrivals[i].time))
  }

  /** A request of the tester that has reached the slot of ACT is dispatched by the next call, byte for byte,
      if and only if no other request frame arrives in between; otherwise the last one of these is. */
  lemma DispatchedByActIff(act: UdsDiag.UdsDiag, earlier: seq<Received>, arrivals: seq<Arrival>, i: nat, uds: seq<byte>)
    requires var slot := act.motor.cpu.slot;
             slot.taken == |earlier| && slot.received == earlier + Slot(TA_ACT, arrivals)
    requires i < |arrivals| && Delivers(Can(arrivals[i].frame), TA_ACT, uds)
    ensures act.Waiting() == Taken(TA_ACT, arrivals)
    ensures Found(TA_ACT, arrivals) == Some(i) <==> forall j :: i < j < |arrivals| ==> !IsRequestFor(TA_ACT, arrivals[j].frame)
    ensures Found(TA_ACT, arrivals) == Some(i) ==> UdsDiag.Input(act.Waiting()) == Some(uds)
  {
    FoundIsWaiting(TA_ACT, arrivals);
    FoundIffLast(TA_ACT, arrivals, i);
  }

  /** The same for BODY, whose next call takes what has arrived by its own interruption point. */
  lemma DispatchedByBodyIff(body: BodyMain.BodyMain, earlier: seq<Received>, arrivals: seq<Arrival>, i: nat, uds: seq<byte>)
    requires body.cpu.slot.taken == |earlier| && body.ReceivedNext() == earlier + Slot(TA_BODY, arrivals)
    requires i < |arrivals| && Delivers(Can(arrivals[i].frame), TA_BODY, uds)
    ensures body.NextRequest() == Taken(TA_BODY, arrivals)
    ensures Found(TA_BODY, arrivals) == Some(i) <==> forall j :: i < j < |arrivals| ==> !IsRequestFor(TA_BODY, arrivals[j].frame)
    ensures Found(TA_BODY, arrivals) == Some(i) ==>
              body.NextRequest().Some? && |body.NextRequest().value.data| == 8
              && ParseRequest(body.NextRequest().value.data) == Some(uds)
  {
    FoundIsWaiting(TA_BODY, arrivals);
    FoundIffLast(TA_BODY, arrivals, i);
  }

  /** A request to ACT or BODY is always acknowledged.  It reaches the ECU's slot, byte for byte, iff it
      has 1 to 7 bytes; a longer or an empty one is acknowledged and then dropped. */
  lemma RequestReachesEcuIff(ta: nat, uds: seq<byte>)
    requires ta == TA_ACT || ta == TA_BODY
    requires |uds| < 0x1_0000 - 12
    ensures var outputs := Reaction(Diagnostic(TESTER, ta, uds));
            && outputs != [] && outputs[0] == Ack(TYPE_DIAGNOSTIC_ACK, ta, TESTER, 0x00)
            && (Reaches(outputs, ta, uds) <==> 1 <= |uds| <= 7)
            && (!Relayable(uds) ==> |outputs| == 1)
  {
    var data := Diagnostic(TESTER, ta, uds);
    AddressedFrameIsRead(TYPE_DIAGNOSTIC, TESTER, ta, uds);
    var outputs := Reaction(data);
    if Relayable(uds) {
      PackedIsRead(uds, 8);
      assert Delivers(outputs[1], ta, uds);
    }
  }

  /** Nothing else makes a frame for an ECU: only the tester's well-formed requests for it do. */
  lemma OnlyTheTesterReachesEcus(data: seq<byte>, i: nat)
    requires i < |Reaction(data)| && Reaction(data)[i].Can?
    ensures |data| > 12 && Word16(data[8], data[9]) == TESTER && Word32(data[4..8]) == |data| - 8
    ensures ParseRequest(Reaction(data)[i].frame.data) == Some(data[12..])
    ensures Reaction(data)[i].frame.id == if Word16(data[10], data[11]) == TA_ACT then ID_ACT_REQUEST else ID_BODY_REQUEST
  {
    var uds := data[12..];
    assert Relayable(uds);
    PackedIsRead(uds, 8);
  }

  /** Every response of ACT, of 1 to 11 bytes, arrives at the tester unchanged, under ACT's address. */
  lemma ActResponseReturns(payload: seq<byte>)
    requires 1 <= |payload| <= 11
    ensures var f := UdsTransport.ResponseFrame(payload);
            && |f.data| == GetLength(f.dlc)
            && |Returned(f.id, f.data)| == 1
            && ReadDiagnostic(Returned(f.id, f.data)[0].data) == Some(Message(TYPE_DIAGNOSTIC, TA_ACT, TESTER, payload))
  {
    PackedIsRead(payload, if |payload| <= 7 then 8 else 12);
    AddressedFrameIsRead(TYPE_DIAGNOSTIC, TA_ACT, TESTER, payload);
  }

  /** The same for BODY and 1 to 7 bytes. */
  lemma BodyResponseReturns(payload: seq<byte>)
    requires 1 <= |payload| <= 7
    ensures var f := CanFrame(BodyUds.RESPONSE_ID, true, BodyUds.DLC_8_BYTES, Pack(payload, 8));
            && |f.data| == GetLength(f.dlc)
            && |Returned(f.id, f.data)| == 1
            && ReadDiagnostic(Returned(f.id, f.data)[0].data) == Some(Message(TYPE_DIAGNOSTIC, TA_BODY, TESTER, payload))
  {
    PackedIsRead(payload, 8);
    AddressedFrameIsRead(TYPE_DIAGNOSTIC, TA_BODY, TESTER, payload);
  }
}
