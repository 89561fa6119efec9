/** Diagnostic transport and services of the BODY ECU (BODY/BodyCan.c). */
module BodyUds {
  import opened Bytes
  import opened SingleFrame

  const REQUEST_ID := 0x710
  const RESPONSE_ID := 0x718
  const DLC_8_BYTES := 8

  const SID_SESSION := 0x10
  const SID_CLEAR_DTC := 0x14
  const SID_READ_DTC := 0x19
  const SID_READ_DID := 0x22
  const SID_ROUTINE := 0x31

  const NRC_SERVICE_NOT_SUPPORTED := 0x11
  const NRC_SUBFUNCTION_UNSUPPORTED := 0x12
  const NRC_INCORRECT_LENGTH := 0x13
  const NRC_OUT_OF_RANGE := 0x31

  /** A well-formed request frame, as the receive interrupt stores it. */
  predicate IsRequest(f: CanFrame) { f.id == REQUEST_ID && f.dlc == DLC_8_BYTES }

  /** What a request does besides being answered.  No session is asked for. */
  datatype Effect = Nothing | ClearCodes | SoundBuzzer | LightLamps | MeasureDistance

  function EffectOf(uds: seq<byte>): Effect {
    if |uds| == 4 && uds[0] == SID_ROUTINE && uds[1] % 128 == 0x01 && uds[2] == 0x02 then
      if uds[3] == 0x00 then SoundBuzzer
      else if uds[3] == 0x01 then LightLamps
      else if uds[3] == 0x02 then MeasureDistance else Nothing
    else if uds == [SID_READ_DID, 0x02, 0x01] then MeasureDistance
    else if uds == [SID_CLEAR_DTC, 0xFF, 0xFF, 0xFF] then ClearCodes
    else Nothing
  }

  /** What a response may report. */
  datatype View = View(measured: bool, distanceMm: nat, turn: byte, pressed: bool, warning: byte, status: byte)

  function Negative(sid: byte, nrc: byte): seq<byte> { [0x7F, sid, nrc] }

  predicate IsPositive(sid: int, first: int) { first == sid + 0x40 }

  function Flag(b: bool): byte { if b then 1 else 0 }

  /** The response to a request, in the state after its effect. */
  function Answer(uds: seq<byte>, v: View): (r: seq<byte>)
    requires 1 <= |uds| && v.distanceMm < 0x1_0000
    ensures 1 <= |r| <= 7
    ensures IsPositive(uds[0], r[0]) || (|r| == 3 && r[0] == 0x7F && r[1] == uds[0])
    ensures EffectOf(uds) != Nothing ==> IsPositive(uds[0], r[0])
  {
    var sid := uds[0];
    if sid == SID_SESSION then
      if |uds| != 2 then Negative(sid, NRC_INCORRECT_LENGTH)
      else if uds[1] % 128 != 0x01 && uds[1] % 128 != 0x03 then Negative(sid, NRC_SUBFUNCTION_UNSUPPORTED)
      else [sid + 0x40, uds[1] % 128, 0x0B, 0xB8, 0x03, 0xE8]
    else if sid == SID_READ_DID then
      if |uds| != 3 then Negative(sid, NRC_INCORRECT_LENGTH)
      else
        var did := Word16(uds[1], uds[2]);
        var head := [sid + 0x40, uds[1], uds[2]];
        if did == 0xF190 then head + [0x42, 0x44, 0x59, 0x31]
        else if did == 0x0201 then head + BigEndian16(v.distanceMm)
        else if did == 0x0202 then head + [v.turn]
        else if did == 0x0203 then head + [Flag(v.pressed)]
        else if did == 0x0204 then head + [Flag(v.warning == 1)]
        else Negative(sid, NRC_OUT_OF_RANGE)
    else if sid == SID_READ_DTC then
      if |uds| != 2 then Negative(sid, NRC_INCORRECT_LENGTH)
      else if uds[1] != 0x0A then Negative(sid, NRC_SUBFUNCTION_UNSUPPORTED)
      else [sid + 0x40, 0x0A, 0x01, 0xC2, 0x01, 0x00, v.status]
    else if sid == SID_CLEAR_DTC then
      if |uds| != 4 then Negative(sid, NRC_INCORRECT_LENGTH)
      else if uds[1] != 0xFF || uds[2] != 0xFF || uds[3] != 0xFF then Negative(sid, NRC_OUT_OF_RANGE)
      else [sid + 0x40]
    else if sid == SID_ROUTINE then
      if |uds| != 4 then Negative(sid, NRC_INCORRECT_LENGTH)
      else if uds[1] % 128 != 0x01 then Negative(sid, NRC_SUBFUNCTION_UNSUPPORTED)
      else if uds[2] != 0x02 || uds[3] > 0x02 then Negative(sid, NRC_OUT_OF_RANGE)
      else [sid + 0x40, 0x01, uds[2], uds[3], if uds[3] == 0x02 && !v.measured then 0x01 else 0x00]
    else Negative(sid, NRC_SERVICE_NOT_SUPPORTED)
  }

  /** BodyCan_HandleUdsRequest up to the dispatch: the payload bytes, of which the first len count. */
  method TakeRequest(rx: seq<byte>) returns (request: Option<seq<byte>>, payload: seq<byte>)
    requires |rx| == 8
    ensures request == ParseRequest(rx)
    ensures request.Some? ==> |payload| == 7 && request.value <= payload
  {
    if rx[0] / 16 != 0 {
      return None, [];
    }
    var len := rx[0] % 16;
    if len == 0 || len > 7 {
      return None, [];
    }
    payload := [];
    for index := 0 to 7
      invariant payload == rx[1..1 + index]
    {
      payload := payload + [rx[index + 1]];
    }
    request := Some(payload[..len]);
    assert payload[..len] == rx[1..1 + len];
  }

  /** BodyCan_SendUdsPayload: a frame of 8 bytes, unless the length does not fit. */
  method SendUdsPayload(payload: seq<byte>) returns (frame: Option<CanFrame>)
    ensures frame == if 1 <= |payload| <= 7 then Some(CanFrame(RESPONSE_ID, true, DLC_8_BYTES, Pack(payload, 8))) else None
  {
    if |payload| == 0 || |payload| > 7 {
      return None;
    }
    var tx := new byte[8];
    for index := 0 to 8
      modifies tx
      invariant forall j :: 0 <= j < index ==> tx[j] == 0
    {
      tx[index] := 0;
    }
    tx[0] := |payload| % 16;
    for index := 0 to |payload|
      modifies tx
      invariant tx[0] == |payload| && forall j :: 0 <= j < index ==> tx[1 + j] == payload[j]
      invariant forall j :: index < j < 8 ==> tx[j] == 0
    {
      tx[index + 1] := payload[index];
    }
    assert tx[..] == Pack(payload, 8);
    return Some(CanFrame(RESPONSE_ID, true, DLC_8_BYTES, tx[..]));
  }
}
