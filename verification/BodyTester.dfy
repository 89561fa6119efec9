/**
 What a tester learns from the responses of BODY (BODY/BodyCan.c), read without the service table.
 */
module BodyTester {
  import opened BodyDiag
  import opened BodyUds
  import opened Bytes
  import opened SingleFrame
  import opened UdsReader

  const CODE_ULTRASONIC := 0xC2_0100

  /** The length a request of this service must have. */
  function RightLength(sid: byte): Option<nat> {
    if sid == 0x10 || sid == 0x19 then Some(2)
    else if sid == 0x22 then Some(3)
    else if sid == 0x14 || sid == 0x31 then Some(4)
    else None
  }

  predicate Formed(uds: seq<byte>) { |uds| > 0 && RightLength(uds[0]) == Some(|uds|) }

  /** The function that a service is asked for exists.  The suppression bit does not count. */
  predicate Supported(uds: seq<byte>)
    requires Formed(uds)
  {
    && (uds[0] == 0x10 ==> uds[1] % 128 == 0x01 || uds[1] % 128 == 0x03)
    && (uds[0] == 0x19 ==> uds[1] == 0x0A)
    && (uds[0] == 0x31 ==> uds[1] % 128 == 0x01)
  }

  /** What the request names exists. */
  predicate InRange(uds: seq<byte>)
    requires Formed(uds)
  {
    && (uds[0] == 0x22 ==> uds[1..] == [0xF1, 0x90] || (uds[1] == 0x02 && 0x01 <= uds[2] <= 0x04))
    && (uds[0] == 0x14 ==> uds[1..] == [0xFF, 0xFF, 0xFF])
    && (uds[0] == 0x31 ==> uds[2] == 0x02 && uds[3] <= 0x02)
  }

  /** Why a request is refused, in the order in which the checks are made.  No session is asked for. */
  function Refused(uds: seq<byte>): Option<byte>
    requires |uds| > 0
  {
    if RightLength(uds[0]) == None then Some(0x11)
    else if !Formed(uds) then Some(0x13)
    else if !Supported(uds) then Some(0x12)
    else if !InRange(uds) then Some(0x31)
    else None
  }

  /** A refusal is sent iff there is a reason for it, with the code of that reason. */
  lemma RefusedIff(uds: seq<byte>, v: View)
    requires |uds| > 0 && v.distanceMm < 0x1_0000
    ensures match Refused(uds)
            case Some(code) => Read(Answer(uds, v)) == Refusal(uds[0], code)
            case None => !Read(Answer(uds, v)).Refusal?
  {
    var tail := uds[1..];
    if |uds| == 3 {
      assert tail == [uds[1], uds[2]];
    } else if |uds| == 4 {
      assert tail == [uds[1], uds[2], uds[3]];
    }
  }

  /** Distance, turn signal, button, warning and name are read under their own identifiers. */
  lemma DataIsRead(v: View)
    requires v.distanceMm < 0x1_0000
    ensures var distance := Read(Answer([0x22, 0x02, 0x01], v));
            distance.Data? && distance.identifier == 0x0201 && |distance.value| == 2 && Value(distance.value) == v.distanceMm
    ensures Read(Answer([0x22, 0x02, 0x02], v)) == Data(0x0202, [v.turn])
    ensures Read(Answer([0x22, 0x02, 0x03], v)) == Data(0x0203, [if v.pressed then 1 else 0])
    ensures Read(Answer([0x22, 0x02, 0x04], v)) == Data(0x0204, [if v.warning == 1 then 1 else 0])
    ensures Read(Answer([0x22, 0xF1, 0x90], v)) == Data(0xF190, [0x42, 0x44, 0x59, 0x31])
  {
    var distance := Answer([0x22, 0x02, 0x01], v);
    assert distance[3..] == BigEndian16(v.distanceMm);
    assert Answer([0x22, 0x02, 0x02], v)[3..] == [v.turn];
    assert Answer([0x22, 0x02, 0x03], v)[3..] == [Flag(v.pressed)];
    assert Answer([0x22, 0x02, 0x04], v)[3..] == [Flag(v.warning == 1)];
    assert Answer([0x22, 0xF1, 0x90], v)[3..] == [0x42, 0x44, 0x59, 0x31];
  }

  /** The trouble code of the sensor is read with its status. */
  lemma CodeIsRead(v: View)
    requires v.distanceMm < 0x1_0000
    ensures Read(Answer([0x19, 0x0A], v)) == Codes(0x01, [CodeRecord(CODE_ULTRASONIC, v.status)])
  {
    var record := Answer([0x19, 0x0A], v)[3..];
    assert record == [0xC2, 0x01, 0x00, v.status];
    OneRecord(record);
  }

  /** A session is confirmed, with or without the suppression bit, and its timing reported. */
  lemma SessionIsRead(sub: byte, v: View)
    requires v.distanceMm < 0x1_0000 && sub % 128 in {0x01, 0x03}
    ensures Read(Answer([0x10, sub], v)) == Session(sub % 128) && Answer([0x10, sub], v)[2..] == [0x0B, 0xB8, 0x03, 0xE8]
  {
  }

  /** What is reported as done has been done, and nothing else is done. */
  lemma DoneIffRead(uds: seq<byte>, v: View)
    requires |uds| > 0 && v.distanceMm < 0x1_0000
    ensures var e, reading := EffectOf(uds), Read(Answer(uds, v));
            && (e == ClearCodes <==> reading == Cleared)
            && (e == SoundBuzzer <==> reading == RoutineDone(0x0200, 0x00))
            && (e == LightLamps <==> reading == RoutineDone(0x0201, 0x00))
            && (e == MeasureDistance <==> reading == RoutineDone(0x0202, if v.measured then 0x00 else 0x01)
                                          || (reading.Data? && reading.identifier == 0x0201))
  {
    if |uds| == 3 {
      assert uds == [uds[0], uds[1], uds[2]];
    } else if |uds| == 4 {
      assert uds == [uds[0], uds[1], uds[2], uds[3]];
    }
  }

  /** What a reading tells the tester about the ECU, if it is the answer to this request. */
  predicate Told(uds: seq<byte>, v: View, reading: Reading)
    requires |uds| > 0
  {
    && (Refused(uds).Some? ==> reading == Refusal(uds[0], Refused(uds).value))
    && (Refused(uds).None? ==> !reading.Refusal?)
    && (uds == [0x22, 0x02, 0x01] ==>
          reading.Data? && reading.identifier == 0x0201 && |reading.value| == 2 && Value(reading.value) == v.distanceMm)
    && (uds == [0x22, 0x02, 0x02] ==> reading == Data(0x0202, [v.turn]))
    && (uds == [0x22, 0x02, 0x03] ==> reading == Data(0x0203, [if v.pressed then 1 else 0]))
    && (uds == [0x22, 0x02, 0x04] ==> reading == Data(0x0204, [if v.warning == 1 then 1 else 0]))
    && (uds == [0x22, 0xF1, 0x90] ==> reading == Data(0xF190, [0x42, 0x44, 0x59, 0x31]))
    && (uds == [0x19, 0x0A] ==> reading == Codes(0x01, [CodeRecord(CODE_ULTRASONIC, v.status)]))
    && (|uds| == 2 && uds[0] == 0x10 && uds[1] % 128 in {0x01, 0x03} ==> reading == Session(uds[1] % 128))
    && (EffectOf(uds) == ClearCodes <==> reading == Cleared)
    && (EffectOf(uds) == SoundBuzzer <==> reading == RoutineDone(0x0200, 0x00))
    && (EffectOf(uds) == LightLamps <==> reading == RoutineDone(0x0201, 0x00))
    && (EffectOf(uds) == MeasureDistance <==> reading == RoutineDone(0x0202, if v.measured then 0x00 else 0x01)
                                              || (reading.Data? && reading.identifier == 0x0201))
  }

  /** Every response tells the tester the truth. */
  lemma ResponseTells(uds: seq<byte>, v: View)
    requires |uds| > 0 && v.distanceMm < 0x1_0000
    ensures Told(uds, v, ReadFrame(ResponseFrame(Answer(uds, v)))) && ResponseFrame(Answer(uds, v)).id == 0x718
  {
    hide Answer, EffectOf, Read, Refused;
    PackedIsRead(Answer(uds, v), 8);
    RefusedIff(uds, v);
    DataIsRead(v);
    CodeIsRead(v);
    DoneIffRead(uds, v);
    if |uds| == 2 && uds[0] == 0x10 && uds[1] % 128 in {0x01, 0x03} {
      SessionIsRead(uds[1], v);
      assert uds == [0x10, uds[1]];
    }
  }
}
