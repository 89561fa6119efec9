/**
 What a tester learns from the answers of ACT (ACT/UdsDiag.c), read without the service table.
 */
module UdsTester {
  import opened Bytes
  import opened SingleFrame
  import opened UdsReader
  import opened UdsResults
  import opened UdsService
  import opened UdsTransport

  const CODE_ENCODER := 0xC1_0000
  const CODE_STEERING := 0xC1_0100

  /** The length a request of this service must have. */
  function RightLength(sid: byte): Option<nat> {
    if sid == 0x10 || sid == 0x19 then Some(2)
    else if sid == 0x22 then Some(3)
    else if sid == 0x14 || sid == 0x31 then Some(4)
    else None
  }

  predicate Formed(uds: seq<byte>) { |uds| > 0 && RightLength(uds[0]) == Some(|uds|) }

  /** The function that a service is asked for exists. */
  predicate Supported(uds: seq<byte>)
    requires Formed(uds)
  {
    && (uds[0] == 0x10 ==> uds[1] % 128 == 0x01 || uds[1] % 128 == 0x03)
    && (uds[0] == 0x19 ==> uds[1] == 0x0A)
    && (uds[0] == 0x31 ==> uds[1] == 0x01)
  }

  /** What the request names exists. */
  predicate InRange(uds: seq<byte>)
    requires Formed(uds)
  {
    && (uds[0] == 0x22 ==> uds[1..] == [0xF1, 0x90] || uds[1..] == [0x01, 0x00] || uds[1..] == [0x01, 0x01])
    && (uds[0] == 0x14 ==> uds[1..] == [0xFF, 0xFF, 0xFF])
    && (uds[0] == 0x31 ==> uds[2..] == [0x01, 0x00] || uds[2..] == [0x01, 0x01])
  }

  /** Why a request is refused, in the order in which the checks are made. */
  function Refused(c: Control, uds: seq<byte>): Option<byte>
    requires |uds| > 0
  {
    if RightLength(uds[0]) == None then Some(0x11)
    else if !Formed(uds) then Some(0x13)
    else if !Supported(uds) then Some(0x12)
    else if uds[0] == 0x31 && c.session != 0x03 then Some(0x22)
    else if uds[0] == 0x31 && c.routine != NoRoutine then Some(0x21)
    else if !InRange(uds) then Some(0x31)
    else None
  }

  /** A refusal is sent iff there is a reason for it, with the code of that reason. */
  lemma RefusedIff(c: Control, uds: seq<byte>, v: View)
    requires |uds| > 0 && ValidView(v)
    ensures var a := Answer(c, uds, v);
            match Refused(c, uds)
            case Some(code) => a.Some? && Read(a.value) == Refusal(uds[0], code)
            case None => a.Some? ==> !Read(a.value).Refusal?
  {
    var tail := uds[1..];
    if |uds| == 3 {
      assert tail == [uds[1], uds[2]];
    } else if |uds| == 4 {
      assert tail == [uds[1], uds[2], uds[3]] && uds[2..] == [uds[2], uds[3]];
    }
  }

  /** A routine start that is not refused is answered by nothing but its start. */
  lemma StartedIff(c: Control, uds: seq<byte>, v: View)
    requires |uds| > 0 && ValidView(v)
    ensures Answer(c, uds, v) == None <==> uds[0] == 0x31 && Refused(c, uds) == None
    ensures Answer(c, uds, v) == None ==>
              Accept(c, uds) == c.(routine := if uds[3] == 0x00 then MotorTest else ServoTest, timer := 0, step := 0)
  {
    if |uds| == 4 {
      assert uds[2..] == [uds[2], uds[3]];
    }
  }

  /** The speed, the steering angle's word and the name are read under their own identifiers. */
  lemma DataIsRead(c: Control, v: View)
    requires ValidView(v)
    ensures var speed := Read(Answer(c, [0x22, 0x01, 0x00], v).value);
            speed.Data? && speed.identifier == 0x0100 && |speed.value| == 2 && Value(speed.value) == v.speed
    ensures var angle := Read(Answer(c, [0x22, 0x01, 0x01], v).value);
            angle.Data? && angle.identifier == 0x0101 && |angle.value| == 2 && Value(angle.value) == v.angle
    ensures Read(Answer(c, [0x22, 0xF1, 0x90], v).value) == Data(0xF190, [0x41, 0x43, 0x54, 0x31])
  {
    var speed := Answer(c, [0x22, 0x01, 0x00], v).value;
    assert speed[3..] == BigEndian16(v.speed);
    var angle := Answer(c, [0x22, 0x01, 0x01], v).value;
    assert angle[3..] == BigEndian16(v.angle);
    var name := Answer(c, [0x22, 0xF1, 0x90], v).value;
    assert name[3..] == [0x41, 0x43, 0x54, 0x31];
  }

  /** Each trouble code is read with its own status. */
  lemma CodesAreRead(c: Control, v: View)
    requires ValidView(v)
    ensures Read(Answer(c, [0x19, 0x0A], v).value)
            == Codes(0x09, [CodeRecord(CODE_ENCODER, v.c100), CodeRecord(CODE_STEERING, v.c101)])
  {
    TwoRecords(Answer(c, [0x19, 0x0A], v).value[3..]);
  }

  /** A session change reports the session that is then in force, with or without the suppression bit. */
  lemma SessionIsRead(c: Control, sub: byte, v: View)
    requires ValidView(v) && sub % 128 in {0x01, 0x03}
    ensures Read(Answer(c, [0x10, sub], v).value) == Session(Accept(c, [0x10, sub]).session)
    ensures Accept(c, [0x10, sub]) == c.(session := sub % 128)
    ensures Answer(c, [0x10, sub], v).value[2..] == [0x27, 0x10, 0x03, 0xE8]
  {
  }

  /** Nothing else changes the session, and only this request clears. */
  lemma OthersKeepTheSession(c: Control, uds: seq<byte>, v: View)
    requires |uds| > 0 && ValidView(v)
    ensures Accept(c, uds).session != c.session ==> |uds| == 2 && uds[0] == 0x10
    ensures ClearsDtc(uds) <==> Answer(c, uds, v).Some? && Read(Answer(c, uds, v).value) == Cleared
  {
    if |uds| == 4 {
      assert uds == [uds[0], uds[1], uds[2], uds[3]];
    }
  }

  /** The result of a routine is read under its own identifier. */
  lemma ResultIsRead(r: Routine)
    requires r != NoRoutine
    ensures Read(ResultResponse(r)) == RoutineDone(if r == MotorTest then 0x0100 else 0x0101, 0x00)
  {
  }

  /** A frame is read like the response in it. */
  lemma FrameIsRead(payload: seq<byte>)
    requires 1 <= |payload| <= 11
    ensures ReadFrame(ResponseFrame(payload)) == Read(payload)
    ensures ResponseFrame(payload).id == 0x708
  {
    PackedIsRead(payload, if |payload| <= 7 then 8 else 12);
  }

  /** What a reading tells the tester about the ECU, if it is the answer to this request in this state. */
  predicate Told(c: Control, uds: seq<byte>, v: View, reading: Reading)
    requires |uds| > 0
  {
    && (Refused(c, uds).Some? ==> reading == Refusal(uds[0], Refused(c, uds).value))
    && (Refused(c, uds).None? ==> !reading.Refusal?)
    && (uds == [0x22, 0x01, 0x00] ==>
          reading.Data? && reading.identifier == 0x0100 && |reading.value| == 2 && Value(reading.value) == v.speed)
    && (uds == [0x22, 0x01, 0x01] ==>
          reading.Data? && reading.identifier == 0x0101 && |reading.value| == 2 && Value(reading.value) == v.angle)
    && (uds == [0x22, 0xF1, 0x90] ==> reading == Data(0xF190, [0x41, 0x43, 0x54, 0x31]))
    && (uds == [0x19, 0x0A] ==>
          reading == Codes(0x09, [CodeRecord(CODE_ENCODER, v.c100), CodeRecord(CODE_STEERING, v.c101)]))
    && (|uds| == 2 && uds[0] == 0x10 && uds[1] % 128 in {0x01, 0x03} ==> reading == Session(uds[1] % 128))
    && (reading == Cleared <==> ClearsDtc(uds))
  }

  /** Every answer that a call offers tells the tester the truth. */
  lemma AnswerTells(earlier: seq<CanFrame>, c: Control, t: Turn)
    requires Proper(t) && Answered(c, t).Some?
    ensures var offered := earlier + CallFrames(c, t);
            |offered| > |earlier| && Told(c, t.request.value, t.view, ReadFrame(offered[|earlier|]))
  {
    hide Answer, Read, Refused, Accept, ClearsDtc, ResponseFrame;
    var uds := t.request.value;
    FrameIsRead(Answered(c, t).value);
    RefusedIff(c, uds, t.view);
    DataIsRead(c, t.view);
    CodesAreRead(c, t.view);
    OthersKeepTheSession(c, uds, t.view);
    if |uds| == 2 && uds[0] == 0x10 && uds[1] % 128 in {0x01, 0x03} {
      SessionIsRead(c, uds[1], t.view);
      assert uds == [0x10, uds[1]];
    }
  }
}
