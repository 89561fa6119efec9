/**
 The UDS service table of ACT and its RoutineControl state machine (ACT/UdsDiag.c),
 a subset of ISO 14229-1.
 */
module UdsService {
  import opened Bytes

  const SID_SESSION := 0x10
  const SID_CLEAR_DTC := 0x14
  const SID_READ_DTC := 0x19
  const SID_READ_DID := 0x22
  const SID_ROUTINE := 0x31

  const NRC_SERVICE_NOT_SUPPORTED := 0x11
  const NRC_SUBFUNCTION_NOT_SUPPORTED := 0x12
  const NRC_INCORRECT_LENGTH := 0x13
  const NRC_BUSY_REPEAT_REQUEST := 0x21
  const NRC_CONDITIONS_NOT_CORRECT := 0x22
  const NRC_OUT_OF_RANGE := 0x31

  const SESSION_DEFAULT := 0x01
  const SESSION_EXTENDED := 0x03

  const MOTOR_TEST_CALLS := 1000
  const SERVO_STEP_CALLS := 800
  const SERVO_STEPS := 3
  const SERVO_TEST_CALLS := 2400

  datatype Routine = NoRoutine | MotorTest | ServoTest

  /** The part of the diagnostic state that requests and the routine timer change. */
  datatype Control = Control(session: byte, routine: Routine, timer: nat, step: nat)

  /** What a response may report besides the session and the routine. */
  datatype View = View(c100: byte, c101: byte, speed: nat, angle: nat)

  function Negative(sid: byte, nrc: byte): seq<byte> { [0x7F, sid, nrc] }

  /** The request starts this routine, once it has passed all checks. */
  function Requested(c: Control, uds: seq<byte>): Routine {
    if |uds| == 4 && uds[0] == SID_ROUTINE && uds[1] == 0x01
       && c.session == SESSION_EXTENDED && c.routine == NoRoutine && uds[2] == 0x01
    then if uds[3] == 0x00 then MotorTest else if uds[3] == 0x01 then ServoTest else NoRoutine
    else NoRoutine
  }

  predicate ClearsDtc(uds: seq<byte>) {
    uds == [SID_CLEAR_DTC, 0xFF, 0xFF, 0xFF]
  }

  function NewSession(c: Control, uds: seq<byte>): byte {
    if |uds| == 2 && uds[0] == SID_SESSION && (uds[1] % 128 == SESSION_DEFAULT || uds[1] % 128 == SESSION_EXTENDED)
    then uds[1] % 128 else c.session
  }

  /** Effect of one request on the control state. */
  function Accept(c: Control, uds: seq<byte>): Control {
    var r := Requested(c, uds);
    if r != NoRoutine then c.(routine := r, timer := 0, step := 0) else c.(session := NewSession(c, uds))
  }

  /** One 1 ms step of the running routine, and the routine whose result is sent, if any. */
  function Advance(c: Control): (Control, Routine) {
    match c.routine
    case NoRoutine => (c, NoRoutine)
    case MotorTest =>
      if c.timer + 1 >= MOTOR_TEST_CALLS then (c.(routine := NoRoutine, timer := 0, step := 0), MotorTest)
      else (c.(timer := c.timer + 1), NoRoutine)
    case ServoTest =>
      if c.timer + 1 < SERVO_STEP_CALLS then (c.(timer := c.timer + 1), NoRoutine)
      else if c.step + 1 >= SERVO_STEPS then (c.(routine := NoRoutine, timer := 0, step := 0), ServoTest)
      else (c.(timer := 0, step := c.step + 1), NoRoutine)
  }

  /** One call of UdsDiag_Update1ms: the pending request, if any, then the routine. */
  function Call(c: Control, request: Option<seq<byte>>): (Control, Routine) {
    Advance(if request.Some? then Accept(c, request.value) else c)
  }

  function After(c: Control, requests: seq<Option<seq<byte>>>): Control {
    if requests == [] then c else Call(After(c, requests[..|requests| - 1]), requests[|requests| - 1]).0
  }

  /** The routine whose result the last of the calls sends. */
  function LastResult(c: Control, requests: seq<Option<seq<byte>>>): Routine
    requires requests != []
  {
    Call(After(c, requests[..|requests| - 1]), requests[|requests| - 1]).1
  }

  function Duration(r: Routine): nat {
    match r case NoRoutine => 0 case MotorTest => MOTOR_TEST_CALLS case ServoTest => SERVO_TEST_CALLS
  }

  /** Calls the running routine has had, the accepting one included. */
  function Elapsed(c: Control): nat {
    if c.routine == ServoTest then c.step * SERVO_STEP_CALLS + c.timer else c.timer
  }

  predicate WellFormed(c: Control) {
    match c.routine
    case NoRoutine => true
    case MotorTest => c.timer < MOTOR_TEST_CALLS
    case ServoTest => c.timer < SERVO_STEP_CALLS && c.step < SERVO_STEPS
  }

  /** A running routine takes one call nearer to its end whatever is requested meanwhile. */
  lemma RunningRoutineAdvances(c: Control, request: Option<seq<byte>>)
    requires WellFormed(c) && c.routine != NoRoutine
    ensures var (d, result) := Call(c, request);
            && WellFormed(d) && Elapsed(c) < Duration(c.routine)
            && (Elapsed(c) + 1 < Duration(c.routine) ==>
                  d.routine == c.routine && Elapsed(d) == Elapsed(c) + 1 && result == NoRoutine)
            && (Elapsed(c) + 1 == Duration(c.routine) ==> d.routine == NoRoutine && result == c.routine)
  {
  }

  /** A call that starts routine r leaves it running with one call elapsed. */
  predicate Starts(c: Control, request: Option<seq<byte>>, r: Routine) {
    r != NoRoutine && request.Some? && Requested(c, request.value) == r
  }

  /** Whatever is requested after the start: the routine runs through, alone, for exactly its
      duration, sends nothing before its last call, and sends its own result there. */
  lemma {:induction false} RoutineRunsThrough(c: Control, requests: seq<Option<seq<byte>>>, r: Routine)
    requires requests != [] && Starts(c, requests[0], r) && |requests| <= Duration(r)
    ensures WellFormed(After(c, requests))
    ensures |requests| < Duration(r) ==>
              && After(c, requests).routine == r && Elapsed(After(c, requests)) == |requests|
              && LastResult(c, requests) == NoRoutine
    ensures |requests| == Duration(r) ==>
              After(c, requests).routine == NoRoutine && LastResult(c, requests) == r
  {
    var n := |requests|;
    if n == 1 {
      assert requests[..0] == [];
    } else {
      var before := requests[..n - 1];
      assert before[0] == requests[0];
      RoutineRunsThrough(c, before, r);
      RunningRoutineAdvances(After(c, before), requests[n - 1]);
    }
  }

  /** A call that finds no routine sends no result, and a routine that runs after it has just been started. */
  lemma IdleStep(c: Control, request: Option<seq<byte>>)
    requires c.routine == NoRoutine
    ensures var (d, result) := Call(c, request);
            && WellFormed(d) && result == NoRoutine
            && (d.routine != NoRoutine ==> Elapsed(d) == 1 && Starts(c, request, d.routine))
  {
  }

  /** A routine result is only ever sent by a routine that was started its full duration before. */
  lemma {:induction false} ResultImpliesStart(c: Control, requests: seq<Option<seq<byte>>>)
    requires c.routine == NoRoutine && requests != []
    ensures WellFormed(After(c, requests))
    ensures var d := After(c, requests);
            d.routine != NoRoutine ==>
              && 1 <= Elapsed(d) <= |requests|
              && Starts(After(c, requests[..|requests| - Elapsed(d)]), requests[|requests| - Elapsed(d)], d.routine)
    ensures var r := LastResult(c, requests);
            r != NoRoutine ==>
              && Duration(r) <= |requests|
              && Starts(After(c, requests[..|requests| - Duration(r)]), requests[|requests| - Duration(r)], r)
  {
    hide Requested, Accept, Advance, Elapsed, Call, Starts;
    var n := |requests|;
    var before, last := requests[..n - 1], requests[n - 1];
    var b := After(c, before);
    if n > 1 {
      ResultImpliesStart(c, before);
      if b.routine != NoRoutine {
        RunningRoutineAdvances(b, last);
        var k := n - 1 - Elapsed(b);
        assert before[..k] == requests[..k] && before[k] == requests[k];
      }
    }
    if b.routine == NoRoutine {
      IdleStep(b, last);
      assert requests[..n - 1] == before;
    }
  }

  /** While a routine runs every further start is refused with "busy, repeat request". */
  lemma NoOverlap(c: Control, uds: seq<byte>, view: View)
    requires c.routine != NoRoutine && |uds| == 4 && uds[0] == SID_ROUTINE && uds[1] == 0x01
    requires c.session == SESSION_EXTENDED
    requires ValidView(view)
    ensures Accept(c, uds) == c
    ensures Answer(c, uds, view) == Some(Negative(SID_ROUTINE, NRC_BUSY_REPEAT_REQUEST))
  {
  }

  predicate IsPositive(sid: int, first: int) { first == sid + 0x40 }

  predicate ValidView(v: View) { v.speed < 0x1_0000 && v.angle < 0x1_0000 }

  /** The immediate response to a request; a started routine answers only when it ends. */
  function Answer(c: Control, uds: seq<byte>, view: View): (r: Option<seq<byte>>)
    requires 1 <= |uds| && ValidView(view)
    ensures r == None <==> Requested(c, uds) != NoRoutine
    ensures r.Some? ==>
              && 1 <= |r.value| <= 11
              && (IsPositive(uds[0], r.value[0]) || (|r.value| == 3 && r.value[0] == 0x7F && r.value[1] == uds[0]))
  {
    var sid := uds[0];
    if sid == SID_SESSION then
      if |uds| != 2 then Some(Negative(sid, NRC_INCORRECT_LENGTH))
      else
        var sub := uds[1] % 128;
        if sub != SESSION_DEFAULT && sub != SESSION_EXTENDED then Some(Negative(sid, NRC_SUBFUNCTION_NOT_SUPPORTED))
        else Some([sid + 0x40, sub, 0x27, 0x10, 0x03, 0xE8])
    else if sid == SID_READ_DID then
      if |uds| != 3 then Some(Negative(sid, NRC_INCORRECT_LENGTH))
      else
        var did := Word16(uds[1], uds[2]);
        if did == 0xF190 then Some([sid + 0x40, 0xF1, 0x90, 0x41, 0x43, 0x54, 0x31])
        else if did == 0x0100 then Some([sid + 0x40, 0x01, 0x00] + BigEndian16(view.speed))
        else if did == 0x0101 then Some([sid + 0x40, 0x01, 0x01] + BigEndian16(view.angle))
        else Some(Negative(sid, NRC_OUT_OF_RANGE))
    else if sid == SID_READ_DTC then
      if |uds| != 2 then Some(Negative(sid, NRC_INCORRECT_LENGTH))
      else if uds[1] != 0x0A then Some(Negative(sid, NRC_SUBFUNCTION_NOT_SUPPORTED))
      else Some([sid + 0x40, 0x0A, 0x09, 0xC1, 0x00, 0x00, view.c100, 0xC1, 0x01, 0x00, view.c101])
    else if sid == SID_CLEAR_DTC then
      if |uds| != 4 then Some(Negative(sid, NRC_INCORRECT_LENGTH))
      else if uds[1] != 0xFF || uds[2] != 0xFF || uds[3] != 0xFF then Some(Negative(sid, NRC_OUT_OF_RANGE))
      else Some([sid + 0x40])
    else if sid == SID_ROUTINE then
      if |uds| != 4 then Some(Negative(sid, NRC_INCORRECT_LENGTH))
      else if uds[1] != 0x01 then Some(Negative(sid, NRC_SUBFUNCTION_NOT_SUPPORTED))
      else if c.session != SESSION_EXTENDED then Some(Negative(sid, NRC_CONDITIONS_NOT_CORRECT))
      else if c.routine != NoRoutine then Some(Negative(sid, NRC_BUSY_REPEAT_REQUEST))
      else if Requested(c, uds) != NoRoutine then None
      else Some(Negative(sid, NRC_OUT_OF_RANGE))
    else Some(Negative(sid, NRC_SERVICE_NOT_SUPPORTED))
  }

  /** The final response of a routine. */
  function ResultResponse(r: Routine): seq<byte>
    requires r != NoRoutine
  {
    [SID_ROUTINE + 0x40, 0x01, 0x01, if r == MotorTest then 0x00 else 0x01, 0x00]
  }
}
