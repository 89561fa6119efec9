/**
 Diagnostic trouble codes.  Three ECUs keep a status byte and a fail counter per
 code: ACT/UdsDiag.c, BODY/BodyControl.c and MAIN/BSW/Service/dcm.c.  One
 specification over the history of evaluations and clears covers all three.
 */
module DtcMonitor {

  datatype Event = Fail | Pass | Clear

  const CURRENT_BIT: bv8 := 0x01
  const HISTORY_BIT: bv8 := 0x08
  const CONFIRM_FAIL_COUNT := 3

  function Saturate(n: nat, top: nat): nat { if n <= top then n else top }

  /** Length of the run of failing evaluations at the end of the history. */
  function TrailingFails(h: seq<Event>): (n: nat)
    ensures n <= |h|
  {
    if h == [] || h[|h| - 1] != Fail then 0 else 1 + TrailingFails(h[..|h| - 1])
  }

  /** Three failing evaluations in a row have happened, and no clear since. */
  ghost predicate Confirmed(h: seq<Event>) {
    exists i :: ThreeFailsAt(h, i) && forall j :: i + 3 <= j < |h| ==> h[j] != Clear
  }

  ghost predicate ThreeFailsAt(h: seq<Event>, i: int) {
    0 <= i <= |h| - 3 && h[i] == Fail && h[i + 1] == Fail && h[i + 2] == Fail
  }

  /** The last evaluation failed.  A clear either leaves that indication (ACT, BODY) or removes it (MAIN). */
  predicate Failing(h: seq<Event>, clearKeepsCurrent: bool) {
    h != [] && match h[|h| - 1]
    case Fail => true
    case Pass => false
    case Clear => clearKeepsCurrent && Failing(h[..|h| - 1], clearKeepsCurrent)
  }

  ghost function Status(h: seq<Event>, clearKeepsCurrent: bool): bv8 {
    (if Failing(h, clearKeepsCurrent) then CURRENT_BIT else 0) | (if Confirmed(h) then HISTORY_BIT else 0)
  }

  /** The status byte and the counter say exactly what the history says. */
  ghost predicate Reflects(status: bv8, failCount: nat, h: seq<Event>, top: nat, clearKeepsCurrent: bool) {
    status == Status(h, clearKeepsCurrent) && failCount == Saturate(TrailingFails(h), top)
  }

  lemma {:induction false} TrailingRunIsFails(h: seq<Event>, j: int)
    requires |h| - TrailingFails(h) <= j < |h|
    ensures h[j] == Fail
  {
    if j < |h| - 1 {
      TrailingRunIsFails(h[..|h| - 1], j);
    }
  }

  lemma {:induction false} FailsAreTrailing(h: seq<Event>, n: nat)
    requires n <= |h| && forall j :: |h| - n <= j < |h| ==> h[j] == Fail
    ensures TrailingFails(h) >= n
  {
    if n > 0 {
      assert h[|h| - 1] == Fail;
      FailsAreTrailing(h[..|h| - 1], n - 1);
    }
  }

  /** How one more event changes the confirmation. */
  lemma ConfirmedStep(h: seq<Event>, e: Event)
    ensures Confirmed(h + [e]) <==> e != Clear && (Confirmed(h) || (e == Fail && TrailingFails(h) >= 2))
  {
    var g := h + [e];
    if Confirmed(g) {
      var i :| ThreeFailsAt(g, i) && forall j :: i + 3 <= j < |g| ==> g[j] != Clear;
      assert e != Clear by { assert g[|h|] == e; }
      if i + 3 <= |h| {
        assert ThreeFailsAt(h, i);
        assert forall j :: i + 3 <= j < |h| ==> h[j] == g[j];
      } else {
        assert h[i] == Fail && h[i + 1] == Fail && i + 2 == |h|;
        FailsAreTrailing(h, 2);
      }
    }
    if e != Clear && Confirmed(h) {
      var i :| ThreeFailsAt(h, i) && forall j :: i + 3 <= j < |h| ==> h[j] != Clear;
      assert ThreeFailsAt(g, i);
      assert forall j :: i + 3 <= j < |g| ==> g[j] != Clear;
    }
    if e == Fail && TrailingFails(h) >= 2 {
      TrailingRunIsFails(h, |h| - 1);
      TrailingRunIsFails(h, |h| - 2);
      assert ThreeFailsAt(g, |h| - 2);
    }
  }

  /** What each event does to the specification. */
  lemma SpecStep(h: seq<Event>, e: Event, keeps: bool)
    ensures TrailingFails(h + [e]) == if e == Fail then TrailingFails(h) + 1 else 0
    ensures Failing(h + [e], keeps) <==> e == Fail || (e == Clear && keeps && Failing(h, keeps))
    ensures Confirmed(h + [e]) <==> e != Clear && (Confirmed(h) || (e == Fail && TrailingFails(h) >= 2))
  {
    assert (h + [e])[..|h|] == h;
    ConfirmedStep(h, e);
  }

  lemma EmptyHistory(keeps: bool, top: nat)
    ensures Reflects(0, 0, [], top, keeps)
  {
  }

  /** UdsDiag_UpdateOneDtcStatus of ACT; BodyControl_UpdateUltrasonicDtcStatus keeps the same books. */
  method UpdateOneDtcStatus(status0: bv8, failCount0: nat, faultActive: bool, ghost h: seq<Event>)
    returns (status: bv8, failCount: nat)
    requires Reflects(status0, failCount0, h, CONFIRM_FAIL_COUNT, true)
    ensures Reflects(status, failCount, h + [if faultActive then Fail else Pass], CONFIRM_FAIL_COUNT, true)
    ensures (status, failCount) == Evaluate(status0, failCount0, faultActive)
  {
    status, failCount := status0, failCount0;
    SpecStep(h, if faultActive then Fail else Pass, true);
    if faultActive {
      status := status | CURRENT_BIT;
      if failCount < CONFIRM_FAIL_COUNT {
        failCount := failCount + 1;
      }
      if failCount >= CONFIRM_FAIL_COUNT {
        status := status | HISTORY_BIT;
      }
    } else {
      status := status & !CURRENT_BIT;
      failCount := 0;
    }
  }

  /** ClearDiagnosticInformation of ACT and BODY: history off, counter zero, current fault kept. */
  method ClearHistory(status0: bv8, failCount0: nat, ghost h: seq<Event>) returns (status: bv8, failCount: nat)
    requires Reflects(status0, failCount0, h, CONFIRM_FAIL_COUNT, true)
    ensures Reflects(status, failCount, h + [Clear], CONFIRM_FAIL_COUNT, true)
    ensures status == status0 & !HISTORY_BIT && failCount == 0
  {
    SpecStep(h, Clear, true);
    status, failCount := status0 & !HISTORY_BIT, 0;
  }

  /** One evaluation of a monitored fault. */
  function Evaluate(status: bv8, failCount: nat, faultActive: bool): (bv8, nat) {
    if !faultActive then (status & !CURRENT_BIT, 0)
    else
      var count := Saturate(failCount + 1, CONFIRM_FAIL_COUNT);
      (if count >= CONFIRM_FAIL_COUNT then status | CURRENT_BIT | HISTORY_BIT else status | CURRENT_BIT,
       count)
  }
}
