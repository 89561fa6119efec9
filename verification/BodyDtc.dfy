/**
 Ultrasonic sensor fault of the BODY ECU (BODY/BodyControl.c): the third set of books
 that keeps to the common trouble-code rule, and a lamp that announces each confirmation.
 */
module BodyDtc {
  import opened DtcMonitor

  const CHECK_PERIOD_MS := 3000
  const BLINK_HALF_PERIOD_MS := 250
  const BLINK_TOGGLES := 6

  /** What an observer sees of the fault and its lamp. */
  datatype Books = Books(status: bv8, timer: nat, history: seq<Event>, blinks: bool, calls: nat, fault: bool, led: bool)

  /** What a millisecond changes: an evaluation if it is due; a confirmation starts three flashes of 251 calls,
      and else they go on. */
  ghost predicate Advances(b: Books, a: Books, ok: bool) {
    var due := b.timer >= CHECK_PERIOD_MS;
    var confirms := !Confirmed(b.history) && Confirmed(a.history);
    var calls := (if confirms then 0 else b.calls) + 1;
    && a.timer == (if due then 0 else b.timer + 1)
    && a.history == (if due then b.history + [if ok then Pass else Fail] else b.history)
    && a.fault == b.fault
    && (a.blinks <==> (confirms || b.blinks) && calls < 1506)
    && (a.blinks ==> a.calls == calls && a.led == (calls / 251 % 2 == 0))
    && (!a.blinks ==> a.led == (a.fault || Current(a.status)))
  }

  class UltrasonicDtc {
    var status: bv8
    var failCount: nat
    var checkTimerMs: nat
    var faultMask: bool
    var blinkActive: bool
    var blinkOutputOn: bool
    var toggles: nat
    var blinkTimerMs: nat
    // Whether the lamp self-test has found any fault, and the pin of the danger lamp.
    var lampFault: bool
    var led: bool
    ghost var history: seq<Event>
    // How often the lamp has begun to announce a confirmation.
    ghost var announcements: nat
    // Calls of UpdateBlink1ms since the blinking began.
    ghost var blinkCalls: nat

    ghost predicate Valid()
      reads this
    {
      BooksValid() && BlinkValid() && led == LedShould()
    }

    /** The status reflects the history, and each confirmation has been announced. */
    ghost predicate BooksValid()
      reads `status, `failCount, `history, `announcements, `checkTimerMs
    {
      && Reflects(status, failCount, history, CONFIRM_FAIL_COUNT, true)
      && announcements == Confirmations(history)
      && checkTimerMs <= CHECK_PERIOD_MS
    }

    /** Where the blinking is, by the calls since it began. */
    ghost predicate BlinkValid()
      reads `blinkActive, `blinkOutputOn, `toggles, `blinkTimerMs, `blinkCalls
    {
      && (blinkActive ==>
            && toggles < BLINK_TOGGLES && blinkTimerMs <= BLINK_HALF_PERIOD_MS
            && blinkCalls == toggles * (BLINK_HALF_PERIOD_MS + 1) + blinkTimerMs
            && (blinkOutputOn <==> toggles % 2 == 0))
      && (!blinkActive ==> !blinkOutputOn)
    }

    /** The danger lamp announces a confirmation by blinking, and is otherwise lit while any fault is present. */
    predicate LedShould()
      reads `blinkActive, `blinkOutputOn, `lampFault, `status
    {
      if blinkActive then blinkOutputOn else lampFault || Current(status)
    }

    constructor ()
      ensures Valid() && history == [] && !blinkActive && !led && !faultMask && checkTimerMs == 0
    {
      status, failCount, checkTimerMs, faultMask := 0, 0, 0, false;
      blinkActive, blinkOutputOn, toggles, blinkTimerMs := false, false, 0, 0;
      lampFault, led := false, false;
      history, announcements, blinkCalls := [], 0, 0;
      new;
      EmptyHistory(true, CONFIRM_FAIL_COUNT);
    }

    /** The books of one evaluation, and whether it has confirmed the fault. */
    method Evaluate(failed: bool) returns (confirms: bool)
      requires Reflects(status, failCount, history, CONFIRM_FAIL_COUNT, true)
      modifies `status, `failCount, `history, `faultMask
      ensures Reflects(status, failCount, history, CONFIRM_FAIL_COUNT, true)
      ensures history == old(history) + [if failed then Fail else Pass]
      ensures (faultMask <==> failed) && (Current(status) <==> failed)
      ensures confirms <==> !Confirmed(old(history)) && Confirmed(history)
    {
      var stored := Stored(status);
      ghost var e := if failed then Fail else Pass;
      BitsTell(status, failCount, history);
      SpecStep(history, e, true);
      status, failCount := UpdateOneDtcStatus(status, failCount, failed, history);
      history := history + [e];
      BitsTell(status, failCount, history);
      faultMask := Current(status);
      confirms := !stored && Stored(status);
    }

    /** One evaluation.  The lamp starts to blink exactly when the fault becomes confirmed. */
    method UpdateStatus(failed: bool)
      requires Valid()
      modifies `status, `failCount, `history, `faultMask, `announcements, `led
      modifies `blinkActive, `blinkOutputOn, `toggles, `blinkTimerMs, `blinkCalls
      ensures Valid() && history == old(history) + [if failed then Fail else Pass]
      ensures faultMask <==> failed
      ensures !blinkActive ==> (led <==> lampFault || failed)
      ensures if !Confirmed(old(history)) && Confirmed(history) then blinkActive && blinkCalls == 0
              else blinkActive == old(blinkActive) && blinkCalls == old(blinkCalls)
    {
      hide BooksValid, Confirmed;
      var confirms := EvaluateAndCount(failed);
      if confirms {
        blinkActive, blinkOutputOn, toggles, blinkTimerMs := true, true, 0, 0;
        blinkCalls := 0;
      }
      led := LedShould();
    }

    /** An evaluation, with its confirmation counted. */
    method EvaluateAndCount(failed: bool) returns (confirms: bool)
      requires BooksValid()
      modifies `status, `failCount, `history, `faultMask, `announcements
      ensures BooksValid() && history == old(history) + [if failed then Fail else Pass]
      ensures (faultMask <==> failed) && (Current(status) <==> failed)
      ensures confirms <==> !Confirmed(old(history)) && Confirmed(history)
    {
      hide Reflects, Confirmed, Confirmations;
      ConfirmationsStep(history, if failed then Fail else Pass);
      confirms := Evaluate(failed);
      if confirms {
        announcements := announcements + 1;
      }
    }

    /** The next call is going to evaluate. */
    predicate Due()
      reads `checkTimerMs
    {
      checkTimerMs >= CHECK_PERIOD_MS
    }

    /** Every 3001st millisecond evaluates: the timer must reach 3000 before the call that resets it. */
    method UpdateStatus1ms(ok: bool)
      requires Valid()
      modifies this
      ensures Valid() && lampFault == old(lampFault)
      ensures old(checkTimerMs) < CHECK_PERIOD_MS ==>
                && checkTimerMs == old(checkTimerMs) + 1 && history == old(history)
                && blinkActive == old(blinkActive) && blinkCalls == old(blinkCalls)
      ensures old(checkTimerMs) == CHECK_PERIOD_MS ==>
                checkTimerMs == 0 && history == old(history) + [if ok then Pass else Fail]
      ensures if !Confirmed(old(history)) && Confirmed(history) then blinkActive && blinkCalls == 0
              else blinkActive == old(blinkActive) && blinkCalls == old(blinkCalls)
    {
      if checkTimerMs < CHECK_PERIOD_MS {
        checkTimerMs := checkTimerMs + 1;
        return;
      }
      checkTimerMs := 0;
      UpdateStatus(!ok);
    }

    /** One millisecond: an evaluation if it is due, and the announcement of a confirmation. */
    method Update1ms(ok: bool)
      requires Valid()
      modifies this
      ensures Valid() && Advances(old(State()), State(), ok)
    {
      hide Reflects, Confirmations, BlinkValid, Confirmed, Current;
      UpdateStatus1ms(ok);
      UpdateBlink1ms();
    }

    ghost function State(): Books
      reads `status, `checkTimerMs, `history, `blinkActive, `blinkCalls, `lampFault, `led
    {
      Books(status, checkTimerMs, history, blinkActive, blinkCalls, lampFault, led)
    }

    /** Three flashes of 251 ms with 251 ms between them, and then no more. */
    method UpdateBlink1ms()
      requires Valid()
      modifies `blinkActive, `blinkOutputOn, `toggles, `blinkTimerMs, `blinkCalls, `led
      ensures Valid()
      ensures old(blinkActive) ==>
                && blinkCalls == old(blinkCalls) + 1
                && (blinkActive <==> blinkCalls < 1506)
                && (blinkCalls < 1506 ==> led == (blinkCalls / 251 % 2 == 0))
                && (blinkCalls >= 1506 ==> led == (lampFault || Current(status)))
      ensures !old(blinkActive) ==> !blinkActive && led == old(led) && led == (lampFault || Current(status))
    {
      hide BooksValid, Current;
      if !blinkActive {
        return;
      }
      blinkCalls := blinkCalls + 1;
      if blinkTimerMs < BLINK_HALF_PERIOD_MS {
        blinkTimerMs := blinkTimerMs + 1;
        Phase(toggles, blinkTimerMs);
        return;
      }
      Toggle();
    }

    /** A flash or a pause ends. */
    method Toggle()
      requires BooksValid() && blinkActive && toggles < BLINK_TOGGLES && (blinkOutputOn <==> toggles % 2 == 0)
      requires blinkCalls == (toggles + 1) * (BLINK_HALF_PERIOD_MS + 1)
      modifies `blinkActive, `blinkOutputOn, `toggles, `blinkTimerMs, `led
      ensures Valid() && (blinkActive <==> blinkCalls < 1506)
      ensures blinkCalls < 1506 ==> led == (blinkCalls / 251 % 2 == 0)
      ensures blinkCalls >= 1506 ==> led == (lampFault || Current(status))
    {
      hide BooksValid, Current;
      blinkTimerMs := 0;
      toggles := toggles + 1;
      Phase(toggles, 0);
      if toggles >= BLINK_TOGGLES {
        blinkActive, blinkOutputOn, toggles := false, false, 0;
        led := LedShould();
        return;
      }
      blinkOutputOn := !blinkOutputOn;
      led := blinkOutputOn;
    }

    lemma Phase(toggles: nat, timerMs: nat)
      requires timerMs <= BLINK_HALF_PERIOD_MS
      ensures (toggles * (BLINK_HALF_PERIOD_MS + 1) + timerMs) / 251 == toggles
    {
    }

    /** The lamp self-test finds a fault, or its faults are cleared. */
    method SetLampFault(present: bool)
      requires Valid()
      modifies `lampFault, `led
      ensures Valid() && lampFault == present && led == LedShould()
    {
      lampFault := present;
      if !blinkActive {
        led := LedShould();
      }
    }

    method ClearDtcHistory()
      requires Valid()
      modifies this
      ensures Valid() && history == old(history) + [Clear]
      ensures status == old(status) & !HISTORY_BIT && failCount == 0 && !blinkActive
      ensures led == (lampFault || Current(status)) && faultMask == Current(status)
      ensures checkTimerMs == old(checkTimerMs) && lampFault == old(lampFault)
    {
      hide BooksValid, Current;
      ClearBooks();
      blinkActive, blinkOutputOn, toggles, blinkTimerMs := false, false, 0, 0;
      faultMask := Current(status);
      led := LedShould();
    }

    method ClearBooks()
      requires BooksValid()
      modifies `status, `failCount, `history
      ensures BooksValid() && history == old(history) + [Clear]
      ensures status == old(status) & !HISTORY_BIT && failCount == 0
    {
      hide Reflects, Confirmed;
      ConfirmationsStep(history, Clear);
      ClearUnconfirms(history);
      status, failCount := ClearHistory(status, failCount, history);
      history := history + [Clear];
    }
  }

  predicate Current(status: bv8) { status & CURRENT_BIT != 0 }
  predicate Stored(status: bv8) { status & HISTORY_BIT != 0 }

  /** How often the history has become confirmed. */
  ghost function Confirmations(h: seq<Event>): nat {
    if h == [] then 0
    else Confirmations(h[..|h| - 1]) + if !Confirmed(h[..|h| - 1]) && Confirmed(h) then 1 else 0
  }

  lemma ConfirmationsStep(h: seq<Event>, e: Event)
    ensures Confirmations(h + [e]) == Confirmations(h) + if !Confirmed(h) && Confirmed(h + [e]) then 1 else 0
  {
    assert (h + [e])[..|h|] == h;
  }

  lemma ClearUnconfirms(h: seq<Event>)
    ensures !Confirmed(h + [Clear])
  {
    ConfirmedStep(h, Clear);
  }

  lemma BitsTell(status: bv8, failCount: nat, h: seq<Event>)
    requires Reflects(status, failCount, h, CONFIRM_FAIL_COUNT, true)
    ensures (Stored(status) <==> Confirmed(h)) && (Current(status) <==> Failing(h, true))
  {
  }
}
