/**
 Turn signals of the BODY ECU (BODY/BodyControl.c): blinking with 500 ms half periods that
 restart only when the request changes.
 */
module BodyBlink {

  const HALF_PERIOD_MS := 500
  const TURN_LEFT := 1
  const TURN_RIGHT := 2
  const TURN_HAZARD := 3

  datatype Op = Turn(mode: int) | Tick

  datatype Blink = Blink(left: bool, right: bool, lit: bool, timerMs: nat)

  predicate LeftOn(mode: int) { mode == TURN_LEFT || mode == TURN_HAZARD }
  predicate RightOn(mode: int) { mode == TURN_RIGHT || mode == TURN_HAZARD }
  predicate Requested(b: Blink) { b.left || b.right }

  /** The request asks for the lamps that already blink. */
  predicate Same(b: Blink, mode: int) { b.left == LeftOn(mode) && b.right == RightOn(mode) }

  function Step(b: Blink, op: Op): Blink {
    match op
    case Turn(mode) =>
      var next := b.(left := LeftOn(mode), right := RightOn(mode));
      if !Requested(next) then next.(lit := false, timerMs := 0)
      else if !Requested(b) || !Same(b, mode) then next.(lit := true, timerMs := 0)
      else next
    case Tick =>
      if !Requested(b) then b.(lit := false, timerMs := 0)
      else if b.timerMs + 1 >= HALF_PERIOD_MS then b.(lit := !b.lit, timerMs := 0)
      else b.(timerMs := b.timerMs + 1)
  }

  function After(b: Blink, ops: seq<Op>): Blink {
    if ops == [] then b else Step(After(b, ops[..|ops| - 1]), ops[|ops| - 1])
  }

  function Ticks(ops: seq<Op>): nat {
    if ops == [] then 0 else Ticks(ops[..|ops| - 1]) + if ops[|ops| - 1] == Tick then 1 else 0
  }

  /** All requests in the sequence ask for the same lamps as this one. */
  predicate Repeats(ops: seq<Op>, mode: int) {
    forall i :: 0 <= i < |ops| ==>
      ops[i].Turn? ==> LeftOn(ops[i].mode) == LeftOn(mode) && RightOn(ops[i].mode) == RightOn(mode)
  }

  /** Closed form: n ms after the last change to a request that lights something, the lamp phase is a
      function of n alone, however many identical commands have arrived since. */
  lemma {:induction false} ClosedForm(b: Blink, mode: int, ops: seq<Op>)
    requires !Same(b, mode) && (LeftOn(mode) || RightOn(mode)) && Repeats(ops, mode)
    ensures var n := Ticks(ops);
            After(Step(b, Turn(mode)), ops) == Blink(LeftOn(mode), RightOn(mode), n / HALF_PERIOD_MS % 2 == 0, n % HALF_PERIOD_MS)
  {
    if ops != [] {
      var last := |ops| - 1;
      ClosedForm(b, mode, ops[..last]);
      var n := Ticks(ops[..last]);
      assert ops[last].Turn? ==> LeftOn(ops[last].mode) == LeftOn(mode) && RightOn(ops[last].mode) == RightOn(mode);
      if ops[last] == Tick && n % HALF_PERIOD_MS == HALF_PERIOD_MS - 1 {
        assert (n + 1) / HALF_PERIOD_MS == n / HALF_PERIOD_MS + 1;
      }
    }
  }

  /** Once switched off the lamps stay dark. */
  lemma {:induction false} OffStaysDark(b: Blink, mode: int, ops: seq<Op>)
    requires !LeftOn(mode) && !RightOn(mode) && Repeats(ops, mode)
    ensures After(Step(b, Turn(mode)), ops) == Blink(false, false, false, 0)
  {
    if ops != [] {
      OffStaysDark(b, mode, ops[..|ops| - 1]);
      assert ops[|ops| - 1].Turn? ==> !LeftOn(ops[|ops| - 1].mode) && !RightOn(ops[|ops| - 1].mode);
    }
  }
}
