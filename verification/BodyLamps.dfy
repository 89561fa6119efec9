/**
 The lamps of the BODY ECU (BODY/BodyControl.c): the requests for them, the blink phase, the pins, and the
 test that lights them all.
 */
module BodyLamps {
  import opened BodyBlink
  import opened BodyCollision
  import opened BodyCpu
  import opened BodyRx
  import opened Bytes
  import opened Sequences
  import opened UdsSlot

  const ON: byte := 1
  const TEST_MS := 1000
  const TEST_US := 1_000_000

  class Lamps {
    const cpu: BodyCpu
    const warning: CollisionWarning

    var headlampOn: bool
    var brakeLampOn: bool
    var hornOn: bool
    var left: bool
    var right: bool
    var blinkOutputOn: bool
    var timerMs: nat

    /** Head and brake lamp follow their requests, a requested turn signal the blink phase. */
    function Shown(): Lights
      reads `headlampOn, `brakeLampOn, `left, `right, `blinkOutputOn
    {
      Lights(headlampOn, brakeLampOn, left && blinkOutputOn, right && blinkOutputOn)
    }

    ghost predicate Valid()
      reads `headlampOn, `brakeLampOn, `left, `right, `blinkOutputOn, cpu`lights, warning
    {
      cpu.lights == Shown() && (blinkOutputOn ==> left || right) && warning.Valid()
    }

    function State(): Blink
      reads `left, `right, `blinkOutputOn, `timerMs
    {
      Blink(left, right, blinkOutputOn, timerMs)
    }

    /** The requests are exactly those of a command in force, or all off without one. */
    ghost predicate Follows(c: Option<Command>)
      reads `headlampOn, `brakeLampOn, `hornOn, `left, `right, `blinkOutputOn, warning`lampOn
    {
      match c
      case None => !headlampOn && !brakeLampOn && !hornOn && !left && !right && !blinkOutputOn && !warning.lampOn
      case Some(c) =>
        && (headlampOn <==> c.headlamp == ON) && (brakeLampOn <==> c.brake == ON) && (hornOn <==> c.horn == ON)
        && left == LeftOn(c.turn as int) && right == RightOn(c.turn as int) && (warning.lampOn <==> c.warning == ON)
    }

    constructor (cpu: BodyCpu)
      requires cpu.lights == AllDark
      ensures Valid() && Follows(None) && State() == Blink(false, false, false, 0) && this.cpu == cpu
      ensures warning.State() == WarnOff
      ensures fresh(warning)
    {
      this.cpu := cpu;
      warning := new CollisionWarning();
      headlampOn, brakeLampOn, hornOn := false, false, false;
      left, right, blinkOutputOn, timerMs := false, false, false, 0;
    }

    /** The pins.  What the collision warning does to the turn signals is overwritten at once. */
    method ApplyOutputs()
      modifies cpu`lights
      ensures cpu.lights == Shown()
    {
      var leftLedOn, rightLedOn;
      if warning.lampOn {
        leftLedOn, rightLedOn := blinkOutputOn, blinkOutputOn;
      } else {
        leftLedOn, rightLedOn := left && blinkOutputOn, right && blinkOutputOn;
      }
      leftLedOn, rightLedOn := left && blinkOutputOn, right && blinkOutputOn;
      cpu.lights := Lights(headlampOn, brakeLampOn, leftLedOn, rightLedOn);
    }

    /** The warning is shown as intended, both turn signals together in the blink phase, only in a dark phase
        or when both turn signals are requested anyway; a warning alone never lights anything. */
    lemma WarningShownIff()
      requires Valid() && warning.lampOn
      ensures cpu.lights.left == cpu.lights.right == blinkOutputOn <==> !blinkOutputOn || (left && right)
      ensures !left && !right ==> !cpu.lights.left && !cpu.lights.right && !blinkOutputOn
    {
    }

    method SetHeadlamp(on: bool)
      requires Valid()
      modifies `headlampOn, cpu`lights
      ensures Valid() && headlampOn == on
    {
      headlampOn := on;
      ApplyOutputs();
    }

    method SetBrakeLamp(on: bool)
      requires Valid()
      modifies `brakeLampOn, cpu`lights
      ensures Valid() && brakeLampOn == on
    {
      brakeLampOn := on;
      ApplyOutputs();
    }

    method SetTurnSignal(mode: int)
      requires Valid()
      modifies `left, `right, `blinkOutputOn, `timerMs, cpu`lights
      ensures Valid() && State() == Step(old(State()), Turn(mode))
    {
      SetBlinkRequest(LeftOn(mode), RightOn(mode));
    }

    method SetBlinkRequest(leftOn: bool, rightOn: bool)
      requires warning.Valid()
      modifies `left, `right, `blinkOutputOn, `timerMs, cpu`lights
      ensures Valid() && left == leftOn && right == rightOn
      ensures !leftOn && !rightOn ==> !blinkOutputOn && timerMs == 0
      ensures leftOn || rightOn ==>
                if old(left) == leftOn && old(right) == rightOn
                then blinkOutputOn == old(blinkOutputOn) && timerMs == old(timerMs)
                else blinkOutputOn && timerMs == 0
    {
      var oldRequested := left || right;
      var requestChanged := left != leftOn || right != rightOn;
      left, right := leftOn, rightOn;
      if !(left || right) {
        blinkOutputOn, timerMs := false, 0;
      } else if !oldRequested || requestChanged {
        blinkOutputOn, timerMs := true, 0;
      }
      ApplyOutputs();
    }

    method AllOff()
      requires warning.Valid()
      modifies `headlampOn, `brakeLampOn, `hornOn, `left, `right, `blinkOutputOn, `timerMs, warning, cpu`lights
      ensures Valid() && Follows(None) && cpu.lights == AllDark && State() == Blink(false, false, false, 0)
      ensures warning.State() == WarnOff
    {
      headlampOn, brakeLampOn, hornOn := false, false, false;
      left, right, blinkOutputOn, timerMs := false, false, false, 0;
      warning.SetCollisionWarningLamp(false);
      ApplyOutputs();
    }

    /** The turn signals' part of a millisecond. */
    method Update1ms()
      requires Valid()
      modifies `blinkOutputOn, `timerMs, cpu`lights
      ensures Valid() && State() == Step(old(State()), Tick)
      ensures !left && !right ==> !blinkOutputOn
    {
      if !left && !right {
        blinkOutputOn, timerMs := false, 0;
        ApplyOutputs();
        return;
      }
      timerMs := timerMs + 1;
      if timerMs >= HALF_PERIOD_MS {
        timerMs := 0;
        blinkOutputOn := !blinkOutputOn;
        ApplyOutputs();
      }
    }

    /** The self-test at start-up lights everything for a second as well. */
    method RunStartupSelfDiagnosis()
      requires Valid() && Follows(None)
      modifies cpu`lights, cpu`trace
      ensures Valid() && cpu.trace == old(cpu.trace) + Held(Sample(AllLit, cpu.commands.calls), TEST_US)
    {
      cpu.lights := AllLit;
      cpu.DelayMsUnreceptive(TEST_MS);
      cpu.lights := AllDark;
      ApplyOutputs();
    }

    /** Light everything for a second, whatever is requested, and then show the requests again. */
    method RunLedDiagnosticRoutine()
      requires Valid() && cpu.Valid()
      modifies cpu`lights, cpu`trace, cpu`interruptions
      modifies cpu.commands`rx, cpu.commands`updated, cpu.commands`timeoutMs, cpu.commands`accepted
      modifies cpu.slot`pending, cpu.slot`data, cpu.slot`received
      ensures Valid() && cpu.Valid() && cpu.OnlyReceived()
      ensures cpu.trace == old(cpu.trace) + Held(Sample(AllLit, cpu.commands.calls), TEST_US)
    {
      cpu.lights := AllLit;
      cpu.DelayMs(TEST_MS);
      cpu.lights := AllDark;
      ApplyOutputs();
    }
  }
}
