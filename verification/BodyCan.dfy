/**
 Commands of the BODY ECU (BODY/BodyCan.c): the lamps follow the last command of the gateway as
 long as commands keep coming.
 */
module BodyCan {
  import opened BodyBlink
  import opened BodyCollision
  import opened BodyCpu
  import opened BodyLamps
  import opened BodyRx
  import opened Bytes

  const TURN_OFF: byte := 0

  class BodyCan {
    const lamps: Lamps
    const cpu: BodyCpu := lamps.cpu

    var curTurn: byte
    var curWarning: byte

    /** The lamps are requested, and the turn signal and the warning reported, exactly by a command in remote
        mode that is fewer than 200 calls old. */
    ghost predicate Lawful()
      requires cpu.commands.Valid()
      reads `curTurn, `curWarning, cpu.commands, lamps`headlampOn, lamps`brakeLampOn, lamps`hornOn, lamps`left, lamps`right
      reads lamps`blinkOutputOn, lamps.warning`lampOn
    {
      && lamps.Follows(cpu.commands.InForce())
      && Reports(cpu.commands.InForce())
    }

    ghost predicate Reports(c: Option<Command>)
      reads `curTurn, `curWarning
    {
      match c
      case None => curTurn == 0 && curWarning == 0
      case Some(c) => curTurn == c.turn && curWarning == c.warning
    }

    constructor (lamps: Lamps)
      ensures this.lamps == lamps && Reports(None)
    {
      this.lamps := lamps;
      curTurn, curWarning := TURN_OFF, 0;
    }

    method EnterSafeState()
      requires lamps.Valid()
      modifies `curTurn, `curWarning, cpu`lights, lamps, lamps.warning
      ensures lamps.Valid() && lamps.Follows(None) && cpu.lights == AllDark && Reports(None)
      ensures lamps.State() == Blink(false, false, false, 0) && lamps.warning.State() == WarnOff
    {
      curTurn, curWarning := TURN_OFF, 0;
      lamps.AllOff();
    }

    /** The lamps show a command in remote mode, and are dark otherwise. */
    method ApplyBodyCommand(c: Command)
      requires lamps.Valid()
      modifies `curTurn, `curWarning, cpu`lights, lamps, lamps.warning
      ensures var inForce := if c.mode == MODE_REMOTE then Some(c) else None;
              lamps.Valid() && lamps.Follows(inForce) && Reports(inForce)
      ensures Shows(true, if c.mode == MODE_REMOTE then Some(c) else None)
    {
      if c.mode != MODE_REMOTE {
        EnterSafeState();
        return;
      }
      curTurn, curWarning := c.turn, c.warning;
      CarryOut(c);
    }

    /** Request every lamp, the horn and the warning as the command says. */
    method CarryOut(c: Command)
      requires lamps.Valid()
      modifies cpu`lights, lamps, lamps.warning
      ensures lamps.Valid() && lamps.Follows(Some(c)) && Shows(true, Some(c))
    {
      hide CollisionWarning.Valid, Step, Switched;
      SetLamps(c);
      lamps.hornOn := c.horn == ON;
      lamps.warning.SetCollisionWarningLamp(c.warning == ON);
      StepSetsRequest(old(lamps.State()), c.turn as int);
      SwitchedSetsLamp(old(lamps.warning.State()), c.warning == ON);
    }

    lemma StepSetsRequest(b: Blink, mode: int)
      ensures Step(b, Turn(mode)).left == LeftOn(mode) && Step(b, Turn(mode)).right == RightOn(mode)
    {
    }

    lemma SwitchedSetsLamp(w: Warn, on: bool)
      ensures Switched(w, on).lampOn == on
    {
    }

    /** Turn signals and warning after the command part of a call, in which the command in force may be new: a
        new one is carried out, an old one leaves them as they are, and none switches them off. */
    twostate predicate Shows(isNew: bool, inForce: Option<Command>)
      reads lamps`left, lamps`right, lamps`blinkOutputOn, lamps`timerMs, lamps.warning
    {
      match inForce
      case None => !lamps.left && !lamps.right && !lamps.blinkOutputOn && !lamps.warning.lampOn
      case Some(c) =>
        && lamps.State() == (if isNew then Step(old(lamps.State()), Turn(c.turn as int)) else old(lamps.State()))
        && lamps.warning.State() == (if isNew then Switched(old(lamps.warning.State()), c.warning == ON) else old(lamps.warning.State()))
    }

    method SetLamps(c: Command)
      requires lamps.Valid()
      modifies cpu`lights, lamps`headlampOn, lamps`brakeLampOn, lamps`left, lamps`right
      modifies lamps`blinkOutputOn, lamps`timerMs
      ensures lamps.Valid() && (lamps.headlampOn <==> c.headlamp == ON) && (lamps.brakeLampOn <==> c.brake == ON)
      ensures lamps.State() == Step(old(lamps.State()), Turn(c.turn as int))
    {
      lamps.SetHeadlamp(c.headlamp == ON);
      lamps.SetTurnSignal(c.turn as int);
      lamps.SetBrakeLamp(c.brake == ON);
    }

    /** The watchdog and command part of a call.  Whatever has arrived, the lamps are requested afterwards
        by the command that is in force. */
    method UpdateCommand()
      requires cpu.Valid() && lamps.Valid() && Lawful()
      modifies `curTurn, `curWarning, cpu`lights, lamps, lamps.warning
      modifies cpu.commands`updated, cpu.commands`timeoutMs, cpu.commands`calls, cpu.commands`taken
      ensures cpu.Valid() && lamps.Valid() && Lawful() && cpu.commands.calls == old(cpu.commands.calls) + 1
      ensures cpu.commands.taken == |cpu.commands.accepted|
      ensures Shows(cpu.commands.taken > old(cpu.commands.taken), cpu.commands.InForce())
    {
      hide Lamps.Valid, Step, Switched, BodyCpu.Caught;
      var expired, command := cpu.commands.CountAndTake();
      if expired {
        EnterSafeState();
      }
      if command.Some? {
        ApplyBodyCommand(command.value);
      }
    }
  }
}
