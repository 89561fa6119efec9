/**
 Receive side of the BODY ECU (BODY/BodyCan.c): the newest command and its age, counted in calls
 of the 1 ms task.
 */
module BodyRx {
  import opened Bytes

  const CMD_ID := 0x110
  const CMD_DLC := 6
  const TIMEOUT_MS := 200
  const MODE_STANDBY: byte := 0
  const MODE_REMOTE: byte := 1

  datatype Command = Command(headlamp: byte, turn: byte, brake: byte, horn: byte, warning: byte, mode: byte)

  /** A command accepted by the interrupt, and after how many calls of the 1 ms task. */
  datatype Accepted = Accepted(cmd: Command, calls: nat)

  predicate ValidCommand(c: Command) {
    c.headlamp <= 1 && c.turn <= 3 && c.brake <= 1 && c.horn <= 1 && c.warning <= 1 && c.mode <= 2
  }

  /** The command carried by a frame, if the interrupt accepts it. */
  function Decode(f: RxFrame): (c: Option<Command>)
    ensures c.Some? ==> f.id == CMD_ID && f.dlc == CMD_DLC && ValidCommand(c.value)
  {
    if f.id != CMD_ID || f.dlc != CMD_DLC then None
    else
      var c := Command(f.data[0], f.data[1], f.data[2], f.data[3], f.data[4], f.data[5]);
      if ValidCommand(c) then Some(c) else None
  }

  function Plain(accepted: seq<Accepted>): seq<Command> {
    seq(|accepted|, i requires 0 <= i < |accepted| => accepted[i].cmd)
  }

  lemma PlainAppend(a: seq<Accepted>, b: seq<Accepted>)
    ensures Plain(a + b) == Plain(a) + Plain(b)
  {
  }

  /** The commands among a batch of frames. */
  function CommandsIn(frames: seq<RxFrame>, calls: nat): seq<Accepted> {
    if frames == [] then []
    else CommandsIn(frames[..|frames| - 1], calls) + CommandIn(frames[|frames| - 1], calls)
  }

  function CommandIn(f: RxFrame, calls: nat): seq<Accepted> {
    if Decode(f).Some? then [Accepted(Decode(f).value, calls)] else []
  }

  class CommandBox {
    var rx: Command
    var updated: bool
    var timeoutMs: nat

    ghost var accepted: seq<Accepted>
    ghost var calls: nat
    // How many of the accepted commands are no longer new.
    ghost var taken: nat

    ghost predicate Valid()
      reads this
    {
      && taken <= |accepted| && (updated <==> taken < |accepted|)
      && (forall i :: 0 <= i < |accepted| ==> accepted[i].calls <= calls)
      && (taken > 0 ==> accepted[taken - 1].calls < calls)
      && (accepted == [] ==> timeoutMs == TIMEOUT_MS)
      && (accepted != [] ==>
            && rx == Last().cmd && timeoutMs == (if calls - Last().calls < TIMEOUT_MS then calls - Last().calls else TIMEOUT_MS)
            && (updated ==> Last().calls == calls))
    }

    ghost function Last(): Accepted
      requires accepted != []
      reads `accepted
    {
      accepted[|accepted| - 1]
    }

    /** The command that decides what the lamps show: the last one taken, if it is in remote mode and fewer
        than 200 calls old. */
    ghost function InForce(): (c: Option<Command>)
      requires Valid()
      reads this
    {
      if taken > 0 && calls - accepted[taken - 1].calls < TIMEOUT_MS && accepted[taken - 1].cmd.mode == MODE_REMOTE
      then Some(accepted[taken - 1].cmd) else None
    }

    constructor ()
      ensures Valid() && accepted == [] && calls == 0
    {
      rx, updated, timeoutMs := Command(0, 0, 0, 0, 0, 0), false, TIMEOUT_MS;
      accepted, calls, taken := [], 0, 0;
    }

    /** The command part of the receive interrupt: a valid command becomes the newest one, anything else is ignored. */
    method Receive(f: RxFrame)
      requires Valid()
      modifies `rx, `updated, `timeoutMs, `accepted
      ensures Valid() && accepted == old(accepted) + CommandIn(f, calls)
      ensures Decode(f).Some? ==>
                accepted == old(accepted) + [Accepted(Decode(f).value, calls)] && updated && timeoutMs == 0
      ensures Decode(f).None? ==>
                accepted == old(accepted) && updated == old(updated) && timeoutMs == old(timeoutMs)
    {
      if f.id != CMD_ID || f.dlc != CMD_DLC {
        return;
      }
      var c := Command(f.data[0], f.data[1], f.data[2], f.data[3], f.data[4], f.data[5]);
      if !ValidCommand(c) {
        return;
      }
      timeoutMs, rx, updated := 0, c, true;
      accepted := accepted + [Accepted(c, calls)];
    }

    /** One call: the age of the newest command, whether it has timed out, and the command if it is new. */
    method CountAndTake() returns (expired: bool, command: Option<Command>)
      requires Valid()
      modifies `updated, `timeoutMs, `calls, `taken
      ensures Valid() && calls == old(calls) + 1 && taken == |accepted| && !updated
      ensures command.Some? <==> taken > old(taken)
      ensures expired <==> accepted == [] || calls - Last().calls >= TIMEOUT_MS
      ensures command == if old(updated) then Some(Last().cmd) else None
      ensures command.None? ==> taken == old(taken)
      ensures command.Some? ==> !expired && InForce() == if command.value.mode == MODE_REMOTE then command else None
    {
      if timeoutMs < TIMEOUT_MS {
        timeoutMs := timeoutMs + 1;
      }
      calls := calls + 1;
      expired, command := timeoutMs >= TIMEOUT_MS, None;
      if updated {
        updated, command := false, Some(rx);
      }
      taken := |accepted|;
    }
  }
}
