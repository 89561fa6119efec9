/**
 Receive side of the ACT ECU: the volatile variables written by the CAN receive
 interrupt, for commands (ACT/ActCan.c) and for diagnostic requests (ACT/UdsDiag.c).

 The interrupt is one atomic step.  Ghost fields remember every accepted command and
 request with its time, and the time of every call of the 100 us watchdog.
 */
module ActCanRx {
  import opened Bytes
  import opened UdsSlot

  const CMD_ID := 0x100
  const UDS_REQUEST_ID := 0x700
  const CMD_DLC := 6
  const UDS_DLC := 8
  const TIMEOUT_TICKS := 2000

  const STEERING_LEFT := 1
  const STEERING_RIGHT := 2
  const GEAR_P := 0
  const GEAR_R := 1
  const GEAR_N := 2
  const GEAR_D := 3
  const MODE_STANDBY := 0
  const MODE_REMOTE := 1
  const MODE_DIAGNOSTIC := 2
  const SAFETY_NORMAL := 0
  const SAFETY_FORCE_STOP := 1

  datatype Command = Command(accel: byte, steering: byte, brake: byte, gear: byte, mode: byte, safety: byte)

  /** A command accepted by the interrupt: when, and after how many watchdog calls. */
  datatype Accepted = Accepted(cmd: Command, time: nat, calls: nat)

  predicate ValidCommand(c: Command) {
    && c.accel <= 1 && c.steering <= 2 && c.brake <= 1
    && c.gear <= 3 && c.mode <= 2 && c.safety <= 1
  }

  /** The command carried by a frame, if the interrupt accepts it. */
  function Decode(f: RxFrame): (c: Option<Command>)
    ensures c.Some? ==> f.id == CMD_ID && f.fd && f.dlc == CMD_DLC && ValidCommand(c.value)
  {
    if f.id != CMD_ID || !f.fd || f.dlc != CMD_DLC then None
    else
      var c := Command(f.data[0], f.data[1], f.data[2], f.data[3], f.data[4], f.data[5]);
      if ValidCommand(c) then Some(c) else None
  }

  /** A well-formed diagnostic request frame. */
  predicate IsRequest(f: CanFrame) { f.id == UDS_REQUEST_ID && f.fd && f.dlc == UDS_DLC }

  function CommandIn(f: RxFrame, time: nat, calls: nat): seq<Accepted> {
    if Decode(f).Some? then [Accepted(Decode(f).value, time, calls)] else []
  }

  function RequestIn(f: RxFrame, time: nat): seq<Received> {
    if IsRequest(f) then [Received(f.data, time)] else []
  }

  /** The commands among a batch of frames. */
  function Commands(frames: seq<RxFrame>, time: nat, calls: nat): seq<Accepted> {
    if frames == [] then []
    else Commands(frames[..|frames| - 1], time, calls) + CommandIn(frames[|frames| - 1], time, calls)
  }

  /** The requests among a batch of frames. */
  function Requests(frames: seq<RxFrame>, time: nat): seq<Received> {
    if frames == [] then [] else Requests(frames[..|frames| - 1], time) + RequestIn(frames[|frames| - 1], time)
  }

  function Plain(accepted: seq<Accepted>): seq<Command> {
    seq(|accepted|, i requires 0 <= i < |accepted| => accepted[i].cmd)
  }

  /** The commands in the frames of the first n interruption points. */
  function CommandsBy(arrivals: nat -> seq<RxFrame>, n: nat): seq<Command> {
    if n == 0 then [] else CommandsBy(arrivals, n - 1) + Plain(Commands(arrivals(n - 1), 0, 0))
  }

  /** The requests in them. */
  function RequestsBy(arrivals: nat -> seq<RxFrame>, n: nat): seq<seq<byte>> {
    if n == 0 then [] else RequestsBy(arrivals, n - 1) + DataOf(Requests(arrivals(n - 1), 0))
  }

  lemma PlainAppend(a: seq<Accepted>, b: seq<Accepted>)
    ensures Plain(a + b) == Plain(a) + Plain(b)
  {
  }

  lemma {:induction false} TimesDoNotMatter(frames: seq<RxFrame>, time: nat, calls: nat)
    ensures Plain(Commands(frames, time, calls)) == Plain(Commands(frames, 0, 0))
    ensures DataOf(Requests(frames, time)) == DataOf(Requests(frames, 0))
  {
    if frames != [] {
      var before, f := frames[..|frames| - 1], frames[|frames| - 1];
      TimesDoNotMatter(before, time, calls);
      PlainAppend(Commands(before, time, calls), CommandIn(f, time, calls));
      PlainAppend(Commands(before, 0, 0), CommandIn(f, 0, 0));
      DataAppend(Requests(before, time), RequestIn(f, time));
      DataAppend(Requests(before, 0), RequestIn(f, 0));
    }
  }

  /** One interruption point more. */
  lemma CaughtStep(accepted: seq<Accepted>, received: seq<Received>, arrivals: nat -> seq<RxFrame>, n: nat, time: nat, calls: nat)
    requires Plain(accepted) == CommandsBy(arrivals, n) && DataOf(received) == RequestsBy(arrivals, n)
    ensures Plain(accepted + Commands(arrivals(n), time, calls)) == CommandsBy(arrivals, n + 1)
    ensures DataOf(received + Requests(arrivals(n), time)) == RequestsBy(arrivals, n + 1)
  {
    TimesDoNotMatter(arrivals(n), time, calls);
    PlainAppend(accepted, Commands(arrivals(n), time, calls));
    DataAppend(received, Requests(arrivals(n), time));
  }

  class RxMailbox {
    var rx: Command
    var updated: bool
    var tick: nat
    var enteredByTimeout: bool
    var rxCount: nat
    var invalidCount: nat

    ghost var accepted: seq<Accepted>
    ghost var callTimes: seq<nat>
    // How many of the accepted commands are no longer new.
    ghost var taken: nat

    /** What the interrupt and the watchdog keep between them, at any time now. */
    ghost predicate Valid(now: nat)
      reads `rx, `updated, `tick, `accepted, `callTimes, `taken
    {
      && tick <= TIMEOUT_TICKS
      && (forall i :: 0 <= i < |callTimes| ==> callTimes[i] <= now)
      && (forall i :: 0 <= i < |accepted| ==> Genuine(accepted[i], now))
      && taken <= |accepted| && (updated <==> taken < |accepted|)
      && (accepted == [] ==> tick == TIMEOUT_TICKS)
      && (accepted != [] ==>
            && rx == Last().cmd
            && tick == Min(TIMEOUT_TICKS, |callTimes| - Last().calls)
            && (updated ==> Last().calls == |callTimes|))
    }

    ghost predicate Genuine(a: Accepted, now: nat)
      reads `callTimes
    {
      && ValidCommand(a.cmd) && a.time <= now && a.calls <= |callTimes|
      && (a.calls > 0 ==> callTimes[a.calls - 1] <= a.time)
    }

    ghost function Last(): Accepted
      requires accepted != []
      reads `accepted
    {
      accepted[|accepted| - 1]
    }

    constructor (now: nat)
      ensures Valid(now) && accepted == [] && callTimes == [] && taken == 0
      ensures tick == TIMEOUT_TICKS && !updated && !enteredByTimeout && rx == Command(0, 0, 0, 0, 0, 0)
      ensures rxCount == invalidCount == 0
    {
      rx := Command(0, 0, 0, 0, 0, 0);
      updated, tick, enteredByTimeout := false, TIMEOUT_TICKS, false;
      rxCount, invalidCount := 0, 0;
      accepted, callTimes, taken := [], [], 0;
    }

    /** The command part of the receive interrupt: a well-formed command is stored, anything else rejected. */
    method Receive(f: RxFrame, ghost now: nat)
      requires Valid(now)
      modifies this
      ensures Valid(now) && callTimes == old(callTimes) && taken == old(taken)
      ensures Decode(f).Some? ==>
                && accepted == old(accepted) + [Accepted(Decode(f).value, now, |callTimes|)]
                && updated && tick == 0 && !enteredByTimeout && rx == Decode(f).value
                && rxCount == old(rxCount) + 1 && invalidCount == old(invalidCount)
      ensures Decode(f).None? ==>
                && accepted == old(accepted) && updated == old(updated) && tick == old(tick)
                && rx == old(rx) && enteredByTimeout == old(enteredByTimeout) && rxCount == old(rxCount)
                && invalidCount == old(invalidCount) + 1
    {
      if f.id != CMD_ID || !f.fd || f.dlc != CMD_DLC {
        invalidCount := invalidCount + 1;
        return;
      }
      var c := Command(f.data[0], f.data[1], f.data[2], f.data[3], f.data[4], f.data[5]);
      if !ValidCommand(c) {
        invalidCount := invalidCount + 1;
        return;
      }
      Store(c, now);
    }

    /** Store a valid command and restart the timeout. */
    method Store(c: Command, ghost now: nat)
      requires Valid(now) && ValidCommand(c)
      modifies `tick, `enteredByTimeout, `rx, `updated, `rxCount, `accepted
      ensures Valid(now) && accepted == old(accepted) + [Accepted(c, now, |callTimes|)]
      ensures updated && tick == 0 && !enteredByTimeout && rx == c && rxCount == old(rxCount) + 1
    {
      tick := 0;
      enteredByTimeout := false;
      rx := c;
      updated := true;
      rxCount := rxCount + 1;
      accepted := accepted + [Accepted(c, now, |callTimes|)];
    }

    /** 2000 watchdog calls have been made since the last accepted command. */
    ghost predicate Expired()
      reads `accepted, `callTimes
    {
      accepted == [] || |callTimes| - Last().calls >= TIMEOUT_TICKS
    }

    /** First half of one 100 us call: count a saturating tick, then report that time has run
        out, or take the command if a new one has arrived. */
    method CountTickAndTake(ghost now: nat) returns (expired: bool, command: Option<Command>)
      requires Valid(now)
      modifies `tick, `updated, `callTimes, `taken
      ensures Valid(now) && callTimes == old(callTimes) + [now]
      ensures expired <==> Expired()
      ensures !updated && (expired ==> !old(updated)) && taken == |accepted|
      ensures command == if old(updated) then Some(Last().cmd) else None
    {
      if tick < TIMEOUT_TICKS {
        tick := tick + 1;
      }
      callTimes := callTimes + [now];
      expired, command := tick >= TIMEOUT_TICKS, None;
      if expired {
        return;
      }
      if updated {
        command := Some(rx);
        updated := false;
        taken := |accepted|;
      }
    }
  }

  function Min(a: int, b: int): int { if a <= b then a else b }
}
