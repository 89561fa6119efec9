/**
 The BODY controller as its programs see it: the lamp pins, waiting, and a receive interrupt that may
 fire whenever they wait and at the beginning of each task.

 The environment is arbitrary: arrivals(k) are the frames delivered at the k-th interruption point, and
 echo(k) is what the k-th distance measurement reports and how long it takes.
 */
module BodyCpu {
  import opened BodyRx
  import opened BodyUds
  import opened Bytes
  import opened Sequences
  import opened UdsSlot

  datatype Lights = Lights(head: bool, brake: bool, left: bool, right: bool)

  const AllLit := Lights(true, true, true, true)
  const AllDark := Lights(false, false, false, false)

  /** One microsecond: the lamps, and how many calls of the 1 ms task had been made. */
  datatype Sample = Sample(lights: Lights, calls: nat)

  datatype Echo = Echo(distance: Option<nat>, us: nat)

  /** The requests among a batch of frames. */
  function RequestsIn(frames: seq<RxFrame>, calls: nat): seq<Received> {
    if frames == [] then []
    else RequestsIn(frames[..|frames| - 1], calls) + RequestIn(frames[|frames| - 1], calls)
  }

  function RequestIn(f: RxFrame, calls: nat): seq<Received> {
    if IsRequest(f) then [Received(f.data, calls)] else []
  }

  /** The commands in the frames of the first n interruption points. */
  function CommandsBy(arrivals: nat -> seq<RxFrame>, n: nat): seq<Command> {
    if n == 0 then [] else CommandsBy(arrivals, n - 1) + Plain(CommandsIn(arrivals(n - 1), 0))
  }

  /** The requests in them. */
  function RequestsBy(arrivals: nat -> seq<RxFrame>, n: nat): seq<seq<byte>> {
    if n == 0 then [] else RequestsBy(arrivals, n - 1) + DataOf(RequestsIn(arrivals(n - 1), 0))
  }

  lemma {:induction false} CallsDoNotMatter(frames: seq<RxFrame>, calls: nat)
    ensures Plain(CommandsIn(frames, calls)) == Plain(CommandsIn(frames, 0))
    ensures DataOf(RequestsIn(frames, calls)) == DataOf(RequestsIn(frames, 0))
  {
    if frames != [] {
      var before, f := frames[..|frames| - 1], frames[|frames| - 1];
      CallsDoNotMatter(before, calls);
      PlainAppend(CommandsIn(before, calls), CommandIn(f, calls));
      PlainAppend(CommandsIn(before, 0), CommandIn(f, 0));
      DataAppend(RequestsIn(before, calls), RequestIn(f, calls));
      DataAppend(RequestsIn(before, 0), RequestIn(f, 0));
    }
  }

  /** One interruption point more. */
  lemma CaughtStep(accepted: seq<Accepted>, received: seq<Received>, arrivals: nat -> seq<RxFrame>, n: nat, calls: nat)
    requires Plain(accepted) == CommandsBy(arrivals, n) && DataOf(received) == RequestsBy(arrivals, n)
    ensures Plain(accepted + CommandsIn(arrivals(n), calls)) == CommandsBy(arrivals, n + 1)
    ensures DataOf(received + RequestsIn(arrivals(n), calls)) == RequestsBy(arrivals, n + 1)
  {
    CallsDoNotMatter(arrivals(n), calls);
    PlainAppend(accepted, CommandsIn(arrivals(n), calls));
    DataAppend(received, RequestsIn(arrivals(n), calls));
  }

  /** Without commands in any frame none is accepted. */
  lemma {:induction false} NoneBy(arrivals: nat -> seq<RxFrame>, n: nat)
    requires forall k, i :: 0 <= i < |arrivals(k)| ==> Decode(arrivals(k)[i]) == None
    ensures CommandsBy(arrivals, n) == []
  {
    if n > 0 {
      NoneBy(arrivals, n - 1);
      NoneIn(arrivals(n - 1));
    }
  }

  lemma {:induction false} NoneIn(frames: seq<RxFrame>)
    requires forall i :: 0 <= i < |frames| ==> Decode(frames[i]) == None
    ensures CommandsIn(frames, 0) == []
  {
    if frames != [] {
      NoneIn(frames[..|frames| - 1]);
    }
  }

  class BodyCpu {
    const commands: CommandBox
    const slot: RequestSlot
    const arrivals: nat -> seq<RxFrame>
    const echo: nat -> Echo

    var lights: Lights
    var interruptions: nat
    var measurements: nat
    ghost var trace: seq<Sample>

    /** No command ever arrives. */
    ghost predicate NoCommands() {
      forall k, i :: 0 <= i < |arrivals(k)| ==> Decode(arrivals(k)[i]) == None
    }

    /** Every frame delivered so far has been handled, in order: exactly its commands have been accepted, and
        exactly its requests received. */
    ghost predicate Caught()
      reads `interruptions, commands`accepted, slot`received
    {
      && Plain(commands.accepted) == CommandsBy(arrivals, interruptions)
      && DataOf(slot.received) == RequestsBy(arrivals, interruptions)
    }

    lemma NoneAccepted()
      requires Valid() && NoCommands()
      ensures commands.accepted == []
    {
      NoneBy(arrivals, interruptions);
      assert |Plain(commands.accepted)| == |commands.accepted|;
    }

    /** Requests are dated by the calls of the 1 ms task. */
    ghost predicate Valid()
      reads `interruptions, commands, slot
    {
      commands.Valid() && slot.Valid(commands.calls) && Caught()
    }

    /** The interrupt may have run, but nothing else has touched what it writes. */
    twostate predicate OnlyReceived()
      reads commands, slot
    {
      && commands.calls == old(commands.calls) && commands.taken == old(commands.taken)
      && old(commands.accepted) <= commands.accepted
      && slot.taken == old(slot.taken) && slot.checkedAt == old(slot.checkedAt)
      && old(slot.received) <= slot.received
    }

    ghost function Current(): Sample
      reads `lights, commands`calls
    {
      Sample(lights, commands.calls)
    }

    constructor (arrivals: nat -> seq<RxFrame>, echo: nat -> Echo)
      ensures Valid() && trace == [] && fresh(commands) && fresh(slot) && lights == AllDark && interruptions == 0
      ensures commands.accepted == [] && commands.calls == 0 && slot.checkedAt == 0 && slot.received == []
      ensures this.arrivals == arrivals && this.echo == echo && measurements == 0
    {
      commands := new CommandBox();
      slot := new RequestSlot();
      this.arrivals, this.echo := arrivals, echo;
      lights, interruptions, measurements, trace := AllDark, 0, 0, [];
    }

    /** The receive interrupt: by its id a frame is a request or a command, if it is well-formed. */
    method RxIsr(f: RxFrame)
      requires commands.Valid() && slot.Valid(commands.calls)
      modifies commands`rx, commands`updated, commands`timeoutMs, commands`accepted
      modifies slot`pending, slot`data, slot`received
      ensures commands.Valid() && slot.Valid(commands.calls)
      ensures commands.accepted == old(commands.accepted) + CommandIn(f, commands.calls)
      ensures slot.received == old(slot.received) + RequestIn(f, commands.calls)
    {
      if f.id == REQUEST_ID {
        if f.dlc == DLC_8_BYTES {
          slot.Store(f.data, commands.calls);
        }
        return;
      }
      commands.Receive(f);
    }

    /** An interruption point: the receive interrupt runs once for each frame that has arrived. */
    method Interrupt()
      requires Valid()
      modifies `interruptions, commands`rx, commands`updated, commands`timeoutMs, commands`accepted
      modifies slot`pending, slot`data, slot`received
      ensures Valid() && OnlyReceived() && interruptions == old(interruptions) + 1
      ensures commands.accepted == old(commands.accepted) + CommandsIn(arrivals(old(interruptions)), commands.calls)
      ensures slot.received == old(slot.received) + RequestsIn(arrivals(old(interruptions)), commands.calls)
    {
      hide Plain, DataOf, CommandsBy, RequestsBy, CommandsIn, RequestsIn, CommandBox.Valid, RequestSlot.Valid;
      CaughtStep(commands.accepted, slot.received, arrivals, interruptions, commands.calls);
      var frames := arrivals(interruptions);
      interruptions := interruptions + 1;
      ReceiveAll(frames);
    }

    /** One interrupt for each frame, in the order of their arrival. */
    method ReceiveAll(frames: seq<RxFrame>)
      requires commands.Valid() && slot.Valid(commands.calls)
      modifies commands`rx, commands`updated, commands`timeoutMs, commands`accepted
      modifies slot`pending, slot`data, slot`received
      ensures commands.Valid() && slot.Valid(commands.calls)
      ensures commands.accepted == old(commands.accepted) + CommandsIn(frames, commands.calls)
      ensures slot.received == old(slot.received) + RequestsIn(frames, commands.calls)
    {
      if frames == [] {
        return;
      }
      var last := |frames| - 1;
      ReceiveAll(frames[..last]);
      RxIsr(frames[last]);
      ghost var calls := commands.calls;
      Associate(old(commands.accepted), CommandsIn(frames[..last], calls), CommandIn(frames[last], calls));
      Associate(old(slot.received), RequestsIn(frames[..last], calls), RequestIn(frames[last], calls));
    }

    /** Waiting before the receive interrupt is enabled. */
    method DelayMsUnreceptive(ms: nat)
      modifies `trace
      ensures trace == old(trace) + Held(Current(), 1000 * ms)
    {
      for i := 0 to ms
        invariant trace == old(trace) + Held(Current(), 1000 * i)
      {
        trace := trace + Held(Current(), 1000);
        Associate(old(trace), Held(Current(), 1000 * i), Held(Current(), 1000));
        assert Held(Current(), 1000 * i) + Held(Current(), 1000) == Held(Current(), 1000 * (i + 1));
      }
    }

    /** waitTime: what has arrived meanwhile is received. */
    method WaitTime(us: nat)
      requires Valid()
      modifies `trace, `interruptions, commands`rx, commands`updated, commands`timeoutMs, commands`accepted
      modifies slot`pending, slot`data, slot`received
      ensures Valid() && OnlyReceived() && trace == old(trace) + Held(Current(), us)
      ensures interruptions == old(interruptions) + 1
    {
      trace := trace + Held(Current(), us);
      Interrupt();
    }

    method DelayMs(ms: nat)
      requires Valid()
      modifies `trace, `interruptions, commands`rx, commands`updated, commands`timeoutMs, commands`accepted
      modifies slot`pending, slot`data, slot`received
      ensures Valid() && OnlyReceived() && trace == old(trace) + Held(Current(), 1000 * ms)
      ensures interruptions == old(interruptions) + ms
    {
      for i := 0 to ms
        invariant Valid() && OnlyReceived() && trace == old(trace) + Held(Current(), 1000 * i)
        invariant interruptions == old(interruptions) + i
      {
        WaitTime(1000);
        Associate(old(trace), Held(Current(), 1000 * i), Held(Current(), 1000));
        assert Held(Current(), 1000 * i) + Held(Current(), 1000) == Held(Current(), 1000 * (i + 1));
      }
    }

    /** A distance measurement: it takes its time, and may fail. */
    method Measure() returns (distance: Option<nat>)
      requires Valid()
      modifies `measurements, `trace, `interruptions, commands`rx, commands`updated, commands`timeoutMs, commands`accepted
      modifies slot`pending, slot`data, slot`received
      ensures Valid() && OnlyReceived() && trace == old(trace) + Held(Current(), echo(old(measurements)).us)
      ensures distance == echo(old(measurements)).distance
      ensures measurements == old(measurements) + 1 && interruptions == old(interruptions) + 1
    {
      var e := echo(measurements);
      measurements := measurements + 1;
      WaitTime(e.us);
      return e.distance;
    }
  }
}
