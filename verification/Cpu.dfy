/**
 The ACT controller as its driver code sees it: a microsecond clock that only
 waitTime advances, the output pins, and a receive interrupt that may fire at any
 microsecond and between any two calls of the main loop.

 The environment is an arbitrary function: arrivals(k) are the frames delivered at
 the k-th interruption point, and encoder.line is the level of the encoder wire.
 The ghost trace records the pins during every microsecond since power-on.
 */
module ActCpu {
  import opened Bytes
  import opened ActCanRx
  import opened EncoderDriver
  import opened Sequences
  import opened UdsSlot

  /** pwmA and pwmB power the motor channels; dirA is high for forward, dirB low for forward. */
  datatype Pins = Pins(pwmA: bool, pwmB: bool, brake: bool, dirA: bool, dirB: bool, servo: bool)

  /** Why the motor may be powered during one microsecond. */
  datatype Authority = Idle | ByTest | ByCommand(command: Accepted)

  datatype Sample = Sample(pins: Pins, authority: Authority)

  class Cpu {
    const encoder: Encoder
    const mailbox: RxMailbox
    const slot: RequestSlot
    const arrivals: nat -> seq<RxFrame>

    var now: nat
    var interruptions: nat
    var pins: Pins
    ghost var authority: Authority
    ghost var trace: seq<Sample>

    /** Every frame delivered so far has been handled, in order: exactly its commands have been accepted, and
        exactly its requests received. */
    ghost predicate Caught()
      reads `interruptions, mailbox`accepted, slot`received
    {
      && Plain(mailbox.accepted) == CommandsBy(arrivals, interruptions)
      && DataOf(slot.received) == RequestsBy(arrivals, interruptions)
    }

    ghost predicate Waiting()
      reads `now, `interruptions, `trace, encoder, mailbox, slot
    {
      && |trace| == now
      && encoder.Valid() && encoder.polledAt <= now
      && encoder.longestGap <= POLL_STEP_US
      && mailbox.Valid(now) && slot.Valid(now) && Caught()
    }

    /** Between two driver calls the encoder has been sampled in the current microsecond. */
    ghost predicate Valid()
      reads `now, `interruptions, `trace, encoder, mailbox, slot
    {
      Waiting() && encoder.polledAt == now
    }

    /** The interrupt may have run, but nothing else has touched what it writes. */
    twostate predicate OnlyReceived()
      reads mailbox, slot
    {
      && mailbox.callTimes == old(mailbox.callTimes) && mailbox.taken == old(mailbox.taken)
      && old(mailbox.accepted) <= mailbox.accepted
      && slot.taken == old(slot.taken) && slot.checkedAt == old(slot.checkedAt)
      && old(slot.received) <= slot.received
    }

    /** Since the old state exactly the microseconds of t have passed; the interrupt may have
        run, but no watchdog call, no counter reset and no change of authority has happened. */
    twostate predicate Passed(t: seq<Sample>)
      reads this, encoder, mailbox, slot
    {
      && now == old(now) + |t| && trace == old(trace) + t
      && authority == old(authority) && interruptions == old(interruptions) + |t|
      && encoder.resetAt == old(encoder.resetAt)
      && OnlyReceived()
    }

    /** Restarting the encoder disturbs nothing else. */
    twostate lemma StaysValid()
      requires old(Valid()) && encoder.Valid()
      requires encoder.polledAt == old(encoder.polledAt) && encoder.longestGap == old(encoder.longestGap)
      requires unchanged(`now, `interruptions, `trace, mailbox, slot`received) && slot.Valid(now)
      ensures Valid()
    {
    }

    ghost function Current(): Sample
      reads `pins, `authority
    {
      Sample(pins, authority)
    }

    constructor (line: nat -> bool, arrivals: nat -> seq<RxFrame>)
      ensures Valid() && now == 0 && trace == [] && fresh(encoder) && fresh(mailbox) && fresh(slot)
      ensures mailbox.accepted == [] && mailbox.callTimes == [] && mailbox.taken == 0
      ensures slot.received == [] && slot.taken == 0 && slot.checkedAt == 0
      ensures encoder.line == line && this.arrivals == arrivals && encoder.count == 0 && encoder.resetAt == 0
      ensures authority == Idle && pins == Pins(false, false, false, false, false, false)
    {
      encoder := new Encoder(line, 0);
      mailbox := new RxMailbox(0);
      slot := new RequestSlot();
      this.arrivals := arrivals;
      now, interruptions := 0, 0;
      pins := Pins(false, false, false, false, false, false);
      authority, trace := Idle, [];
    }

    /** The receive interrupt: by its id a frame is a request or a command, if it is well-formed. */
    method RxIsr(f: RxFrame)
      requires mailbox.Valid(now) && slot.Valid(now)
      modifies mailbox, slot
      ensures mailbox.Valid(now) && slot.Valid(now)
      ensures mailbox.callTimes == old(mailbox.callTimes) && mailbox.taken == old(mailbox.taken)
      ensures slot.taken == old(slot.taken) && slot.checkedAt == old(slot.checkedAt)
      ensures mailbox.invalidCount == old(mailbox.invalidCount) + if Decode(f).None? && !IsRequest(f) then 1 else 0
      ensures mailbox.accepted == old(mailbox.accepted) + CommandIn(f, now, |mailbox.callTimes|)
      ensures slot.received == old(slot.received) + RequestIn(f, now)
    {
      if f.id == UDS_REQUEST_ID {
        if f.fd && f.dlc == UDS_DLC {
          slot.Store(f.data, now);
        } else {
          mailbox.invalidCount := mailbox.invalidCount + 1;
        }
        return;
      }
      mailbox.Receive(f, now);
    }

    /** An interruption point: the receive interrupt runs once for each frame that has arrived. */
    method Interrupt()
      requires Waiting()
      modifies `interruptions, mailbox, slot
      ensures Waiting() && OnlyReceived() && interruptions == old(interruptions) + 1
      ensures mailbox.accepted
              == old(mailbox.accepted) + Commands(arrivals(old(interruptions)), now, |mailbox.callTimes|)
      ensures slot.received == old(slot.received) + Requests(arrivals(old(interruptions)), now)
    {
      hide Plain, DataOf, CommandsBy, RequestsBy, Commands, Requests, RxMailbox.Valid, RequestSlot.Valid, Encoder.Valid;
      CaughtStep(mailbox.accepted, slot.received, arrivals, interruptions, now, |mailbox.callTimes|);
      var frames := arrivals(interruptions);
      interruptions := interruptions + 1;
      ReceiveAll(frames);
    }

    /** One interrupt for each frame, in the order of their arrival. */
    method ReceiveAll(frames: seq<RxFrame>)
      requires mailbox.Valid(now) && slot.Valid(now)
      modifies mailbox, slot
      ensures mailbox.Valid(now) && slot.Valid(now)
      ensures mailbox.callTimes == old(mailbox.callTimes) && mailbox.taken == old(mailbox.taken)
      ensures slot.taken == old(slot.taken) && slot.checkedAt == old(slot.checkedAt)
      ensures mailbox.accepted == old(mailbox.accepted) + Commands(frames, now, |mailbox.callTimes|)
      ensures slot.received == old(slot.received) + Requests(frames, now)
    {
      if frames == [] {
        return;
      }
      var last := |frames| - 1;
      ReceiveAll(frames[..last]);
      RxIsr(frames[last]);
      ghost var calls := |mailbox.callTimes|;
      Associate(old(mailbox.accepted), Commands(frames[..last], now, calls), CommandIn(frames[last], now, calls));
      Associate(old(slot.received), Requests(frames[..last], now), RequestIn(frames[last], now));
    }

    /** One microsecond passes. */
    method WaitOne()
      requires Waiting()
      modifies `now, `interruptions, `trace, mailbox, slot
      ensures Waiting() && Passed([Current()])
    {
      hide Caught, Encoder.Valid;
      trace := trace + [Current()];
      now := now + 1;
      Interrupt();
    }

    /** waitTime: busy-wait; the interrupt may fire at every microsecond of it. */
    method WaitTime(us: nat)
      requires Waiting()
      modifies `now, `interruptions, `trace, mailbox, slot
      ensures Waiting() && Passed(Held(Current(), us))
    {
      hide Waiting;
      for i := 0 to us
        invariant Waiting() && Passed(Held(Current(), i))
      {
        WaitOne();
      }
    }

    /** Wait at most one poll step and sample the encoder. */
    method WaitAndPoll(us: nat)
      requires Valid() && us <= POLL_STEP_US
      modifies `now, `interruptions, `trace, mailbox, slot, encoder
      ensures Valid() && Passed(Held(Current(), us)) && encoder.updates == old(encoder.updates)
    {
      hide Caught, RxMailbox.Valid, RequestSlot.Valid;
      WaitTime(us);
      encoder.Poll(now);
    }

    /** delayUs of Motor.c and Servo.c: wait in steps of 50 us and poll the encoder after each. */
    method DelayUs(delay: nat)
      requires Valid()
      modifies `now, `interruptions, `trace, mailbox, slot, encoder
      ensures Valid() && Passed(Held(Current(), delay)) && encoder.updates == old(encoder.updates)
    {
      hide Valid;
      var us: nat := delay;
      while us >= POLL_STEP_US
        invariant Valid() && us <= delay && Passed(Held(Current(), delay - us))
        invariant encoder.updates == old(encoder.updates)
      {
        WaitAndPoll(POLL_STEP_US);
        us := us - POLL_STEP_US;
      }
      if us > 0 {
        WaitAndPoll(us);
      }
    }
  }
}
