/**
 Communication layer of the gateway (MAIN/BSW/Service/com.c and swc.c): it turns control
 packets from the PC into the 0x100 frames for ACT, and watches its peers with a 32-bit
 millisecond clock that wraps around.

 The functions give the meaning of each operation; class Com is the code.
 */
module MainCom {
  import opened Bytes
  import opened DtcMonitor
  import opened MainDcm
  import opened Sequences

  const TIMEOUT_MS := 500
  const TX_CONTROL_MS := 20
  const WRAP: nat := 0x1_0000_0000
  const US_PER_MS := 1000

  const MODE_DEFAULT: byte := 0
  const MODE_REMOTE: byte := 1
  const MODE_DIAG: byte := 2
  const OVERRIDE_NORMAL: byte := 0
  const OVERRIDE_BRAKE: byte := 1
  const TIMEOUT_LIGHTS: byte := 3
  const IGNITION_OFF: byte := 0
  const IGNITION_ON: byte := 1

  datatype Control = Control(accel: byte, brake: byte, steer: byte, gear: byte,
                             turn: byte, horn: byte, ignition: byte, headLight: byte)

  /** A control packet from the PC and the microsecond at which it was processed. */
  datatype Packet = Packet(control: Control, time: nat)

  /** A 0x100 frame: its bytes, the times of the timeout check and of the transmission in its pass,
      and how many control packets had been received by then. */
  datatype Sent = Sent(data: seq<byte>, checkedAt: nat, sentAt: nat, received: nat)

  /** The 32-bit tick counter at microsecond t. */
  function Clock(t: nat): nat { t / US_PER_MS % WRAP }

  /** Unsigned 32-bit subtraction, as the code compares times. */
  function Elapsed(now: nat, last: nat): nat { (now - last) % WRAP }

  datatype State = State(control: Control, mode: byte, override: byte, collisionWarn: byte,
                         lastUdp: nat, lastAct: nat, lastBody: nat)

  /** The bytes of a control packet that are read. */
  type ControlPacket = p: seq<byte> | |p| >= 9 witness Zeros(9)

  function ControlOf(p: ControlPacket): Control {
    Control(p[1], p[2], p[3], p[4], p[5], p[6], p[7], p[8])
  }

  datatype Event =
    | Udp(packet: ControlPacket)
    | RoutingActivated
    | RoutingDeactivated
    | ActStatus
    | BodyAlive
    | Buzzer(state: byte)

  datatype Timed = Timed(event: Event, at: nat)

  function OnEvent(s: State, e: Event, at: nat): State {
    match e
    case Udp(p) =>
      var c := ControlOf(p);
      s.(control := c, lastUdp := Clock(at), override := OVERRIDE_NORMAL,
         mode := if c.ignition == IGNITION_ON then MODE_REMOTE
                 else if c.ignition == IGNITION_OFF then MODE_DEFAULT else s.mode)
    case RoutingActivated => if s.mode == MODE_REMOTE then s.(mode := MODE_DIAG) else s
    case RoutingDeactivated => if s.mode == MODE_DIAG then s.(mode := MODE_REMOTE) else s
    case ActStatus => s.(lastAct := Clock(at))
    case BodyAlive => s.(lastBody := Clock(at))
    case Buzzer(b) => s.(collisionWarn := b)
  }

  predicate PcSilent(s: State, at: nat) {
    s.mode == MODE_REMOTE && Elapsed(Clock(at), s.lastUdp) >= TIMEOUT_MS
  }

  predicate EcuSilent(last: nat, at: nat) { Elapsed(Clock(at), last) >= TIMEOUT_MS }

  function CheckTimeouts(s: State, at: nat): State {
    var s1 := if PcSilent(s, at) then s.(override := OVERRIDE_BRAKE, lastUdp := Clock(at),
                                         control := s.control.(turn := TIMEOUT_LIGHTS)) else s;
    var s2 := if EcuSilent(s.lastAct, at) then s1.(lastAct := Clock(at)) else s1;
    if EcuSilent(s.lastBody, at) then s2.(lastBody := Clock(at)) else s2
  }

  function ActFrame(s: State): seq<byte> {
    [s.control.accel, s.control.steer, s.control.brake, s.control.gear, s.mode, s.override]
  }

  function BodyFrame(s: State): seq<byte> {
    [s.control.headLight, s.control.turn, s.control.brake, s.control.horn, s.collisionWarn, s.mode]
  }

  /** What the gateway's state says about the control packets received so far. */
  predicate Consistent(s: State, received: seq<Packet>) {
    && s.override in {OVERRIDE_NORMAL, OVERRIDE_BRAKE}
    && (received == [] ==> s.mode == MODE_DEFAULT)
    && (received != [] ==>
          && s.control.(turn := 0) == Latest(received).control.(turn := 0)
          && (s.override == OVERRIDE_NORMAL ==> s.lastUdp == Clock(Latest(received).time)))
  }

  function Latest(received: seq<Packet>): Packet
    requires received != []
  {
    received[|received| - 1]
  }

  function Record(received: seq<Packet>, e: Event, at: nat): seq<Packet> { received + PacketIn(Timed(e, at)) }

  predicate DriveEnabled(data: seq<byte>) {
    |data| == 6 && data[4] == MODE_REMOTE && data[5] == OVERRIDE_NORMAL
  }

  /** A frame that enables driving carries the most recent packet, which by the 32-bit clock was
      less than 500 ms old at the timeout check. */
  predicate Recent(f: Sent, received: seq<Packet>) {
    && f.received <= |received| && f.checkedAt <= f.sentAt
    && (DriveEnabled(f.data) ==>
          && f.received > 0
          && var p := received[f.received - 1];
             && f.data == [p.control.accel, p.control.steer, p.control.brake, p.control.gear, MODE_REMOTE, OVERRIDE_NORMAL]
             && p.time <= f.checkedAt
             && Elapsed(Clock(f.checkedAt), Clock(p.time)) < TIMEOUT_MS)
  }

  lemma EventKeepsConsistent(s: State, received: seq<Packet>, e: Event, at: nat)
    requires Consistent(s, received)
    ensures Consistent(OnEvent(s, e, at), Record(received, e, at))
  {
  }

  /** The timeout check never makes old data look new: when it refreshes the register it overrides. */
  lemma CheckKeepsConsistent(s: State, received: seq<Packet>, at: nat)
    requires Consistent(s, received)
    ensures var r := CheckTimeouts(s, at);
            && Consistent(r, received)
            && (r.mode == MODE_REMOTE && r.override == OVERRIDE_NORMAL ==>
                  received != [] && Elapsed(Clock(at), Clock(Latest(received).time)) < TIMEOUT_MS)
  {
  }

  lemma ClockDifference(from: nat, to: nat)
    ensures Elapsed(Clock(to), Clock(from)) == (to / US_PER_MS - from / US_PER_MS) % WRAP
  {
  }

  /** The 32-bit comparison is the true one as long as the clock has not gone round in between;
      it is fooled exactly when the true age is within 500 ms after a multiple of the period. */
  lemma ElapsedIsTrue(from: nat, to: nat)
    requires from <= to
    ensures Elapsed(Clock(to), Clock(from)) == (to / US_PER_MS - from / US_PER_MS) % WRAP
    ensures to - from < (WRAP - 1) * US_PER_MS ==>
              (Elapsed(Clock(to), Clock(from)) < TIMEOUT_MS <==> to / US_PER_MS - from / US_PER_MS < TIMEOUT_MS)
    ensures to - from < (WRAP - 1) * US_PER_MS && Elapsed(Clock(to), Clock(from)) < TIMEOUT_MS ==>
              to - from < TIMEOUT_MS * US_PER_MS
  {
    ClockDifference(from, to);
  }

  /** While a tester is connected the timeout check leaves the control data and its age alone. */
  lemma DiagnosticsSuspendTheCheck(s: State, at: nat)
    requires s.mode == MODE_DIAG
    ensures CheckTimeouts(s, at).(lastAct := s.lastAct, lastBody := s.lastBody) == s
  {
  }

  /** Back from diagnostics, the first pass drives again iff the last packet looks less than 500 ms old;
      the true age decides, except that whole turns of the 32-bit clock are not seen. */
  lemma ReturnFromDiagnostics(s: State, received: seq<Packet>, at: nat)
    requires Consistent(s, received) && s.mode == MODE_DIAG && s.override == OVERRIDE_NORMAL
    requires received != [] && Latest(received).time <= at
    ensures var age := at / US_PER_MS - Latest(received).time / US_PER_MS;
            && (DriveEnabled(ActFrame(CheckTimeouts(OnEvent(s, RoutingDeactivated, at), at))) <==> age % WRAP < TIMEOUT_MS)
            && (age < WRAP ==> (age % WRAP < TIMEOUT_MS <==> age < TIMEOUT_MS))
  {
    ElapsedIsTrue(Latest(received).time, at);
  }

  /** Something that happens in the passes of the main loop: an event, or the timeout check. */
  datatype Step = Happens(event: Event, at: nat) | Checks(at: nat)

  function RunSteps(s: State, steps: seq<Step>): State {
    if steps == [] then s
    else
      var before := RunSteps(s, steps[..|steps| - 1]);
      match steps[|steps| - 1]
      case Happens(e, at) => OnEvent(before, e, at)
      case Checks(at) => CheckTimeouts(before, at)
  }

  /** Neither a control packet nor the end of the tester's connection. */
  predicate Undisturbed(steps: seq<Step>) {
    forall i :: 0 <= i < |steps| && steps[i].Happens? ==> !steps[i].event.Udp? && !steps[i].event.RoutingDeactivated?
  }

  /** However long the diagnostics take and whatever else arrives, the control data and their age stay. */
  lemma {:induction false} DiagnosticsHold(s: State, steps: seq<Step>)
    requires s.mode == MODE_DIAG && Undisturbed(steps)
    ensures var r := RunSteps(s, steps);
            && r.control == s.control && r.mode == MODE_DIAG && r.override == s.override && r.lastUdp == s.lastUdp
  {
    if steps != [] {
      DiagnosticsHold(s, steps[..|steps| - 1]);
    }
  }

  /** The whole turn is reachable, whatever the passes in between do: one drive packet, diagnostics for
      2^32 ms, and a frame that repeats the drive command as if it were new. */
  lemma StaleCommandAfterOneTurn(s: State, go: ControlPacket, steps: seq<Step>, at: nat)
    requires go[7] == IGNITION_ON && Undisturbed(steps)
    ensures var diag := OnEvent(OnEvent(s, Udp(go), at), RoutingActivated, at);
            var later := at + WRAP * US_PER_MS;
            ActFrame(CheckTimeouts(OnEvent(RunSteps(diag, steps), RoutingDeactivated, later), later))
            == [go[1], go[3], go[2], go[4], MODE_REMOTE, OVERRIDE_NORMAL]
  {
    DiagnosticsHold(OnEvent(OnEvent(s, Udp(go), at), RoutingActivated, at), steps);
    ClockDifference(at, at + WRAP * US_PER_MS);
  }

  // ---------- The events of a pass ----------

  function AfterEvents(s: State, events: seq<Timed>): State {
    if events == [] then s
    else
      var last := events[|events| - 1];
      OnEvent(AfterEvents(s, events[..|events| - 1]), last.event, last.at)
  }

  /** The control packets among the events, in order. */
  function Packets(events: seq<Timed>): seq<Packet> {
    if events == [] then []
    else
      var last := events[|events| - 1];
      Packets(events[..|events| - 1]) + PacketIn(last)
  }

  function PacketIn(e: Timed): seq<Packet> {
    if e.event.Udp? then [Packet(ControlOf(e.event.packet), e.at)] else []
  }

  function PassOf(e: Event, peer: Peer): seq<DtcMonitor.Event> { if HeardBy(e, peer) then [Pass] else [] }

  /** Who is heard by an event. */
  datatype Peer = Pc | Act | Body

  predicate HeardBy(e: Event, peer: Peer) {
    match peer case Pc => e.Udp? case Act => e.ActStatus? case Body => e.BodyAlive?
  }

  /** The passing evaluations of a peer that the events make. */
  function Heard(events: seq<Timed>, peer: Peer): seq<DtcMonitor.Event> {
    if events == [] then []
    else Heard(events[..|events| - 1], peer) + PassOf(events[|events| - 1].event, peer)
  }

  predicate SetsMode(e: Event) { e.Udp? && e.packet[7] in {IGNITION_OFF, IGNITION_ON} }

  /** The last routing event, if there is one: whether it activates. */
  function LastRouting(events: seq<Timed>): Option<bool> {
    if events == [] then None
    else
      match events[|events| - 1].event
      case RoutingActivated => Some(true)
      case RoutingDeactivated => Some(false)
      case _ => LastRouting(events[..|events| - 1])
  }

  /** Routing leads to and fro between remote and diagnostic mode; the last of several decides. */
  function RoutedMode(mode: byte, routing: Option<bool>): byte {
    if routing.None? || (mode != MODE_REMOTE && mode != MODE_DIAG) then mode
    else if routing.value then MODE_DIAG else MODE_REMOTE
  }

  /** What events of a kind do not occur for stays as it was. */
  lemma {:induction false} WithoutEvent(s: State, events: seq<Timed>)
    ensures var r := AfterEvents(s, events);
            && ((forall i :: 0 <= i < |events| ==> !events[i].event.Udp?) ==>
                  r.control == s.control && r.lastUdp == s.lastUdp && r.override == s.override)
            && ((forall i :: 0 <= i < |events| ==> !events[i].event.ActStatus?) ==> r.lastAct == s.lastAct)
            && ((forall i :: 0 <= i < |events| ==> !events[i].event.BodyAlive?) ==> r.lastBody == s.lastBody)
            && ((forall i :: 0 <= i < |events| ==> !events[i].event.Buzzer?) ==> r.collisionWarn == s.collisionWarn)
            && ((forall i :: 0 <= i < |events| ==> !SetsMode(events[i].event)) ==>
                  r.mode == RoutedMode(s.mode, LastRouting(events)))
  {
    if events != [] {
      hide RoutedMode, LastRouting, SetsMode, Clock;
      var before, last := events[..|events| - 1], events[|events| - 1];
      WithoutEvent(s, before);
      assert forall i :: 0 <= i < |before| ==> before[i] == events[i];
      RoutingStep(s.mode, events, AfterEvents(s, before));
    }
  }

  /** One event more that does not set the mode. */
  lemma RoutingStep(mode: byte, events: seq<Timed>, b: State)
    requires events != []
    ensures var last := events[|events| - 1];
            !SetsMode(last.event) && b.mode == RoutedMode(mode, LastRouting(events[..|events| - 1])) ==>
              OnEvent(b, last.event, last.at).mode == RoutedMode(mode, LastRouting(events))
  {
    hide Clock;
  }

  lemma {:induction false} EventsSplit(s: State, events: seq<Timed>, k: nat)
    requires k < |events|
    ensures AfterEvents(s, events) == AfterEvents(OnEvent(AfterEvents(s, events[..k]), events[k].event, events[k].at), events[k + 1..])
  {
    var last := |events| - 1;
    if k < last {
      EventsSplit(s, events[..last], k);
      assert events[..last][..k] == events[..k] && events[..last][k + 1..] == events[k + 1..][..last - k - 1];
    }
  }

  /** The last event of a kind in a pass decides: the last control packet the controls, their age and the end
      of the override; the last ignition, with the routing after it, the mode; the last sign of life of each
      ECU its age; the last buzzer request the warning. */
  lemma LastEventDecides(s: State, events: seq<Timed>, k: nat)
    requires k < |events|
    ensures var r, e, at := AfterEvents(s, events), events[k].event, Clock(events[k].at);
            && (e.Udp? && (forall i :: k < i < |events| ==> !events[i].event.Udp?) ==>
                  r.control == Control(e.packet[1], e.packet[2], e.packet[3], e.packet[4],
                                       e.packet[5], e.packet[6], e.packet[7], e.packet[8])
                  && r.lastUdp == at && r.override == OVERRIDE_NORMAL)
            && (SetsMode(e) && (forall i :: k < i < |events| ==> !SetsMode(events[i].event)) ==>
                  r.mode == RoutedMode(if e.packet[7] == IGNITION_ON then MODE_REMOTE else MODE_DEFAULT, LastRouting(events[k + 1..])))
            && (e.ActStatus? && (forall i :: k < i < |events| ==> !events[i].event.ActStatus?) ==> r.lastAct == at)
            && (e.BodyAlive? && (forall i :: k < i < |events| ==> !events[i].event.BodyAlive?) ==> r.lastBody == at)
            && (e.Buzzer? && (forall i :: k < i < |events| ==> !events[i].event.Buzzer?) ==> r.collisionWarn == e.state)
  {
    EventsSplit(s, events, k);
    WithoutEvent(OnEvent(AfterEvents(s, events[..k]), events[k].event, events[k].at), events[k + 1..]);
  }

  /** Byte by byte, what becomes of a control packet with the ignition on in the frames for ACT and BODY. */
  lemma PacketToFrames(s: State, p: ControlPacket, at: nat)
    requires p[7] == IGNITION_ON
    ensures var r := OnEvent(s, Udp(p), at);
            && ActFrame(r) == [p[1], p[3], p[2], p[4], 1, 0]
            && BodyFrame(r) == [p[8], p[5], p[2], p[6], s.collisionWarn, 1]
  {
  }

  /** What the check does to a silent PC and to silent ECUs, by their ages. */
  lemma CheckDecides(s: State, at: nat)
    ensures var r := CheckTimeouts(s, at);
            var silent := s.mode == MODE_REMOTE && (Clock(at) - s.lastUdp) % WRAP >= 500;
            && r == s.(override := r.override, control := s.control.(turn := r.control.turn),
                       lastUdp := r.lastUdp, lastAct := r.lastAct, lastBody := r.lastBody)
            && (silent ==> r.override == 1 && r.control.turn == 3 && r.lastUdp == Clock(at))
            && (!silent ==> r.override == s.override && r.control.turn == s.control.turn && r.lastUdp == s.lastUdp)
            && r.lastAct == (if (Clock(at) - s.lastAct) % WRAP >= 500 then Clock(at) else s.lastAct)
            && r.lastBody == (if (Clock(at) - s.lastBody) % WRAP >= 500 then Clock(at) else s.lastBody)
  {
  }

  class Com {
    const dcm: Dcm

    var control: Control
    var mode: byte
    var override: byte
    var collisionWarn: byte
    var lastUdp: nat
    var lastAct: nat
    var lastBody: nat
    var lastTx: nat

    ghost var sent: seq<Sent>
    var sentBody: seq<seq<byte>>
    ghost var received: seq<Packet>
    ghost var clock: nat

    function Current(): State
      reads this
    {
      State(control, mode, override, collisionWarn, lastUdp, lastAct, lastBody)
    }

    /** At any time: the state fits the packets received, and every frame sent so far was recent. */
    ghost predicate Valid()
      reads this, dcm, dcm.pc, dcm.act, dcm.body
    {
      && dcm.Valid() && Consistent(Current(), received)
      && (forall i :: 0 <= i < |received| ==> received[i].time <= clock)
      && (forall i :: 0 <= i < |sent| ==> Recent(sent[i], received) && sent[i].sentAt <= clock)
    }

    constructor ()
      ensures Valid() && fresh(dcm) && fresh(dcm.pc) && fresh(dcm.act) && fresh(dcm.body)
      ensures clock == 0 && received == [] && sent == [] && sentBody == [] && lastTx == 0
      ensures Current() == State(Control(0, 0, 0, 0, 0, 0, 0, 0), 0, 0, 1, 0, 0, 0)
    {
      dcm := new Dcm();
      control := Control(0, 0, 0, 0, 0, 0, 0, 0);
      mode, override, collisionWarn := MODE_DEFAULT, OVERRIDE_NORMAL, 1;
      lastUdp, lastAct, lastBody, lastTx := 0, 0, 0, 0;
      sent, sentBody, received, clock := [], [], [], 0;
    }

    method StoreControl(payload: ControlPacket, now: nat)
      modifies `control, `mode, `lastUdp, `override
      ensures Current() == OnEvent(old(Current()), Udp(payload), now)
    {
      control := Control(payload[1], payload[2], payload[3], payload[4], payload[5], payload[6], payload[7], payload[8]);
      if control.ignition == IGNITION_ON {
        mode := MODE_REMOTE;
      } else if control.ignition == IGNITION_OFF {
        mode := MODE_DEFAULT;
      }
      lastUdp := Clock(now);
      override := OVERRIDE_NORMAL;
    }

    /** A control packet of the PC: new controls, the mode follows the ignition, the override ends. */
    method UdpCtrProcessRx(payload: ControlPacket, now: nat)
      requires Valid() && clock <= now
      modifies `control, `mode, `lastUdp, `override, `received, `clock, dcm.pc
      ensures Valid() && clock == now
      ensures Current() == OnEvent(old(Current()), Udp(payload), now)
      ensures received == old(received) + [Packet(ControlOf(payload), now)]
      ensures dcm.pc.history == old(dcm.pc.history) + [Pass]
    {
      EventKeepsConsistent(Current(), received, Udp(payload), now);
      StoreControl(payload, now);
      received, clock := received + [Packet(control, now)], now;
      dcm.pc.Recovered();
    }

    method CanStatProcessRx(now: nat)
      requires Valid() && clock <= now
      modifies `lastAct, `clock, dcm.act
      ensures Valid() && clock == now && Current() == OnEvent(old(Current()), ActStatus, now)
      ensures dcm.act.history == old(dcm.act.history) + [Pass]
    {
      lastAct, clock := Clock(now), now;
      dcm.act.Recovered();
    }

    method CanBodyProcessRx(now: nat)
      requires Valid() && clock <= now
      modifies `lastBody, `clock, dcm.body
      ensures Valid() && clock == now && Current() == OnEvent(old(Current()), BodyAlive, now)
      ensures dcm.body.history == old(dcm.body.history) + [Pass]
    {
      lastBody, clock := Clock(now), now;
      dcm.body.Recovered();
    }

    /** Routing activation of a tester leads from remote to diagnostic mode, and its end back. */
    method DiagRoutingActivated(now: nat)
      requires Valid() && clock <= now
      modifies `mode, `clock
      ensures Valid() && clock == now && Current() == OnEvent(old(Current()), RoutingActivated, now)
    {
      clock := now;
      if mode == MODE_REMOTE {
        mode := MODE_DIAG;
      }
    }

    method DiagRoutingDeactivated(now: nat)
      requires Valid() && clock <= now
      modifies `mode, `clock
      ensures Valid() && clock == now && Current() == OnEvent(old(Current()), RoutingDeactivated, now)
    {
      clock := now;
      if mode == MODE_DIAG {
        mode := MODE_REMOTE;
      }
    }

    method BuzzerControlIndication(state: byte, now: nat)
      requires Valid() && clock <= now
      modifies `collisionWarn, `clock
      ensures Valid() && clock == now && Current() == OnEvent(old(Current()), Buzzer(state), now)
    {
      collisionWarn, clock := state, now;
    }

    /** The PC's part of the timeout check. */
    method CheckPc(now: nat)
      requires dcm.Valid()
      modifies `override, `control, `lastUdp, dcm.pc
      ensures dcm.Valid()
      ensures if old(PcSilent(Current(), now))
              then Current() == old(Current()).(override := OVERRIDE_BRAKE, lastUdp := Clock(now),
                                                control := old(control).(turn := TIMEOUT_LIGHTS))
                   && dcm.pc.history == old(dcm.pc.history) + [Fail]
              else Current() == old(Current()) && dcm.pc.history == old(dcm.pc.history)
    {
      hide Clock, Elapsed, PeerMonitor.Valid;
      if mode == MODE_REMOTE && Elapsed(Clock(now), lastUdp) >= TIMEOUT_MS {
        override := OVERRIDE_BRAKE;
        control := control.(turn := TIMEOUT_LIGHTS);
        dcm.pc.CommLoss();
        lastUdp := Clock(now);
      }
    }

    /** The other ECUs' part of the timeout check. */
    method CheckEcus(now: nat)
      requires dcm.Valid()
      modifies `lastAct, `lastBody, dcm.act, dcm.body
      ensures dcm.Valid()
      ensures lastAct == if EcuSilent(old(lastAct), now) then Clock(now) else old(lastAct)
      ensures lastBody == if EcuSilent(old(lastBody), now) then Clock(now) else old(lastBody)
      ensures dcm.act.history
              == old(dcm.act.history) + if EcuSilent(old(lastAct), now) then [Fail] else []
      ensures dcm.body.history
              == old(dcm.body.history) + if EcuSilent(old(lastBody), now) then [Fail] else []
    {
      CheckAct(now);
      CheckBody(now);
    }

    method CheckAct(now: nat)
      requires dcm.Valid()
      modifies `lastAct, dcm.act
      ensures dcm.Valid() && lastAct == if EcuSilent(old(lastAct), now) then Clock(now) else old(lastAct)
      ensures dcm.act.history == old(dcm.act.history) + if EcuSilent(old(lastAct), now) then [Fail] else []
    {
      hide Clock, Elapsed, PeerMonitor.Valid;
      if Elapsed(Clock(now), lastAct) >= TIMEOUT_MS {
        dcm.act.CommLoss();
        lastAct := Clock(now);
      }
    }

    method CheckBody(now: nat)
      requires dcm.Valid()
      modifies `lastBody, dcm.body
      ensures dcm.Valid() && lastBody == if EcuSilent(old(lastBody), now) then Clock(now) else old(lastBody)
      ensures dcm.body.history == old(dcm.body.history) + if EcuSilent(old(lastBody), now) then [Fail] else []
    {
      hide Clock, Elapsed, PeerMonitor.Valid;
      if Elapsed(Clock(now), lastBody) >= TIMEOUT_MS {
        dcm.body.CommLoss();
        lastBody := Clock(now);
      }
    }

    /** The three checks in turn. */
    method CheckPeers(now: nat)
      requires dcm.Valid()
      modifies `override, `control, `lastUdp, `lastAct, `lastBody, dcm.pc, dcm.act, dcm.body
      ensures dcm.Valid() && Current() == CheckTimeouts(old(Current()), now)
      ensures dcm.pc.history == old(dcm.pc.history) + Lost(old(PcSilent(Current(), now)))
      ensures dcm.act.history == old(dcm.act.history) + if EcuSilent(old(lastAct), now) then [Fail] else []
      ensures dcm.body.history == old(dcm.body.history) + if EcuSilent(old(lastBody), now) then [Fail] else []
    {
      CheckPc(now);
      CheckEcus(now);
    }

    /** COM_TimeOut: a peer that has been silent for 500 ms counts as lost once per 500 ms; losing the
        PC in remote mode also forces the brake. */
    method TimeOut(now: nat)
      requires Valid() && clock <= now
      modifies `override, `control, `lastUdp, `lastAct, `lastBody, `clock, dcm.pc, dcm.act, dcm.body
      ensures Valid() && clock == now && Current() == CheckTimeouts(old(Current()), now)
      ensures mode == MODE_REMOTE && override == OVERRIDE_NORMAL ==>
                received != [] && Elapsed(Clock(now), Clock(Latest(received).time)) < TIMEOUT_MS
      ensures dcm.pc.history == old(dcm.pc.history) + Lost(old(PcSilent(Current(), now)))
      ensures dcm.act.history
              == old(dcm.act.history) + if EcuSilent(old(lastAct), now) then [Fail] else []
      ensures dcm.body.history
              == old(dcm.body.history) + if EcuSilent(old(lastBody), now) then [Fail] else []
    {
      CheckKeepsConsistent(Current(), received, now);
      clock := now;
      CheckPeers(now);
    }

    /** COM_Tx_MainFunction: at most every 20 ms one frame to ACT and one to BODY. */
    method TxMainFunction(now: nat, ghost checkedAt: nat)
      requires Valid() && checkedAt <= clock <= now
      requires forall i :: 0 <= i < |received| ==> received[i].time <= checkedAt
      requires mode == MODE_REMOTE && override == OVERRIDE_NORMAL ==>
                 received != [] && Elapsed(Clock(checkedAt), Clock(Latest(received).time)) < TIMEOUT_MS
      modifies `sent, `sentBody, `lastTx, `clock
      ensures Valid() && clock == now
      ensures if Elapsed(Clock(now), old(lastTx)) >= TX_CONTROL_MS
              then sent == old(sent) + [Sent(ActFrame(Current()), checkedAt, now, |received|)]
                   && sentBody == old(sentBody) + [BodyFrame(Current())] && lastTx == Clock(now)
              else sent == old(sent) && sentBody == old(sentBody) && lastTx == old(lastTx)
    {
      hide Dcm.Valid, Clock, Elapsed;
      clock := now;
      if Elapsed(Clock(now), lastTx) >= TX_CONTROL_MS {
        var act := [control.accel, control.steer, control.brake, control.gear, mode, override];
        var body := [control.headLight, control.turn, control.brake, control.horn, collisionWarn, mode];
        sent := sent + [Sent(act, checkedAt, now, |received|)];
        sentBody := sentBody + [body];
        lastTx := Clock(now);
      }
    }

    method Dispatch(e: Event, now: nat)
      requires Valid() && clock <= now
      modifies this, dcm.pc, dcm.act, dcm.body
      ensures Valid() && clock == now && sent == old(sent) && lastTx == old(lastTx)
      ensures sentBody == old(sentBody)
      ensures Current() == OnEvent(old(Current()), e, now) && received == Record(old(received), e, now)
      ensures dcm.pc.history == old(dcm.pc.history) + PassOf(e, Pc)
      ensures dcm.act.history == old(dcm.act.history) + PassOf(e, Act)
      ensures dcm.body.history == old(dcm.body.history) + PassOf(e, Body)
    {
      hide Valid, Clock;
      PeersApart();
      match e {
        case Udp(p) => UdpCtrProcessRx(p, now);
        case RoutingActivated => DiagRoutingActivated(now);
        case RoutingDeactivated => DiagRoutingDeactivated(now);
        case ActStatus => CanStatProcessRx(now);
        case BodyAlive => CanBodyProcessRx(now);
        case Buzzer(b) => BuzzerControlIndication(b, now);
      }
    }

    /** What has arrived is dispatched, in order. */
    method Receive(events: seq<Timed>, end: nat)
      requires Valid() && Ordered(clock, events, end)
      modifies this, dcm.pc, dcm.act, dcm.body
      ensures Valid() && clock <= end && sent == old(sent) && sentBody == old(sentBody) && lastTx == old(lastTx)
      ensures Current() == AfterEvents(old(Current()), events) && received == old(received) + Packets(events)
      ensures dcm.pc.history == old(dcm.pc.history) + Heard(events, Pc)
      ensures dcm.act.history == old(dcm.act.history) + Heard(events, Act)
      ensures dcm.body.history == old(dcm.body.history) + Heard(events, Body)
    {
      if events == [] {
        return;
      }
      hide Valid, OnEvent, AfterEvents, Packets, Heard;
      var before, last := events[..|events| - 1], events[|events| - 1];
      OneMoreEvent(Current(), events);
      Receive(before, last.at);
      Dispatch(last.event, last.at);
      Associate(old(received), Packets(before), PacketIn(last));
      Associate(old(dcm.pc.history), Heard(before, Pc), PassOf(last.event, Pc));
      Associate(old(dcm.act.history), Heard(before, Act), PassOf(last.event, Act));
      Associate(old(dcm.body.history), Heard(before, Body), PassOf(last.event, Body));
    }

    lemma OneMoreEvent(s: State, events: seq<Timed>)
      requires events != []
      ensures var before, last := events[..|events| - 1], events[|events| - 1];
              && AfterEvents(s, events) == OnEvent(AfterEvents(s, before), last.event, last.at)
              && Packets(events) == Packets(before) + PacketIn(last)
              && forall peer :: Heard(events, peer) == Heard(before, peer) + PassOf(last.event, peer)
    {
    }

    lemma PeersApart()
      requires Valid()
      ensures dcm.pc != dcm.act && dcm.act != dcm.body && dcm.pc != dcm.body
    {
    }

    /** One pass of the gateway's main loop: what has arrived, then the timeout check, then transmission. */
    method PollOnce(events: seq<Timed>, checkAt: nat, sendAt: nat)
      requires Valid() && Ordered(clock, events, checkAt) && checkAt <= sendAt
      modifies this, dcm.pc, dcm.act, dcm.body
      ensures Valid() && clock == sendAt && received == old(received) + Packets(events)
      ensures Current() == CheckTimeouts(AfterEvents(old(Current()), events), checkAt)
      ensures if Elapsed(Clock(sendAt), old(lastTx)) >= TX_CONTROL_MS
              then sent == old(sent) + [Sent(ActFrame(Current()), checkAt, sendAt, |received|)]
                   && sentBody == old(sentBody) + [BodyFrame(Current())] && lastTx == Clock(sendAt)
              else sent == old(sent) && sentBody == old(sentBody) && lastTx == old(lastTx)
      ensures var s := AfterEvents(old(Current()), events);
              && dcm.pc.history == old(dcm.pc.history) + Heard(events, Pc) + Lost(PcSilent(s, checkAt))
              && dcm.act.history == old(dcm.act.history) + Heard(events, Act) + Lost(EcuSilent(s.lastAct, checkAt))
              && dcm.body.history == old(dcm.body.history) + Heard(events, Body) + Lost(EcuSilent(s.lastBody, checkAt))
    {
      hide Consistent, Dcm.Valid, Recent, Clock, Elapsed, CheckTimeouts, AfterEvents, PcSilent, EcuSilent;
      Receive(events, checkAt);
      TimeOut(checkAt);
      TxMainFunction(sendAt, checkAt);
    }
  }

  function Lost(silent: bool): seq<DtcMonitor.Event> { if silent then [Fail] else [] }

  /** The events are in the order of their times, none before start or after end. */
  predicate Ordered(start: nat, events: seq<Timed>, end: nat) {
    && start <= end
    && (forall i :: 0 <= i < |events| ==> start <= events[i].at <= end)
    && (forall i, j :: 0 <= i < j < |events| ==> events[i].at <= events[j].at)
  }
}
