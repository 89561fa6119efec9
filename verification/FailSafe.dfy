/**
 The distributed fail-safe: the gateway MAIN and the drive ECU ACT together stop the motor
 a bounded time after the last control packet of the PC, whatever the CAN bus does to the
 frames between them, short of delaying one by more than a known bound.
 */
module FailSafe {
  import opened ActCan
  import opened ActCanRx
  import opened ActCpu
  import opened ActMain
  import opened ActSafety
  import opened BodyBlink
  import opened Bytes
  import opened Motor
  import opened Servo
  import opened UdsSlot
  import BodyRx
  import MainCom

  const PC_SILENCE_US := 500_000

  /** The frame as ACT receives it: data length code 6, and two more bytes in the receive buffer. */
  function OnBus(data: seq<byte>): RxFrame
    requires |data| == 6
  {
    CanFrame(CMD_ID, true, CMD_DLC, data + [0, 0])
  }

  function FieldsOf(data: seq<byte>): Command
    requires |data| == 6
  {
    Command(data[0], data[1], data[2], data[3], data[4], data[5])
  }

  /** ACT accepts a frame of MAIN iff every field is in range, and then reads what MAIN wrote. */
  lemma FrameReachesAct(data: seq<byte>)
    requires |data| == 6
    ensures Decode(OnBus(data)) == if ValidCommand(FieldsOf(data)) then Some(FieldsOf(data)) else None
  {
  }

  /** Whatever ACT accepted is some frame of MAIN, at most c microseconds after it was sent.  Frames may
      be lost, repeated or reordered.  ACT's clock runs skew microseconds behind MAIN's. */
  ghost predicate Delivered(sent: seq<MainCom.Sent>, accepted: seq<Accepted>, skew: int, c: nat) {
    forall j :: 0 <= j < |accepted| ==> exists i :: Carries(sent, i, accepted[j], skew, c)
  }

  ghost predicate Carries(sent: seq<MainCom.Sent>, i: int, a: Accepted, skew: int, c: nat) {
    && 0 <= i < |sent| && |sent[i].data| == 6 && a.cmd == FieldsOf(sent[i].data)
    && sent[i].sentAt <= a.time + skew <= sent[i].sentAt + c
  }

  /** A frame that enables driving carries the most recent packet, in true time less than 500 ms old. */
  predicate Young(f: MainCom.Sent, received: seq<MainCom.Packet>) {
    MainCom.DriveEnabled(f.data) ==>
      && 0 < f.received <= |received| && f.checkedAt <= f.sentAt
      && var p := received[f.received - 1];
         && f.data[0] == p.control.accel && f.data[2] == p.control.brake && f.data[3] == p.control.gear
         && p.time <= f.checkedAt < p.time + PC_SILENCE_US
  }

  /** Age in milliseconds of the packet that a frame carries, at the timeout check. */
  function AgeMs(f: MainCom.Sent, received: seq<MainCom.Packet>): int
    requires 0 < f.received <= |received|
  {
    f.checkedAt / MainCom.US_PER_MS - received[f.received - 1].time / MainCom.US_PER_MS
  }

  /** The packet was not left unreplaced for a whole turn of the 32-bit clock. */
  predicate NoTurn(f: MainCom.Sent, received: seq<MainCom.Packet>) {
    0 < f.received <= |received| ==> AgeMs(f, received) < MainCom.WRAP
  }

  /** Of the frames that look recent by the 32-bit clock, exactly those are young whose packet has not
      seen a whole turn of it. */
  lemma YoungIff(f: MainCom.Sent, received: seq<MainCom.Packet>)
    requires MainCom.Recent(f, received) && MainCom.DriveEnabled(f.data)
    ensures Young(f, received) <==> AgeMs(f, received) < MainCom.WRAP
  {
    MainCom.ElapsedIsTrue(received[f.received - 1].time, f.checkedAt);
  }

  /** MAIN's side of a run: every frame was young, and was sent within d microseconds of the check. */
  ghost predicate GatewayRun(sent: seq<MainCom.Sent>, received: seq<MainCom.Packet>, d: nat) {
    forall i :: 0 <= i < |sent| ==> Young(sent[i], received) && sent[i].sentAt <= sent[i].checkedAt + d
  }

  /** MAIN's invariant gives this as long as no packet is left for a turn of the clock, so for 49 days at least. */
  lemma ReachableRun(com: MainCom.Com, d: nat)
    requires com.Valid() && forall i :: 0 <= i < |com.sent| ==> com.sent[i].sentAt <= com.sent[i].checkedAt + d
    requires (forall i :: 0 <= i < |com.sent| ==> NoTurn(com.sent[i], com.received))
             || com.clock < 49 * 24 * 3600 * 1_000_000
    ensures GatewayRun(com.sent, com.received, d)
  {
    forall i | 0 <= i < |com.sent|
      ensures Young(com.sent[i], com.received)
    {
      assert MainCom.Recent(com.sent[i], com.received) && com.sent[i].sentAt <= com.clock;
      if MainCom.DriveEnabled(com.sent[i].data) {
        YoungIff(com.sent[i], com.received);
      }
    }
  }

  /** A packet that asks for motion in the direction in which the motor turns. */
  predicate AsksFor(p: MainCom.Packet, pins: Pins) {
    && p.control.accel == 1 && p.control.brake == 0
    && ((pins.dirA && !pins.dirB && p.control.gear == GEAR_D) || (!pins.dirA && pins.dirB && p.control.gear == GEAR_R))
  }

  predicate AsksForMotion(p: MainCom.Packet) {
    p.control.accel == 1 && p.control.brake == 0 && (p.control.gear == GEAR_D || p.control.gear == GEAR_R)
  }

  /** A request for the motor test arrived within two seconds before t (counted from the beginning of
      ACT's main loop, if it came during start-up). */
  predicate TestAsked(arrived: seq<Received>, loopStart: nat, t: nat) {
    exists r :: r in arrived && AsksForTest(r) && r.time <= t < Max(r.time, loopStart) + TEST_BOUND_US
  }

  /** A packet that asks for exactly this motion was received at most 900 ms plus the delays before t. */
  predicate MotionAsked(received: seq<MainCom.Packet>, pins: Pins, loopStart: nat, t: nat, skew: int, delay: nat) {
    exists k :: 0 <= k < |received| && AsksFor(received[k], pins)
      && t + skew < MaxInt(received[k].time + PC_SILENCE_US + delay, loopStart + skew) + STOP_BOUND_US
  }

  /** Every microsecond in which the motor is powered goes back to a request for the motor test, or to a
      control packet that asked for this motion.  (Frames that arrive during the start-up of ACT count from
      the beginning of its main loop.) */
  lemma PoweredOnRequest(trace: seq<Sample>, h: History, arrived: seq<Received>, t: nat,
                         sent: seq<MainCom.Sent>, received: seq<MainCom.Packet>, skew: int, c: nat, d: nat)
    requires Safe(trace, h) && RequestsOnTime(h.requests, arrived, h.loopStart)
    requires GatewayRun(sent, received, d) && Delivered(sent, h.accepted, skew, c)
    requires t < |trace| && Powered(trace[t])
    ensures TestAsked(arrived, h.loopStart, t) || MotionAsked(received, trace[t].pins, h.loopStart, t, skew, d + c)
  {
    assert Licensed(trace[t], t, h);
    if trace[t].authority.ByTest? {
      var r := TestPowerIsRequested(trace[t], t, h, arrived);
    } else {
      var a := trace[t].authority.command;
      var j :| 0 <= j < |h.accepted| && h.accepted[j] == a;
      var i :| Carries(sent, i, a, skew, c);
      assert Young(sent[i], received) && MainCom.DriveEnabled(sent[i].data);
      assert AsksFor(received[sent[i].received - 1], trace[t].pins);
    }
  }

  /** Distributed fail-safe: without a packet that asks for motion in the last 500 ms + d + c + 400 ms,
      without a request for the motor test in the last two seconds, and this long after ACT's main loop
      began, the motor is off. */
  lemma MotorStops(trace: seq<Sample>, h: History, arrived: seq<Received>, t: nat,
                   sent: seq<MainCom.Sent>, received: seq<MainCom.Packet>, skew: int, c: nat, d: nat)
    requires Safe(trace, h) && RequestsOnTime(h.requests, arrived, h.loopStart)
    requires GatewayRun(sent, received, d) && Delivered(sent, h.accepted, skew, c)
    requires h.loopStart + STOP_BOUND_US <= t < |trace| && !TestAsked(arrived, h.loopStart, t)
    requires forall k :: 0 <= k < |received| && AsksForMotion(received[k]) ==>
               received[k].time + PC_SILENCE_US + d + c + STOP_BOUND_US <= t + skew
    ensures !trace[t].pins.pwmA && !trace[t].pins.pwmB
  {
    if Powered(trace[t]) {
      PoweredOnRequest(trace, h, arrived, t, sent, received, skew, c, d);
      NoMotionAsked(received, trace[t].pins, h.loopStart, t, skew, d + c);
    }
  }

  lemma NoMotionAsked(received: seq<MainCom.Packet>, pins: Pins, loopStart: nat, t: nat, skew: int, delay: nat)
    requires loopStart + STOP_BOUND_US <= t
    requires forall k :: 0 <= k < |received| && AsksForMotion(received[k]) ==>
               received[k].time + PC_SILENCE_US + delay + STOP_BOUND_US <= t + skew
    ensures !MotionAsked(received, pins, loopStart, t, skew, delay)
  {
    forall k | 0 <= k < |received| && AsksFor(received[k], pins)
      ensures t + skew >= MaxInt(received[k].time + PC_SILENCE_US + delay, loopStart + skew) + STOP_BOUND_US
    {
      assert AsksForMotion(received[k]);
    }
  }

  /** The same for the two programs in any state they can reach within 49 days. */
  lemma MotorStopsInAnyRun(act: ActMain, com: MainCom.Com, t: nat, skew: int, c: nat, d: nat)
    requires act.Valid() && com.Valid() && com.clock < 49 * 24 * 3600 * 1_000_000
    requires forall i :: 0 <= i < |com.sent| ==> com.sent[i].sentAt <= com.sent[i].checkedAt + d
    requires Delivered(com.sent, act.cpu.mailbox.accepted, skew, c)
    requires act.loopStart + STOP_BOUND_US <= t < act.cpu.now
    requires !TestAsked(act.cpu.slot.received, act.loopStart, t)
    requires forall k :: 0 <= k < |com.received| && AsksForMotion(com.received[k]) ==>
               com.received[k].time + PC_SILENCE_US + d + c + STOP_BOUND_US <= t + skew
    ensures !act.cpu.trace[t].pins.pwmA && !act.cpu.trace[t].pins.pwmB
  {
    ReachableRun(com, d);
    MotorStops(act.cpu.trace, act.Past(), act.cpu.slot.received, t, com.sent, com.received, skew, c, d);
  }

  /** BODY accepts a frame of MAIN iff every field is in range, and then reads what MAIN wrote. */
  lemma FrameReachesBody(data: seq<byte>)
    requires |data| == 6
    ensures BodyRx.Decode(OnBodyBus(data))
            == if data[0] <= 1 && data[1] <= 3 && data[2] <= 1 && data[3] <= 1 && data[4] <= 1 && data[5] <= 2
               then Some(BodyRx.Command(data[0], data[1], data[2], data[3], data[4], data[5])) else None
  {
  }

  function OnBodyBus(data: seq<byte>): RxFrame
    requires |data| == 6
  {
    CanFrame(BodyRx.CMD_ID, true, BodyRx.CMD_DLC, data + [0, 0])
  }

  /** From the bytes of a control packet with the ignition on to microsecond i of the motor cycles and to the
      steering pulse that it leads to. */
  lemma PacketDrives(s: MainCom.State, p: MainCom.ControlPacket, at: nat, pins: Pins, authority: Authority, i: nat)
    requires p[7] == 1 && i < PWM_PERIOD_US
    ensures var c := Decode(OnBus(MainCom.ActFrame(MainCom.CheckTimeouts(MainCom.OnEvent(s, MainCom.Udp(p), at), at))));
            && (c.Some? <==> p[1] <= 1 && p[2] <= 1 && p[3] <= 2 && p[4] <= 3)
            && (c.Some? ==>
                  var (left, right) := Duties(SteeringKeyOf(c.value));
                  var q := CycleTrace(pins, authority, Drive(c.value), left, right)[i].pins;
                  var moves := p[1] == 1 && p[2] == 0 && (p[4] == 3 || p[4] == 1);
                  && (q.pwmA <==> moves && i < if p[3] == 1 then 1000 else if p[3] == 2 then 300 else 900)
                  && (q.pwmB <==> moves && i < if p[3] == 1 then 300 else if p[3] == 2 then 1000 else 900)
                  && (q.brake <==> !moves) && (moves ==> (q.dirA <==> p[4] == 3) && (q.dirB <==> p[4] == 1))
                  && KeyPulse(SteeringKeyOf(c.value)) == if p[3] == 1 then 900 else if p[3] == 2 then 1500 else 1200)
  {
    var r := MainCom.CheckTimeouts(MainCom.OnEvent(s, MainCom.Udp(p), at), at);
    MainCom.PacketToFrames(s, p, at);
    FrameReachesAct(MainCom.ActFrame(r));
    CommandToCycle(FieldsOf(MainCom.ActFrame(r)), pins, authority, i);
    CommandToPulse(FieldsOf(MainCom.ActFrame(r)));
  }

  /** And to the command that BODY reads. */
  lemma PacketLights(s: MainCom.State, p: MainCom.ControlPacket, at: nat)
    requires p[7] == 1
    ensures var c := BodyRx.Decode(OnBodyBus(MainCom.BodyFrame(MainCom.CheckTimeouts(MainCom.OnEvent(s, MainCom.Udp(p), at), at))));
            && (c.Some? <==> p[8] <= 1 && p[5] <= 3 && p[2] <= 1 && p[6] <= 1 && s.collisionWarn <= 1)
            && (c.Some? ==> && c.value.headlamp == p[8] && c.value.turn == p[5] && c.value.brake == p[2]
                            && c.value.horn == p[6] && c.value.warning == s.collisionWarn && c.value.mode == 1)
  {
    MainCom.PacketToFrames(s, p, at);
    FrameReachesBody(MainCom.BodyFrame(MainCom.CheckTimeouts(MainCom.OnEvent(s, MainCom.Udp(p), at), at)));
  }

  /** 500 ms after the PC's last control packet in remote mode, the next frames of MAIN are a stop for ACT and
      hazard lights for BODY, and the ECUs accept them if the packet's fields were in range. */
  lemma LostPcStopsAndWarns(s: MainCom.State, at: nat)
    requires s.mode == 1 && (MainCom.Clock(at) - s.lastUdp) % 0x1_0000_0000 >= 500
    ensures var r := MainCom.CheckTimeouts(s, at);
            var toAct := Decode(OnBus(MainCom.ActFrame(r)));
            var toBody := BodyRx.Decode(OnBodyBus(MainCom.BodyFrame(r)));
            && (toAct.Some? <==> s.control.accel <= 1 && s.control.steer <= 2 && s.control.brake <= 1 && s.control.gear <= 3)
            && (toAct.Some? ==> toAct.value.safety == 1 && Inhibited(toAct.value) && Drive(toAct.value) == Stop)
            && (toBody.Some? <==> s.control.headLight <= 1 && s.control.brake <= 1 && s.control.horn <= 1 && s.collisionWarn <= 1)
            && (toBody.Some? ==> toBody.value.mode == BodyRx.MODE_REMOTE
                                 && LeftOn(toBody.value.turn as int) && RightOn(toBody.value.turn as int))
  {
    var r := MainCom.CheckTimeouts(s, at);
    MainCom.CheckDecides(s, at);
    FrameReachesAct(MainCom.ActFrame(r));
    FrameReachesBody(MainCom.BodyFrame(r));
  }

  /** And it stays so until the next control packet, whatever else happens. */
  lemma OnlyAPacketEndsTheOverride(s: MainCom.State, e: MainCom.Event, at: nat)
    requires s.override == MainCom.OVERRIDE_BRAKE && s.control.turn == MainCom.TIMEOUT_LIGHTS
    ensures var r := MainCom.CheckTimeouts(MainCom.OnEvent(s, e, at), at);
            !e.Udp? ==> r.override == MainCom.OVERRIDE_BRAKE && r.control.turn == MainCom.TIMEOUT_LIGHTS
  {
  }

  function MaxInt(a: int, b: int): int { if a >= b then a else b }
}
