/**
 Main loop of the BODY ECU (BODY/Cpu0_Main.c).  Its invariant says why each lamp was lit in every
 microsecond so far, and that every press of the collision button has been reported.  What a pass
 does is told from the state before it (BodyPass).
 */
module BodyMain {
  import opened BodyBlink
  import opened BodyButton
  import opened BodyCan
  import opened BodyCollision
  import opened BodyCpu
  import opened BodyDiag
  import opened BodyDtc
  import opened BodyEvents
  import opened BodyLamps
  import opened BodyPass
  import opened BodyRx
  import opened BodySafety
  import opened BodyUds
  import opened Bytes
  import opened Sequences
  import opened UdsSlot
  import DtcMonitor

  class BodyMain {
    const can: BodyCan
    const lamps: Lamps := can.lamps
    const cpu: BodyCpu := can.lamps.cpu
    const diag: BodyDiag
    const events: EventSender
    const button: CollisionButton
    const dtc: UltrasonicDtc
    // The level of the button at each call.
    const pressed: nat -> bool

    var passes: nat

    ghost predicate Wired() {
      diag.can == can && diag.button == button && diag.dtc == dtc
    }

    /** The lamps are requested by the command in force, and the pins show the requests. */
    ghost predicate LampsLawful()
      reads can`curTurn, can`curWarning, cpu, cpu.commands, cpu.slot, lamps, lamps.warning
    {
      cpu.Valid() && lamps.Valid() && can.Lawful()
    }

    /** Every lit microsecond so far was licensed. */
    ghost predicate Recorded()
      reads cpu`trace, cpu.commands`accepted, cpu.commands`calls, diag`log
    {
      UpTo(cpu.trace, cpu.commands.calls) && Safe(cpu.trace, cpu.commands.accepted, diag.log)
    }

    /** Each call has taken what had arrived since the one before. */
    ghost predicate Answered()
      reads cpu.commands`calls, cpu.slot`checkedAt, cpu.slot`received, diag`log
    {
      |diag.log| == cpu.commands.calls == cpu.slot.checkedAt && RequestsOnTime(diag.log, cpu.slot.received)
    }

    /** Every press of the button has been reported, once. */
    ghost predicate Reported()
      reads button, events, cpu.commands`calls
    {
      && button.Valid() && events.Valid() && !button.eventPending
      && |button.samples| == cpu.commands.calls + 1 && |Reports(events.ops)| == Presses(button.samples)
    }

    ghost predicate Valid()
      reads can`curTurn, can`curWarning, cpu, cpu.commands, cpu.slot, lamps, lamps.warning, diag, events, button, dtc
    {
      Wired() && dtc.Valid() && LampsLawful() && Recorded() && Answered() && Reported()
    }

    constructor (can: BodyCan, diag: BodyDiag, events: EventSender, pressed: nat -> bool)
      ensures this.can == can && this.diag == diag && this.events == events && this.pressed == pressed
      ensures button == diag.button && dtc == diag.dtc
    {
      this.can, this.diag, this.events, this.pressed, passes := can, diag, events, pressed, 0;
      button, dtc := diag.button, diag.dtc;
    }

    /** The lamps that shine in this call outside a test are licensed by the command in force. */
    lemma LightIsLawful()
      requires LampsLawful() && cpu.lights != AllDark
      ensures exists a :: a in cpu.commands.accepted && ByCommand(cpu.Current(), a)
    {
      var a := cpu.commands.accepted[cpu.commands.taken - 1];
      assert ByCommand(cpu.Current(), a);
    }

    /** Waiting changes nothing but the record. */
    twostate predicate OnlyWaited()
      reads cpu, cpu.commands, cpu.slot
    {
      cpu.lights == old(cpu.lights) && cpu.OnlyReceived()
    }

    /** Some time in which the lamps stay as they are. */
    twostate lemma StillLawful(us: nat)
      requires old(LampsLawful()) && old(Recorded()) && old(Answered()) && cpu.Valid() && OnlyWaited()
      requires cpu.trace == old(cpu.trace) + Held(cpu.Current(), us)
      requires lamps.Valid() && unchanged(lamps`headlampOn, lamps`brakeLampOn, lamps`hornOn, lamps`left, lamps`right)
      requires unchanged(lamps`blinkOutputOn, can`curTurn, can`curWarning)
      requires lamps.warning.lampOn == old(lamps.warning.lampOn) && diag.log == old(diag.log)
      ensures LampsLawful() && Recorded() && Answered()
    {
      hide RequestSlot.Valid, Lamps.Valid;
      assert cpu.commands.InForce() == old(cpu.commands.InForce());
      if cpu.lights != AllDark {
        LightIsLawful();
      }
      HoldIsSafe(old(cpu.trace), cpu.Current(), us, old(cpu.commands.accepted), diag.log, cpu.commands.accepted, diag.log);
    }

    /** The requests that the next call finds received. */
    ghost function ReceivedNext(): seq<Received>
      reads cpu`interruptions, cpu.commands`calls, cpu.slot`received
    {
      cpu.slot.received + RequestsIn(cpu.arrivals(cpu.interruptions), cpu.commands.calls)
    }

    /** The request that the next call takes: the newest one, if it has arrived since the last call. */
    ghost function NextRequest(): Option<Received>
      reads cpu`interruptions, cpu.commands`calls, cpu.slot`received, cpu.slot`taken
    {
      if cpu.slot.taken < |ReceivedNext()| then Some(ReceivedNext()[|ReceivedNext()| - 1]) else None
    }

    // ---------- What a pass starts from ----------

    ghost function Now(): Snap
      reads cpu, cpu.commands, cpu.slot, lamps, lamps.warning, dtc, events, diag`offers, diag`responses, button`stable
    {
      Snap(lamps.State(), lamps.warning.State(), cpu.measurements, cpu.trace, dtc.State(),
           cpu.commands.accepted + CommandsIn(cpu.arrivals(cpu.interruptions), cpu.commands.calls), cpu.commands.taken,
           cpu.commands.calls, NextRequest(),
           events.ops, events.offers, events.frames, events.eventPending, events.eventTimeMs, events.timeMs,
           diag.offers, diag.responses, button.stable)
    }

    // ---------- What each step leads to, from the state s before the pass ----------

    /** Exactly the commands that had arrived are accepted and taken, and one of them is in force. */
    ghost predicate Taken(s: Snap)
      reads cpu.commands
    {
      && cpu.commands.Valid() && cpu.commands.calls == s.calls + 1
      && s.arrived <= cpu.commands.accepted && cpu.commands.taken == |s.arrived|
      && cpu.commands.InForce() == InForce(s)
    }

    ghost predicate LampsCommanded(s: Snap)
      reads lamps`left, lamps`right, lamps`blinkOutputOn, lamps`timerMs, lamps`headlampOn, lamps`brakeLampOn, cpu`lights
    {
      && lamps.State() == Commanded(s).(timerMs := lamps.timerMs)
      && (InForce(s).Some? ==> lamps.timerMs == Commanded(s).timerMs)
      && cpu.lights == LightsIn(s, Commanded(s))
    }

    ghost predicate LampsPassed(s: Snap)
      reads lamps`left, lamps`right, lamps`blinkOutputOn, lamps`timerMs, lamps`headlampOn, lamps`brakeLampOn, cpu`lights
    {
      lamps.State() == Step(Commanded(s), Tick) && cpu.lights == LightsIn(s, Step(Commanded(s), Tick))
    }

    ghost predicate WarnIs(s: Snap, w: Warn, next: nat)
      reads lamps.warning, cpu`measurements
    {
      && cpu.measurements == next
      && if InForce(s).Some? then lamps.warning.State() == w else !lamps.warning.lampOn && !w.lampOn
    }

    ghost predicate SensorsAt(u: Sensed)
      reads lamps.warning, cpu`measurements
    {
      lamps.warning.State() == u.warn && cpu.measurements == u.next
    }

    ghost predicate CodeAnswered(s: Snap)
      reads dtc
    {
      CodeAfterRequest(s, dtc.State())
    }

    ghost predicate CodeAdvanced(s: Snap, ok: bool)
      reads dtc
    {
      CodePassed(s, dtc.State(), ok)
    }

    ghost predicate Responded(s: Snap)
      reads diag`offers, diag`responses
    {
      && diag.responses == Responses(s, cpu.echo, diag.busy)
      && diag.offers == s.offers + if Asked(s.request).Some? then 1 else 0
    }

    ghost predicate RecordAt(s: Snap, us: nat)
      reads cpu`trace
    {
      cpu.trace == RecordUntil(s, cpu.echo, diag.toneUs, us)
    }

    ghost predicate Free(s: Snap) { !events.busy(s.eventOffers) }

    ghost predicate EventOffered(s: Snap)
      reads events
    {
      && events.timeMs == EventTime(s) && s.eventTime < WRAP
      && events.ops == (if s.pending then s.ops + [Offer(Free(s))] else s.ops)
      && events.offers == s.eventOffers + (if s.pending then 1 else 0)
      && events.frames == (if Sends(s, Free(s)) then s.frames + [EventFrame(s.eventTime)] else s.frames)
      && events.eventPending == (s.pending && !Free(s)) && events.eventTimeMs == s.eventTime
    }

    /** The press that the last sample completes, if it does. */
    ghost function Press(s: Snap): Option<nat>
      requires button.samples != []
      reads button`samples
    {
      if PressAt(button.samples, |button.samples| - 1) then Some(EventTime(s)) else None
    }

    ghost predicate EventsPassed(s: Snap)
      requires button.samples != []
      reads button`samples, events
    {
      && events.timeMs == EventTime(s) && s.eventTime < WRAP
      && events.ops == PassOps(s.ops, Free(s), Press(s))
      && events.offers == s.eventOffers + (if s.pending then 1 else 0)
      && events.frames == (if Sends(s, Free(s)) then s.frames + [EventFrame(s.eventTime)] else s.frames)
      && events.eventPending == (Press(s).Some? || (s.pending && !Free(s)))
      && events.eventTimeMs == (if Press(s).Some? && !(s.pending && !Free(s)) then EventTime(s) else s.eventTime)
    }

    // ---------- BodyCan_Update1ms ----------

    /** Commands: the clock, the watchdog, and the newest command. */
    method UpdateCommands()
      requires Wired() && LampsLawful() && Recorded() && Answered() && events.Valid()
      modifies events`timeMs, can`curTurn, can`curWarning, cpu`lights, lamps, lamps.warning, cpu`interruptions
      modifies cpu.commands, cpu.slot`pending, cpu.slot`data, cpu.slot`received
      ensures LampsLawful() && events.Valid() && Safe(cpu.trace, cpu.commands.accepted, diag.log)
      ensures UpTo(cpu.trace, old(cpu.commands.calls)) && RequestsOnTime(diag.log, cpu.slot.received)
      ensures cpu.slot.checkedAt == old(cpu.slot.checkedAt) && cpu.slot.Waiting() == old(NextRequest())
      ensures Taken(old(Now())) && LampsCommanded(old(Now())) && WarnIs(old(Now()), Warned(old(Now())), old(cpu.measurements))
      ensures can.Reports(InForce(old(Now()))) && events.timeMs == EventTime(old(Now()))
    {
      hide LampsLawful, Safe, EventSender.Valid, Taken, LampsCommanded, WarnIs, Warned, BodyCan.Shows, BodyCan.Reports, CommandBox.Valid;
      ghost var s := Now();
      CommandPart();
      TakenFrom(s);
      ShownFrom(s);
    }

    /** The interrupt, the clock, the watchdog, and the newest command. */
    method CommandPart()
      requires Wired() && LampsLawful() && Recorded() && Answered() && events.Valid()
      modifies events`timeMs, can`curTurn, can`curWarning, cpu`lights, lamps, lamps.warning, cpu`interruptions
      modifies cpu.commands, cpu.slot`pending, cpu.slot`data, cpu.slot`received
      ensures LampsLawful() && events.Valid() && Safe(cpu.trace, cpu.commands.accepted, diag.log)
      ensures UpTo(cpu.trace, old(cpu.commands.calls)) && RequestsOnTime(diag.log, cpu.slot.received)
      ensures cpu.slot.checkedAt == old(cpu.slot.checkedAt) && cpu.slot.Waiting() == old(NextRequest())
      ensures events.timeMs == (old(events.timeMs) + 1) % WRAP && cpu.commands.Valid() && CommandTaken()
      ensures can.Shows(cpu.commands.taken > old(cpu.commands.taken), cpu.commands.InForce()) && can.Reports(cpu.commands.InForce())
    {
      hide Safe, EventSender.Valid, CollisionWarning.Valid, RequestSlot.Valid, CommandBox.Valid, RequestsIn, CommandsIn;
      hide Lamps.Valid, Step, Switched, BodyCpu.Caught, Lamps.Follows;
      Receive();
      events.UpdateClock();
      can.UpdateCommand();
    }

    /** One call is counted; exactly what had arrived is accepted, and all of it is taken. */
    twostate predicate CommandTaken()
      reads cpu.commands`accepted, cpu.commands`taken, cpu.commands`calls, cpu`interruptions
    {
      && cpu.commands.calls == old(cpu.commands.calls) + 1
      && cpu.commands.accepted
         == old(cpu.commands.accepted) + CommandsIn(cpu.arrivals(old(cpu.interruptions)), old(cpu.commands.calls))
      && cpu.commands.taken == |cpu.commands.accepted|
    }

    twostate lemma TakenFrom(s: Snap)
      requires s == old(Now()) && CommandTaken() && cpu.commands.Valid()
      ensures Taken(s) && IsNew(s) == (cpu.commands.taken > old(cpu.commands.taken))
    {
    }

    twostate lemma ShownFrom(s: Snap)
      requires s == old(Now()) && LampsLawful() && Taken(s) && IsNew(s) == (cpu.commands.taken > old(cpu.commands.taken))
      requires can.Shows(IsNew(s), InForce(s)) && cpu.measurements == old(cpu.measurements)
      ensures LampsCommanded(s) && WarnIs(s, Warned(s), s.next)
    {
      hide Step, Switched, BodyCpu.Caught, RequestSlot.Valid, RequestsIn, CommandsIn;
      WithoutCommandOff(s, cpu.echo);
    }

    /** The interrupt may run here; the lamps do not notice. */
    method Receive()
      requires LampsLawful() && Safe(cpu.trace, cpu.commands.accepted, diag.log)
      requires RequestsOnTime(diag.log, cpu.slot.received)
      modifies cpu`interruptions, cpu.commands`rx, cpu.commands`updated, cpu.commands`timeoutMs, cpu.commands`accepted
      modifies cpu.slot`pending, cpu.slot`data, cpu.slot`received
      ensures LampsLawful() && Safe(cpu.trace, cpu.commands.accepted, diag.log) && cpu.OnlyReceived()
      ensures RequestsOnTime(diag.log, cpu.slot.received) && cpu.slot.received == old(ReceivedNext())
      ensures cpu.commands.accepted
              == old(cpu.commands.accepted) + CommandsIn(cpu.arrivals(old(cpu.interruptions)), cpu.commands.calls)
    {
      hide Safe, Lamps.Valid, RequestSlot.Valid, RequestsIn, CommandsIn;
      cpu.Interrupt();
      assert cpu.commands.InForce() == old(cpu.commands.InForce());
      SafeLater(cpu.trace, old(cpu.commands.accepted), diag.log, cpu.commands.accepted, diag.log);
    }

    /** The lamp test shines by the request in this call, anything else by the command in force. */
    twostate lemma RequestIsLawful(us: nat)
      requires old(LampsLawful()) && old(Safe(cpu.trace, cpu.commands.accepted, diag.log))
      requires old(cpu.commands.calls) == |old(diag.log)| + 1 && UpTo(old(cpu.trace), |old(diag.log)|)
      requires cpu.commands.Valid() && cpu.commands.calls == old(cpu.commands.calls)
      requires old(cpu.commands.accepted) <= cpu.commands.accepted
      requires diag.log == old(diag.log) + [old(cpu.slot.Waiting())]
      requires var e := EffectIn(old(cpu.slot.Waiting()));
               && cpu.trace == old(cpu.trace) + Held(Sample(if e == LightLamps then AllLit else old(cpu.lights), cpu.commands.calls), us)
               && (e == LightLamps ==> us == TEST_US)
      ensures Recorded()
    {
      var e := EffectIn(old(cpu.slot.Waiting()));
      var s := Sample(if e == LightLamps then AllLit else old(cpu.lights), cpu.commands.calls);
      if e == LightLamps {
        assert LampTest(diag.log, s.calls);
      } else if s.lights != AllDark {
        var a := old(cpu.commands.accepted[cpu.commands.taken - 1]);
        assert a in cpu.commands.accepted && ByCommand(s, a);
      }
      HoldIsSafe(old(cpu.trace), s, us, old(cpu.commands.accepted), old(diag.log), cpu.commands.accepted, diag.log);
    }

    /** What waits in the slot was received since the call before. */
    lemma WaitingOnTime()
      requires cpu.Valid() && cpu.commands.calls == |diag.log| + 1 && cpu.slot.checkedAt == |diag.log|
      ensures var r := cpu.slot.Waiting();
              r.Some? ==> r.value in cpu.slot.received && |diag.log| <= r.value.time <= |diag.log| + 1
    {
    }

    /** Nothing that the request concerns has changed since the pass began. */
    ghost predicate Unrequested(s: Snap)
      reads cpu`trace, cpu.slot`received, cpu.slot`taken, dtc, diag`offers, diag`responses, button`stable
    {
      && cpu.trace == s.trace && cpu.slot.Waiting() == s.request && dtc.State() == s.books
      && diag.offers == s.offers && diag.responses == s.responses && button.stable == s.stable
    }

    /** Diagnostics: the request in the slot, if any. */
    method UpdateDiagnostics(ghost s: Snap)
      requires Wired() && dtc.Valid() && LampsLawful() && Safe(cpu.trace, cpu.commands.accepted, diag.log)
      requires cpu.commands.calls == |diag.log| + 1 && UpTo(cpu.trace, |diag.log|)
      requires RequestsOnTime(diag.log, cpu.slot.received) && cpu.slot.checkedAt == |diag.log|
      requires Unrequested(s) && Taken(s) && LampsCommanded(s) && WarnIs(s, Warned(s), s.next) && can.Reports(InForce(s))
      modifies diag, cpu`lights, cpu`trace, cpu`interruptions, cpu`measurements
      modifies cpu.commands`rx, cpu.commands`updated, cpu.commands`timeoutMs, cpu.commands`accepted
      modifies cpu.slot, lamps.warning`distanceCm, lamps.warning`distanceValid, dtc
      ensures dtc.Valid() && LampsLawful() && Recorded() && Answered() && diag.log == old(diag.log) + [s.request]
      ensures Taken(s) && LampsCommanded(s) && WarnIs(s, WarnedAndMeasured(s, cpu.echo), NextAfterRequest(s))
      ensures CodeAnswered(s) && Responded(s) && RecordAt(s, 0)
    {
      hide Safe, UltrasonicDtc.Valid, Recorded, CollisionWarning.Valid, RequestSlot.Valid, RequestsOnTime;
      hide CommandBox.Valid, InForce, BodyCpu.Caught, BodyDiag.SideEffects, BodyDiag.Responded, LampsCommanded, Taken, CodeAnswered, Responded, RecordAt;
      WaitingOnTime();
      ghost var us := diag.UsFor(EffectIn(cpu.slot.Waiting()));
      diag.ProcessUdsRequestIfNeeded();
      StillTaken(s);
      RequestIsLawful(us);
      RequestsLater(old(diag.log), old(cpu.slot.received), old(cpu.slot.Waiting()), cpu.slot.received);
      EffectsOf(s);
      ResponseOf(s);
      CallsAdvanced(s);
      RecordOfRequest(s);
    }

    twostate lemma StillTaken(s: Snap)
      requires old(Taken(s)) && cpu.commands.Valid()
      requires cpu.commands.calls == old(cpu.commands.calls) && cpu.commands.taken == old(cpu.commands.taken)
      requires old(cpu.commands.accepted) <= cpu.commands.accepted
      ensures Taken(s) && cpu.commands.InForce() == old(cpu.commands.InForce())
    {
      hide InForce, Plain;
    }

    twostate lemma EffectsOf(s: Snap)
      requires Wired() && old(Unrequested(s)) && old(WarnIs(s, Warned(s), s.next))
      requires diag.SideEffects(EffectOn(s))
      ensures WarnIs(s, WarnedAndMeasured(s, cpu.echo), NextAfterRequest(s)) && CodeAnswered(s)
    {
    }

    twostate lemma ResponseOf(s: Snap)
      requires Wired() && old(Unrequested(s)) && old(cpu.measurements) == s.next && can.Reports(InForce(s))
      requires button.stable == old(button.stable) && CodeAnswered(s) && diag.Responded(Asked(s.request))
      ensures Responded(s)
    {
      hide Answer, Asked, EffectOf, ResponseFrame, Millimetres;
    }

    twostate lemma RecordOfRequest(s: Snap)
      requires Wired() && old(Unrequested(s)) && old(cpu.measurements) == s.next && old(LampsCommanded(s))
      requires cpu.commands.calls == s.calls + 1
      requires cpu.trace == old(cpu.trace) + Held(Sample(old(diag.LightsFor(EffectOn(s))), cpu.commands.calls), old(diag.UsFor(EffectOn(s))))
      ensures RecordAt(s, 0)
    {
      assert cpu.trace + [] == cpu.trace;
    }

    method SendEvent(ghost s: Snap)
      requires events.Valid() && events.timeMs == EventTime(s)
      requires events.ops == s.ops && events.offers == s.eventOffers && events.frames == s.frames
      requires events.eventPending == s.pending && events.eventTimeMs == s.eventTime
      modifies events`eventPending, events`offers, events`frames, events`ops
      ensures events.Valid() && EventOffered(s) && Reports(events.ops) == old(Reports(events.ops))
    {
      ReportsStep(events.ops, Offer(!events.busy(events.offers)));
      events.SendPendingCollisionEventIfNeeded();
    }

    /** Commands, diagnostics, events. */
    method UpdateCan()
      requires Wired() && dtc.Valid() && LampsLawful() && Recorded() && Answered() && events.Valid()
      modifies events, can`curTurn, can`curWarning, lamps, lamps.warning, dtc, diag
      modifies cpu, cpu.commands, cpu.slot
      ensures dtc.Valid() && LampsLawful() && Recorded() && Answered() && events.Valid()
      ensures Reports(events.ops) == old(Reports(events.ops)) && diag.log == old(diag.log) + [old(NextRequest())]
      ensures var s := old(Now());
              && Taken(s) && LampsCommanded(s) && WarnIs(s, WarnedAndMeasured(s, cpu.echo), NextAfterRequest(s))
              && CodeAnswered(s) && Responded(s) && RecordAt(s, 0) && EventOffered(s)
    {
      hide LampsLawful, Safe, Recorded, UltrasonicDtc.Valid, EventSender.Valid, LampsCommanded, WarnIs, CodeAnswered, Responded;
      hide RecordAt, EventOffered, Taken, Pending, SentTimes;
      ghost var s := Now();
      UpdateCommands();
      CallsAdvanced(s);
      UpdateDiagnostics(s);
      SendEvent(s);
    }

    lemma CallsAdvanced(s: Snap)
      requires Taken(s)
      ensures cpu.commands.calls == s.calls + 1
    {
    }

    // ---------- BodyControl_Update1ms ----------

    method SampleButton()
      requires button.Valid() && events.Valid() && !button.eventPending
      requires |Reports(events.ops)| == Presses(button.samples)
      modifies button
      ensures Sampled(old(button.samples) + [pressed(passes)])
    {
      button.Update1ms(pressed(passes));
    }

    /** The distance for the collision warning, if a measurement is due. */
    method UpdateUltrasonic(ghost s: Snap)
      requires LampsLawful() && Recorded() && Answered() && s.warn.level <= 3
      requires Taken(s) && LampsCommanded(s) && WarnIs(s, WarnedAndMeasured(s, cpu.echo), NextAfterRequest(s)) && RecordAt(s, 0)
      modifies lamps.warning`distanceCm, lamps.warning`distanceValid, lamps.warning`measureTimerMs
      modifies lamps.warning`validHoldTimerMs, lamps.warning`level, lamps.warning`distances
      modifies cpu`trace, cpu`interruptions, cpu`measurements
      modifies cpu.commands`rx, cpu.commands`updated, cpu.commands`timeoutMs, cpu.commands`accepted
      modifies cpu.slot`pending, cpu.slot`data, cpu.slot`received
      ensures LampsLawful() && Recorded() && Answered() && cpu.OnlyReceived()
      ensures Taken(s) && LampsCommanded(s) && SensorsAt(SensedBy(s, cpu.echo)) && RecordAt(s, SensedBy(s, cpu.echo).us)
    {
      hide Recorded, Answered, BodyCpu.Caught, RequestSlot.Valid, Ticked, LampsCommanded, RecordUntil, Taken, WarnedAndMeasured;
      hide BodyCpu.Valid, CommandBox.Valid, BodyCan.Lawful, LightsIn, RequestsIn;
      lamps.warning.LevelIsSmall();
      Shining(s);
      NextSensing(s);
      ghost var us := SensedBy(s, cpu.echo).us;
      var distance := MeasureIfDue();
      lamps.warning.UpdateUltrasonic1ms(distance);
      StillLawful(us);
      StillTaken(s);
      RecordLonger(s, 0, us);
    }

    /** Ask the sensor if the warning is going to measure. */
    method MeasureIfDue() returns (distance: Option<nat>)
      requires cpu.Valid()
      modifies cpu`trace, cpu`interruptions, cpu`measurements
      modifies cpu.commands`rx, cpu.commands`updated, cpu.commands`timeoutMs, cpu.commands`accepted
      modifies cpu.slot`pending, cpu.slot`data, cpu.slot`received
      ensures cpu.Valid() && cpu.OnlyReceived()
      ensures if lamps.warning.Due()
              then distance == cpu.echo(old(cpu.measurements)).distance && cpu.measurements == old(cpu.measurements) + 1
                   && cpu.trace == old(cpu.trace) + Held(cpu.Current(), cpu.echo(old(cpu.measurements)).us)
              else distance == None && cpu.measurements == old(cpu.measurements) && cpu.trace == old(cpu.trace) + Held(cpu.Current(), 0)
    {
      assert cpu.trace + Held(cpu.Current(), 0) == cpu.trace;
      distance := None;
      if lamps.warning.Due() {
        distance := cpu.Measure();
      }
    }

    /** The warning in its next millisecond does what is told from the beginning of the pass. */
    lemma NextSensing(s: Snap)
      requires s.warn.level <= 3 && lamps.warning.State().level <= 3
      requires WarnIs(s, WarnedAndMeasured(s, cpu.echo), NextAfterRequest(s))
      ensures Sensing(lamps.warning.State(), cpu.echo, cpu.measurements) == SensedBy(s, cpu.echo)
    {
      LevelStays(s, cpu.echo);
      OffForgets(lamps.State(), 0, lamps.warning.State(), cpu.echo, cpu.measurements);
      OffForgets(lamps.State(), 0, WarnedAndMeasured(s, cpu.echo), cpu.echo, cpu.measurements);
    }

    /** What shines now, while the requests stay. */
    lemma Shining(s: Snap)
      requires Taken(s) && LampsCommanded(s)
      ensures cpu.Current() == Sample(LightsIn(s, Commanded(s)), s.calls + 1)
    {
    }

    lemma RecordLonger(s: Snap, before: nat, us: nat)
      ensures RecordUntil(s, cpu.echo, diag.toneUs, before) + Held(Sample(LightsIn(s, Commanded(s)), s.calls + 1), us)
              == RecordUntil(s, cpu.echo, diag.toneUs, before + us)
    {
      var shown := Sample(LightsIn(s, Commanded(s)), s.calls + 1);
      var start := s.trace + Held(Sample(if EffectOn(s) == LightLamps then AllLit else shown.lights, s.calls + 1),
                                  RequestUs(s, cpu.echo, diag.toneUs));
      HeldBoth(shown, before, us);
      Associate(start, Held(shown, before), Held(shown, us));
    }
    /** The sensor fault: a measurement of its own every 3001st call, and the danger lamp. */
    method UpdateDtc(ghost s: Snap)
      requires LampsLawful() && Recorded() && Answered() && dtc.Valid() && s.warn.level <= 3
      requires Taken(s) && LampsCommanded(s) && CodeAnswered(s)
      requires SensorsAt(SensedBy(s, cpu.echo)) && RecordAt(s, SensedBy(s, cpu.echo).us)
      modifies lamps.warning`distanceCm, lamps.warning`distanceValid, dtc
      modifies cpu`trace, cpu`interruptions, cpu`measurements
      modifies cpu.commands`rx, cpu.commands`updated, cpu.commands`timeoutMs, cpu.commands`accepted
      modifies cpu.slot`pending, cpu.slot`data, cpu.slot`received
      ensures LampsLawful() && Recorded() && Answered() && dtc.Valid() && cpu.OnlyReceived()
      ensures Taken(s) && LampsCommanded(s) && CodeAdvanced(s, CheckOk(s, cpu.echo))
      ensures SensorsAt(CheckedBy(s, cpu.echo)) && RecordAt(s, CheckedBy(s, cpu.echo).us)
    {
      hide LampsLawful, Recorded, Answered, UltrasonicDtc.Valid, Diagnosed, LampsCommanded, Taken, SensedBy, RecordAt, Advances;
      DueIfChecks(s);
      var ok := true;
      if dtc.Due() {
        ok := RunCheck(s, SensedBy(s, cpu.echo));
      }
      ghost var before := dtc.State();
      dtc.Update1ms(ok);
      assert CodeAfterRequest(s, before) && Advances(before, dtc.State(), ok);
    }

    lemma DueIfChecks(s: Snap)
      requires CodeAnswered(s)
      ensures dtc.Due() == Checks(s)
    {
    }

    method RunCheck(ghost s: Snap, ghost u: Sensed) returns (ok: bool)
      requires LampsLawful() && Recorded() && Answered() && s.warn.level <= 3
      requires Taken(s) && LampsCommanded(s) && SensorsAt(u) && RecordAt(s, u.us)
      modifies lamps.warning`distanceCm, lamps.warning`distanceValid
      modifies cpu`trace, cpu`interruptions, cpu`measurements
      modifies cpu.commands`rx, cpu.commands`updated, cpu.commands`timeoutMs, cpu.commands`accepted
      modifies cpu.slot`pending, cpu.slot`data, cpu.slot`received
      ensures LampsLawful() && Recorded() && Answered() && cpu.OnlyReceived()
      ensures Taken(s) && LampsCommanded(s) && ok == cpu.echo(u.next).distance.Some?
      ensures SensorsAt(Sensed(Diagnosed(u.warn, cpu.echo(u.next).distance), u.next + 1, u.us + cpu.echo(u.next).us))
      ensures RecordAt(s, u.us + cpu.echo(u.next).us)
    {
      hide Recorded, Answered, BodyCpu.Valid, RequestSlot.Valid, CommandBox.Valid, CollisionWarning.Valid, BodyCan.Lawful;
      hide Diagnosed, LampsCommanded, RecordUntil, Taken;
      Shining(s);
      ghost var us := cpu.echo(cpu.measurements).us;
      var distance := cpu.Measure();
      var distanceMm;
      ok, distanceMm := lamps.warning.RunUltrasonicDiagnosticRoutine(distance);
      StillLawful(us);
      StillTaken(s);
      RecordLonger(s, u.us, us);
    }

    /** The turn signals. */
    method UpdateLamps(ghost s: Snap)
      requires LampsLawful() && Taken(s) && LampsCommanded(s)
      modifies lamps`blinkOutputOn, lamps`timerMs, cpu`lights
      ensures LampsLawful() && LampsPassed(s)
    {
      hide Step, BodyCpu.Valid, CollisionWarning.Valid;
      TickShown(s);
      lamps.Update1ms();
      ShownAfterTick(s);
    }

    lemma TickShown(s: Snap)
      requires LampsCommanded(s)
      ensures Step(lamps.State(), Tick) == Step(Commanded(s), Tick)
    {
      if InForce(s).None? {
        OffForgets(Commanded(s), lamps.timerMs, WarnOff, cpu.echo, 0);
      }
    }

    lemma ShownAfterTick(s: Snap)
      requires LampsLawful() && Taken(s) && lamps.State() == Step(Commanded(s), Tick)
      ensures cpu.lights == LightsIn(s, Step(Commanded(s), Tick))
    {
    }

    /** Button, distance, sensor fault, turn signals. */
    method UpdateControl(ghost s: Snap)
      requires dtc.Valid() && LampsLawful() && Recorded() && Answered() && events.Valid() && s.warn.level <= 3
      requires button.Valid() && !button.eventPending && |Reports(events.ops)| == Presses(button.samples)
      requires Taken(s) && LampsCommanded(s) && WarnIs(s, WarnedAndMeasured(s, cpu.echo), NextAfterRequest(s))
      requires CodeAnswered(s) && RecordAt(s, 0)
      modifies button, lamps`blinkOutputOn, lamps`timerMs, lamps.warning, dtc, cpu
      modifies cpu.commands`rx, cpu.commands`updated, cpu.commands`timeoutMs, cpu.commands`accepted
      modifies cpu.slot`pending, cpu.slot`data, cpu.slot`received
      ensures dtc.Valid() && LampsLawful() && Recorded() && Answered() && cpu.OnlyReceived()
      ensures Sampled(old(button.samples) + [pressed(passes)])
      ensures Taken(s) && LampsPassed(s) && CodeAdvanced(s, CheckOk(s, cpu.echo))
      ensures SensorsAt(CheckedBy(s, cpu.echo)) && RecordAt(s, CheckedBy(s, cpu.echo).us)
    {
      hide LampsLawful, Recorded, Answered, UltrasonicDtc.Valid, Sampled, CollisionButton.Valid, EventSender.Valid;
      hide Taken, LampsCommanded, LampsPassed, WarnIs, SensorsAt, CodeAnswered, CodeAdvanced, RecordAt, SensedBy, CheckedBy;
      SampleButton();
      UpdateUltrasonic(s);
      UpdateDtc(s);
      UpdateLamps(s);
    }

    // ---------- The button ----------

    /** The button has been sampled; a press that it completed has not been reported yet. */
    ghost predicate Sampled(samples: seq<bool>)
      reads button, events
    {
      && button.Valid() && events.Valid() && |samples| > 1 && button.samples == samples
      && (button.eventPending <==> PressAt(samples, |samples| - 1))
      && |Reports(events.ops)| == Presses(samples[..|samples| - 1])
    }

    /** One press more, if the last sample completes one. */
    lemma PressesStep()
      requires |button.samples| > 1
      ensures var last := |button.samples| - 1;
              Presses(button.samples) == Presses(button.samples[..last]) + if PressAt(button.samples, last) then 1 else 0
    {
    }

    method ReportPress(ghost s: Snap)
      requires button.samples != [] && Sampled(button.samples) && EventOffered(s)
      requires Pending(s.ops) == if s.pending then Some(s.eventTime) else None
      modifies button`eventPending, events`eventPending, events`eventTimeMs, events`ops
      ensures button.Valid() && events.Valid() && !button.eventPending
      ensures |Reports(events.ops)| == Presses(button.samples) && EventsPassed(s)
    {
      ReportsStep(events.ops, Report(events.timeMs));
      PressesStep();
      var press := button.ConsumePressedEvent();
      if press {
        events.ReportCollisionOccurred();
      }
    }

    // ---------- A pass ----------

    /** The controls' part of a pass, and the report of a press. */
    method ControlAndReport(ghost s: Snap)
      requires dtc.Valid() && LampsLawful() && Recorded() && Answered() && events.Valid() && button.Valid()
      requires !button.eventPending && |Reports(events.ops)| == Presses(button.samples)
      requires |button.samples| == s.calls + 1 && s.warn.level <= 3
      requires Pending(s.ops) == if s.pending then Some(s.eventTime) else None
      requires Taken(s) && LampsCommanded(s) && WarnIs(s, WarnedAndMeasured(s, cpu.echo), NextAfterRequest(s))
      requires CodeAnswered(s) && RecordAt(s, 0) && EventOffered(s)
      modifies `passes, events`eventPending, events`eventTimeMs, events`ops, button
      modifies lamps`blinkOutputOn, lamps`timerMs, lamps.warning, dtc, cpu
      modifies cpu.commands`rx, cpu.commands`updated, cpu.commands`timeoutMs, cpu.commands`accepted
      modifies cpu.slot`pending, cpu.slot`data, cpu.slot`received
      ensures dtc.Valid() && LampsLawful() && Recorded() && Answered() && Reported() && cpu.OnlyReceived()
      ensures button.samples == old(button.samples) + [pressed(old(passes))] && passes == old(passes) + 1
      ensures Taken(s) && LampsPassed(s) && CodeAdvanced(s, CheckOk(s, cpu.echo)) && EventsPassed(s)
      ensures SensorsAt(CheckedBy(s, cpu.echo)) && RecordAt(s, CheckedBy(s, cpu.echo).us)
    {
      hide LampsLawful, Recorded, Answered, UltrasonicDtc.Valid, CollisionButton.Valid, EventSender.Valid;
      hide LampsCommanded, LampsPassed, WarnIs, SensorsAt, CodeAnswered, CodeAdvanced, RecordAt, EventOffered, SensedBy, CheckedBy;
      hide Taken, EventsPassed, CheckOk, CommandBox.Valid, Reports, Pending, SentTimes;
      CallsAdvanced(s);
      UpdateControl(s);
      ReportPress(s);
      passes := passes + 1;
    }

    /** The rest of the pass. */
    method Wait(ghost s: Snap)
      requires LampsLawful() && Recorded() && Answered() && s.warn.level <= 3
      requires Taken(s) && LampsPassed(s) && RecordAt(s, CheckedBy(s, cpu.echo).us)
      modifies cpu`trace, cpu`interruptions
      modifies cpu.commands`rx, cpu.commands`updated, cpu.commands`timeoutMs, cpu.commands`accepted
      modifies cpu.slot`pending, cpu.slot`data, cpu.slot`received
      ensures LampsLawful() && Recorded() && Answered() && Taken(s) && LampsPassed(s)
      ensures cpu.trace == RecordOf(s, cpu.echo, diag.toneUs) && cpu.commands.calls == old(cpu.commands.calls)
    {
      hide Recorded, Answered, Step, RecordUntil, CheckedBy, BodyCpu.Valid, CollisionWarning.Valid;
      cpu.WaitTime(LOOP_US);
      StillLawful(LOOP_US);
      StillTaken(s);
    }

    /** One pass of the main loop: what it does to lamps, sensors, trouble code, events, answers and record. */
    method Pass()
      requires Valid()
      modifies `passes, events, can`curTurn, can`curWarning, lamps, lamps.warning, dtc, diag, button
      modifies cpu, cpu.commands, cpu.slot
      ensures Valid() && cpu.commands.calls == old(cpu.commands.calls) + 1
      ensures button.samples == old(button.samples) + [pressed(old(passes))] && passes == old(passes) + 1
      ensures diag.log == old(diag.log) + [old(NextRequest())] && old(Now()).warn.level <= 3
      ensures var s := old(Now());
              && Taken(s) && LampsPassed(s) && CodeAdvanced(s, CheckOk(s, cpu.echo)) && SensorsAt(CheckedBy(s, cpu.echo))
              && EventsPassed(s) && Responded(s) && cpu.trace == RecordOf(s, cpu.echo, diag.toneUs)
    {
      hide LampsLawful, Recorded, Answered, UltrasonicDtc.Valid, CollisionButton.Valid, EventSender.Valid;
      hide LampsCommanded, LampsPassed, WarnIs, SensorsAt, CodeAnswered, CodeAdvanced, RecordAt, EventOffered, EventsPassed;
      hide Responded, CheckedBy, RecordOf, CheckOk, Taken;
      Begin();
      ghost var s := Now();
      UpdateCan();
      CallsAdvanced(s);
      ControlAndReport(s);
      Wait(s);
      CallsAdvanced(s);
    }

    lemma Begin()
      requires Valid()
      ensures Now().warn.level <= 3
      ensures Pending(events.ops) == if events.eventPending then Some(events.eventTimeMs) else None
    {
    }

    // ---------- Runs of passes ----------

    /** What a run of passes was: in each the controller was free or not for the offer that would come next, and a press
        was reported, with the time of the pass, iff the sample of the pass completed one. */
    ghost predicate RunIs(samples: seq<bool>, ops: seq<EventOp>, before: nat, time: nat, run: seq<Passed>)
      requires |samples| == before + |run|
    {
      forall i :: 0 <= i < |run| ==>
        && run[i].free == !events.busy(OffersMade(RunOps(ops, run[..i])))
        && run[i].press == (if PressAt(samples, before + i) then Some((time + i + 1) % WRAP) else None)
    }

    lemma LongerRun(samples: seq<bool>, sample: bool, ops: seq<EventOp>, before: nat, time: nat, run: seq<Passed>, p: Passed)
      requires |samples| == before + |run| && RunIs(samples, ops, before, time, run)
      requires p.free == !events.busy(OffersMade(RunOps(ops, run)))
      requires p.press == if PressAt(samples + [sample], |samples|) then Some((time + |run| + 1) % WRAP) else None
      ensures RunIs(samples + [sample], ops, before, time, run + [p])
    {
      hide PressAt, RunOps, OffersMade;
      forall i | 0 <= i < |run|
        ensures (run + [p])[..i] == run[..i] && PressAt(samples + [sample], before + i) == PressAt(samples, before + i)
      {
        PressAtEarlier(samples, sample, before + i);
      }
      assert (run + [p])[..|run|] == run;
    }

    /** The pass as an element of a run. */
    ghost function LastPass(s: Snap): Passed
      requires button.samples != []
      reads button`samples
    {
      Passed(Free(s), Press(s))
    }

    lemma NextPress(s: Snap, samples: seq<bool>, sample: bool, time: nat)
      requires button.samples == samples + [sample] && s.timeMs == time % WRAP
      ensures Press(s) == if PressAt(samples + [sample], |samples|) then Some((time + 1) % WRAP) else None
    {
      hide PressAt;
    }

    /** A pass that is one more of a run. */
    method PassOfRun(ghost ops: seq<EventOp>, ghost before: nat, ghost time: nat, ghost run: seq<Passed>) returns (ghost p: Passed)
      requires Valid() && |button.samples| == before + |run| && events.timeMs == (time + |run|) % WRAP
      requires events.ops == RunOps(ops, run) && RunIs(button.samples, ops, before, time, run)
      modifies `passes, events, can`curTurn, can`curWarning, lamps, lamps.warning, dtc, diag, button
      modifies cpu, cpu.commands, cpu.slot
      ensures Valid() && |button.samples| == before + |run| + 1 && old(button.samples) <= button.samples
      ensures events.timeMs == (time + |run| + 1) % WRAP
      ensures events.ops == RunOps(ops, run + [p]) && RunIs(button.samples, ops, before, time, run + [p])
    {
      hide LampsLawful, Recorded, Answered, RunIs, PressAt, RunOps, PassOps, LampsPassed, CodeAdvanced, SensorsAt, Responded;
      hide RecordOf, CheckedBy, CheckOk, Taken, CollisionButton.Valid, CommandBox.Valid, UltrasonicDtc.Valid, Pending, SentTimes;
      ghost var s, samples, sample := Now(), button.samples, pressed(passes);
      Pass();
      p := LastPass(s);
      OneMorePass(ops, run, p);
      NextPress(s, samples, sample, time + |run|);
      LongerRun(samples, sample, ops, before, time, run, p);
    }

    /** Any number of passes. */
    method Passes(n: nat) returns (ghost run: seq<Passed>)
      requires Valid()
      modifies `passes, events, can`curTurn, can`curWarning, lamps, lamps.warning, dtc, diag, button
      modifies cpu, cpu.commands, cpu.slot
      ensures Valid() && |run| == n && events.ops == RunOps(old(events.ops), run)
      ensures |button.samples| == |old(button.samples)| + n && old(button.samples) <= button.samples
      ensures RunIs(button.samples, old(events.ops), |old(button.samples)|, old(events.timeMs), run)
    {
      hide Valid, RunIs, RunOps;
      run := [];
      NoPassYet();
      for i := 0 to n
        invariant Valid() && |run| == i && events.ops == RunOps(old(events.ops), run)
        invariant events.timeMs == (old(events.timeMs) + i) % WRAP
        invariant |button.samples| == |old(button.samples)| + i && old(button.samples) <= button.samples
        invariant RunIs(button.samples, old(events.ops), |old(button.samples)|, old(events.timeMs), run)
      {
        ghost var p := PassOfRun(old(events.ops), |old(button.samples)|, old(events.timeMs), run);
        run := run + [p];
      }
    }

    lemma NoPassYet()
      requires Valid()
      ensures events.timeMs < WRAP && RunOps(events.ops, []) == events.ops
      ensures RunIs(button.samples, events.ops, |button.samples|, events.timeMs, [])
    {
    }

    /** The press of pass k of a run is on the bus after pass m, the first later one whose offer finds the controller
        free: as the next event frame after those sent by the end of pass k, with the time of the press or of an
        earlier one that had not been sent either. */
    lemma PressIsOnTheBus(ops: seq<EventOp>, before: nat, time: nat, run: seq<Passed>, k: nat, m: nat)
      requires Valid() && events.ops == RunOps(ops, run)
      requires |button.samples| == before + |run| && RunIs(button.samples, ops, before, time, run)
      requires k < m < |run| && PressAt(button.samples, before + k)
      requires !events.busy(OffersMade(RunOps(ops, run[..m])))
      requires forall i :: k < i < m ==> events.busy(OffersMade(RunOps(ops, run[..i])))
      ensures var sent, event := |SentTimes(RunOps(ops, run[..k + 1]))|, Pending(RunOps(ops, run[..k + 1]));
              && (event == Some((time + k + 1) % WRAP) || (event.Some? && event == Pending(RunOps(ops, run[..k]))))
              && sent < |events.frames| && event.value < WRAP && events.frames[sent] == EventFrame(event.value)
              && |SentTimes(RunOps(ops, run[..m]))| == sent && |SentTimes(RunOps(ops, run[..m + 1]))| == sent + 1
    {
      hide PressAt, RunOps, OffersMade, SentTimes, Pending, LampsLawful, Recorded, Answered;
      PressReachesBus(ops, run, k, m);
    }

    // ---------- What the invariant says ----------

    /** A lamp was only ever lit by the self-test, in the first second of a call that took a request for the
        lamp test, or by a command in remote mode that asked for it and was fewer than 200 calls old. */
    lemma LitForAReason(t: nat)
      requires Valid() && t < |cpu.trace| && cpu.trace[t].lights != AllDark
      ensures var s := cpu.trace[t];
              || (s.calls == 0 && t < TEST_US)
              || (&& (t < TEST_US || cpu.trace[t - TEST_US].calls < s.calls)
                  && exists r :: r in cpu.slot.received && EffectIn(Some(r)) == LightLamps && s.calls - 1 <= r.time <= s.calls)
              || exists a :: a in cpu.commands.accepted && ByCommand(s, a)
    {
      var s := cpu.trace[t];
      assert Licensed(cpu.trace, t, cpu.commands.accepted, diag.log);
      if LampTest(diag.log, s.calls) {
        var r := diag.log[s.calls - 1].value;
        assert r in cpu.slot.received && EffectIn(Some(r)) == LightLamps;
      }
    }

    /** MAIN hears of no more collisions than there were presses, and of none iff there were none, but for
        an event still pending. */
    lemma EventsStandForPresses()
      requires Valid()
      ensures |events.frames| + (if events.eventPending then 1 else 0) <= Presses(button.samples)
      ensures events.frames == [] && !events.eventPending <==> Presses(button.samples) == 0
    {
      EventsStandForReports(events.ops);
      NothingIffNoReport(events.ops);
    }
  }

  /** Receive buffers, pins and lamps. */
  method InitLamps(arrivals: nat -> seq<RxFrame>, echo: nat -> Echo) returns (lamps: Lamps)
    ensures fresh(lamps) && fresh(lamps.cpu) && fresh(lamps.cpu.commands) && fresh(lamps.cpu.slot) && fresh(lamps.warning)
    ensures lamps.Valid() && lamps.Follows(None) && lamps.cpu.Valid() && lamps.cpu.commands.accepted == []
    ensures var c := lamps.cpu;
            && c.trace == [] && c.commands.calls == 0 && c.interruptions == 0 && c.arrivals == arrivals
            && c.slot.received == [] && c.slot.checkedAt == 0
  {
    var cpu := new BodyCpu(arrivals, echo);
    lamps := new Lamps(cpu);
  }

  /** The objects of the program, before the self-test. */
  method Init(arrivals: nat -> seq<RxFrame>, echo: nat -> Echo, pressed: nat -> bool, raw: bool,
              busyEvent: nat -> bool, busyResponse: nat -> bool, toneUs: nat) returns (main: BodyMain)
    ensures fresh(main) && fresh(main.cpu) && fresh(main.cpu.commands) && fresh(main.cpu.slot)
    ensures fresh(main.lamps) && fresh(main.lamps.warning) && fresh(main.can) && fresh(main.diag)
    ensures fresh(main.events) && fresh(main.button) && fresh(main.dtc)
    ensures main.Valid() && main.lamps.Follows(None) && main.cpu.trace == [] && main.cpu.commands.calls == 0
    ensures main.cpu.interruptions == 0 && main.cpu.slot.received == [] && main.cpu.slot.taken == 0
    ensures main.cpu.arrivals == arrivals
  {
    var lamps := InitLamps(arrivals, echo);
    var can := new BodyCan(lamps);
    var button := new CollisionButton(raw);
    var dtc := new UltrasonicDtc();
    var diag := new BodyDiag(can, button, dtc, busyResponse, toneUs);
    var events := new EventSender(busyEvent);
    main := new BodyMain(can, diag, events, pressed);
  }

  /** The program at the beginning of its main loop, in an arbitrary environment. */
  method PowerOn(arrivals: nat -> seq<RxFrame>, echo: nat -> Echo, pressed: nat -> bool, raw: bool,
                 busyEvent: nat -> bool, busyResponse: nat -> bool, toneUs: nat) returns (main: BodyMain)
    ensures fresh(main) && fresh(main.cpu) && fresh(main.cpu.commands) && fresh(main.cpu.slot)
    ensures fresh(main.lamps) && fresh(main.lamps.warning) && fresh(main.can) && fresh(main.diag)
    ensures fresh(main.events) && fresh(main.button) && fresh(main.dtc)
    ensures main.Valid() && main.cpu.trace == Held(Sample(AllLit, 0), TEST_US)
    ensures main.cpu.interruptions == 0 && main.cpu.slot.received == [] && main.cpu.slot.taken == 0
    ensures main.cpu.arrivals == arrivals
    ensures main.cpu.commands.calls == 0
  {
    hide BodyMain.Reported, UltrasonicDtc.Valid, CollisionWarning.Valid;
    main := Init(arrivals, echo, pressed, raw, busyEvent, busyResponse, toneUs);
    main.lamps.RunStartupSelfDiagnosis();
    assert main.cpu.commands.InForce() == None;
    assert main.cpu.trace == Held(Sample(AllLit, 0), TEST_US);
  }

  /** A program that will receive a request for the lamp test, and no command ever. */
  method AwaitLampTest() returns (main: BodyMain)
    ensures fresh(main) && fresh(main.cpu) && fresh(main.cpu.commands) && fresh(main.cpu.slot)
    ensures fresh(main.lamps) && fresh(main.lamps.warning) && fresh(main.can) && fresh(main.diag)
    ensures fresh(main.events) && fresh(main.button) && fresh(main.dtc)
    ensures main.Valid() && main.cpu.NoCommands() && main.cpu.commands.calls == 0
    ensures |main.cpu.trace| == TEST_US && EffectIn(main.NextRequest()) == LightLamps
  {
    hide BodyMain.Valid, EffectIn;
    var f := CanFrame(REQUEST_ID, true, DLC_8_BYTES, [0x04, 0x31, 0x01, 0x02, 0x01, 0x00, 0x00, 0x00]);
    var arrivals: nat -> seq<RxFrame> := k => if k == 0 then [f] else [];
    main := PowerOn(arrivals, k => Echo(None, 0), k => false, false, k => false, k => false, 0);
    LampTestFrame();
  }

  /** With no command at all, one request lights every lamp for a second. */
  method LampTestWithoutCommand() returns (main: BodyMain)
    ensures main.Valid() && main.cpu.commands.accepted == []
    ensures TEST_US < |main.cpu.trace| && main.cpu.trace[TEST_US] == Sample(AllLit, 1)
  {
    hide BodyMain.Recorded, BodyMain.Reported, EffectIn, UltrasonicDtc.Valid, Lamps.Valid, CommandBox.Valid, RequestSlot.Valid;
    main := AwaitLampTest();
    main.Pass();
    main.cpu.NoneAccepted();
  }
}
