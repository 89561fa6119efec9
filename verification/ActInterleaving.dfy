/**
 A closer look at the receive interrupt of ACT (ACT/ActCan.c).  Elsewhere the interrupt is
 atomic with respect to a watchdog call; here it may land between any two accesses of the
 call to the shared variables: inside the increment of the tick, between any two of the six
 fields that are copied, and before the flag is cleared.

 What survives is the stop bound, counted from the commands whose fields drive the motor.
 What does not survive is obedience: a command may be swallowed, refused, or torn.  This
 module is the state machine and its invariant; ActTearing says exactly when which happens.
 */
module ActInterleaving {
  import opened ActCan
  import opened ActCanRx
  import opened Bytes
  import opened Motor

  const FIELDS := 6

  /** Where the watchdog call is. */
  datatype Pc = Idle | Load | Store(read: nat) | CheckTimeout | CheckUpdated | Copy | Clear | Apply

  datatype Step = Cpu | Isr(command: Command)

  /** An accepted command, and how many ticks had been counted before it. */
  datatype Arrival = Arrival(command: Command, at: nat)

  /** A field and the number of the accepted command it was copied from. */
  datatype Field = Field(value: byte, source: nat)

  /** The shared variables, the locals of the call, the effect of the last command applied and when it
      was applied, and what the interrupt has accepted. */
  datatype State = State(
    pc: Pc, rx: Command, updated: bool, tick: nat, local: seq<Field>,
    applied: seq<Field>, appliedAt: nat, drive: MotorState, accepted: seq<Arrival>, ticks: nat)

  /** Fields in the order in which they are copied. */
  function FieldOf(c: Command, k: nat): byte
    requires k < FIELDS
  {
    match k
    case 0 => c.accel
    case 1 => c.steering
    case 2 => c.brake
    case 3 => c.gear
    case 4 => c.mode
    case _ => c.safety
  }

  function CommandFrom(fields: seq<Field>): Command
    requires |fields| == FIELDS
  {
    Command(fields[0].value, fields[1].value, fields[2].value, fields[3].value, fields[4].value, fields[5].value)
  }

  /** The call counts a tick and looks whether time has run out.  ticks counts the calls by their ticks,
      made or found no longer necessary. */
  function CountStep(s: State): State {
    match s.pc
    case Idle =>
      if s.tick < TIMEOUT_TICKS then s.(pc := Load) else s.(pc := CheckTimeout, ticks := s.ticks + 1)
    case Load => s.(pc := Store(s.tick))
    case Store(v) => s.(pc := CheckTimeout, tick := v + 1, ticks := s.ticks + 1)
    case _ => if s.tick >= TIMEOUT_TICKS then s.(pc := Idle, drive := Stop) else s.(pc := CheckUpdated)
  }

  /** The call takes a new command field by field, clears the flag, and applies what it has taken.
      A copy without an accepted command, or cut short, is never reached. */
  function TakeStep(s: State): State {
    match s.pc
    case CheckUpdated => if s.updated then s.(pc := Copy, local := []) else s.(pc := Idle)
    case Copy =>
      if |s.local| < FIELDS && s.accepted != []
      then s.(local := s.local + [Field(FieldOf(s.rx, |s.local|), |s.accepted| - 1)])
      else s.(pc := Clear)
    case Clear => s.(pc := Apply, updated := false)
    case _ =>
      if |s.local| == FIELDS
      then s.(pc := Idle, applied := s.local, appliedAt := s.ticks, drive := Drive(CommandFrom(s.local)))
      else s.(pc := Idle)
  }

  predicate Taking(pc: Pc) { pc == CheckUpdated || Copying(pc) }

  predicate Copying(pc: Pc) { pc == Copy || pc == Clear || pc == Apply }

  /** The whole interrupt. */
  function Interrupted(s: State, c: Command): State {
    s.(rx := c, updated := true, tick := 0, accepted := s.accepted + [Arrival(c, s.ticks)])
  }

  /** One access of the watchdog call, or the interrupt. */
  function Next(s: State, step: Step): State {
    match step
    case Isr(c) => Interrupted(s, c)
    case Cpu => if Taking(s.pc) then TakeStep(s) else CountStep(s)
  }

  function Run(s: State, steps: seq<Step>): State {
    if steps == [] then s else Next(Run(s, steps[..|steps| - 1]), steps[|steps| - 1])
  }

  const Start := State(Idle, Command(0, 0, 0, 0, 0, 0), false, TIMEOUT_TICKS, [], [], 0, Stop, [], 0)

  function LastAt(s: State): nat
    requires s.accepted != []
  {
    s.accepted[|s.accepted| - 1].at
  }

  /** Every field is that of the accepted command it names, that command arrived no earlier than since,
      and later fields come from later commands. */
  predicate Sourced(fields: seq<Field>, accepted: seq<Arrival>, since: int) {
    && |fields| <= FIELDS
    && (forall k :: 0 <= k < |fields| ==>
          && fields[k].source < |accepted| && accepted[fields[k].source].at >= since
          && fields[k].value == FieldOf(accepted[fields[k].source].command, k))
    && (forall j, k :: 0 <= j < k < |fields| ==> fields[j].source <= fields[k].source)
  }

  /** The shared variables.  The tick never lags behind the calls, not even when the interrupt's reset is
      overwritten; a waiting command has just arrived unless time has run out for it. */
  predicate MailboxInvariant(s: State) {
    if s.accepted == [] then !s.updated && s.tick == TIMEOUT_TICKS && (s.pc == Idle || s.pc == CheckTimeout)
    else
      && s.rx == s.accepted[|s.accepted| - 1].command && LastAt(s) <= s.ticks
      && s.tick >= Min(TIMEOUT_TICKS, s.ticks - LastAt(s))
      && (s.pc == Load || s.pc.Store? ==> s.tick < TIMEOUT_TICKS)
      && (s.pc.Store? ==> s.pc.read < TIMEOUT_TICKS && s.pc.read + 1 >= Min(TIMEOUT_TICKS, s.ticks + 1 - LastAt(s)))
      && (s.pc == CheckUpdated || Copying(s.pc) ==> s.tick < TIMEOUT_TICKS)
      && (s.updated && (s.pc == Idle || s.pc == Load || s.pc.Store?) ==> LastAt(s) == s.ticks || s.tick >= TIMEOUT_TICKS)
      && (s.updated && (s.pc == CheckTimeout || s.pc == CheckUpdated) ==>
            LastAt(s) >= s.ticks - 1 || s.tick >= TIMEOUT_TICKS)
      && (s.updated && s.pc == Apply ==> LastAt(s) == s.ticks)
      && (Copying(s.pc) ==> LastAt(s) >= s.ticks - 1)
  }

  predicate CopyInvariant(s: State) {
    && Sourced(s.local, s.accepted, if Copying(s.pc) then s.ticks - 1 else 0)
    && (s.pc == Clear || s.pc == Apply ==> |s.local| == FIELDS)
  }

  /** The drive follows the command applied last. */
  predicate DriveFollows(s: State) {
    s.drive != Stop ==>
      && s.accepted != [] && |s.applied| == FIELDS && Sourced(s.applied, s.accepted, s.appliedAt - 1)
      && s.drive == Drive(CommandFrom(s.applied))
  }

  /** A later command is waiting or being copied, and the time since the last one was applied is limited. */
  predicate DriveTimely(s: State) {
    s.drive != Stop && s.accepted != [] ==>
      && (LastAt(s) > s.appliedAt ==> s.updated || Copying(s.pc))
      && (s.pc == Idle || s.pc == Load || s.pc.Store? ==> s.ticks < s.appliedAt + TIMEOUT_TICKS)
      && (s.pc == CheckTimeout ==>
            && s.ticks <= s.appliedAt + TIMEOUT_TICKS
            && (s.ticks == s.appliedAt + TIMEOUT_TICKS ==> s.updated || s.tick >= TIMEOUT_TICKS))
      && (s.pc == CheckUpdated ==> s.updated || s.ticks < s.appliedAt + TIMEOUT_TICKS)
  }

  predicate Invariant(s: State) {
    MailboxInvariant(s) && CopyInvariant(s) && DriveFollows(s) && DriveTimely(s)
  }

  lemma SourcedLater(fields: seq<Field>, accepted: seq<Arrival>, since: int, a: Arrival)
    requires Sourced(fields, accepted, since)
    ensures Sourced(fields, accepted + [a], since)
  {
  }

  lemma IsrKeepsInvariant(s: State, c: Command)
    requires Invariant(s)
    ensures Invariant(Interrupted(s, c))
  {
    SourcedLater(s.local, s.accepted, if Copying(s.pc) then s.ticks - 1 else 0, Arrival(c, s.ticks));
    if s.drive != Stop {
      SourcedLater(s.applied, s.accepted, s.appliedAt - 1, Arrival(c, s.ticks));
    }
  }

  lemma CountKeepsInvariant(s: State)
    requires Invariant(s) && !Taking(s.pc)
    ensures Invariant(CountStep(s))
  {
    CountKeepsMailbox(s);
    CountKeepsCopy(s);
    CountKeepsFollowing(s);
    CountKeepsDrive(s);
  }

  lemma CountKeepsCopy(s: State)
    requires CopyInvariant(s) && !Taking(s.pc)
    ensures CopyInvariant(CountStep(s))
  {
    var r := CountStep(s);
    assert r.local == s.local && r.accepted == s.accepted && !Copying(r.pc);
  }

  lemma CountKeepsFollowing(s: State)
    requires DriveFollows(s) && !Taking(s.pc)
    ensures DriveFollows(CountStep(s))
  {
    var r := CountStep(s);
    assert r.applied == s.applied && r.accepted == s.accepted && r.appliedAt == s.appliedAt;
  }

  lemma CountKeepsMailbox(s: State)
    requires MailboxInvariant(s) && !Taking(s.pc)
    ensures MailboxInvariant(CountStep(s))
  {
  }

  lemma CountKeepsDrive(s: State)
    requires MailboxInvariant(s) && DriveTimely(s) && !Taking(s.pc)
    ensures DriveTimely(CountStep(s))
  {
  }

  lemma TakeKeepsInvariant(s: State)
    requires Invariant(s) && Taking(s.pc)
    ensures Invariant(TakeStep(s))
  {
    TakeKeepsMailbox(s);
    TakeKeepsCopy(s);
    TakeKeepsDrive(s);
    TakeKeepsFollowing(s);
  }

  lemma TakeKeepsMailbox(s: State)
    requires MailboxInvariant(s) && Taking(s.pc)
    ensures MailboxInvariant(TakeStep(s))
  {
  }

  lemma TakeKeepsCopy(s: State)
    requires MailboxInvariant(s) && CopyInvariant(s) && Taking(s.pc)
    ensures CopyInvariant(TakeStep(s))
  {
    if s.pc == Copy && |s.local| < FIELDS && s.accepted != [] {
      CopyOne(s);
    } else {
      TakeWithoutCopying(s);
    }
  }

  lemma TakeWithoutCopying(s: State)
    requires MailboxInvariant(s) && CopyInvariant(s) && Taking(s.pc)
    requires s.pc == Copy ==> |s.local| == FIELDS || s.accepted == []
    ensures CopyInvariant(TakeStep(s))
  {
    var r := TakeStep(s);
    assert r.accepted == s.accepted && (r.local == s.local || r.local == []);
    if s.pc == Apply {
      Earlier(s.local, s.accepted, s.ticks - 1, 0);
    }
  }

  lemma Earlier(fields: seq<Field>, accepted: seq<Arrival>, since: int, earlier: int)
    requires Sourced(fields, accepted, since) && earlier <= 0
    ensures Sourced(fields, accepted, earlier)
  {
  }

  lemma CopyOne(s: State)
    requires MailboxInvariant(s) && CopyInvariant(s) && s.pc == Copy && |s.local| < FIELDS && s.accepted != []
    ensures CopyInvariant(TakeStep(s))
  {
    OneMoreField(s.local, s.accepted, s.ticks - 1);
  }

  lemma OneMoreField(fields: seq<Field>, accepted: seq<Arrival>, since: int)
    requires Sourced(fields, accepted, since) && |fields| < FIELDS
    requires accepted != [] && accepted[|accepted| - 1].at >= since
    ensures var last := |accepted| - 1;
            Sourced(fields + [Field(FieldOf(accepted[last].command, |fields|), last)], accepted, since)
  {
    assert forall k :: 0 <= k < |fields| ==> fields[k].source <= |accepted| - 1;
  }

  lemma TakeKeepsDrive(s: State)
    requires MailboxInvariant(s) && CopyInvariant(s) && DriveTimely(s) && Taking(s.pc)
    ensures DriveTimely(TakeStep(s))
  {
  }

  lemma TakeKeepsFollowing(s: State)
    requires MailboxInvariant(s) && CopyInvariant(s) && DriveFollows(s) && Taking(s.pc)
    ensures DriveFollows(TakeStep(s))
  {
    hide Sourced, FieldOf;
  }

  lemma StepKeepsInvariant(s: State, step: Step)
    requires Invariant(s)
    ensures Invariant(Next(s, step))
  {
    match step
    case Isr(c) => IsrKeepsInvariant(s, c);
    case Cpu => if Taking(s.pc) { TakeKeepsInvariant(s); } else { CountKeepsInvariant(s); }
  }

  lemma {:induction false} RunKeepsInvariant(steps: seq<Step>)
    ensures Invariant(Run(Start, steps))
  {
    if steps != [] {
      RunKeepsInvariant(steps[..|steps| - 1]);
      StepKeepsInvariant(Run(Start, steps[..|steps| - 1]), steps[|steps| - 1]);
    }
  }

  /** Stop bound, wherever the interrupts landed: between two calls the motor is driven only by fields of
      accepted commands each of which arrived at most 2000 ticks before.  Commands that are swallowed do
      not prolong the motion. */
  lemma StopBoundOfSources(steps: seq<Step>)
    ensures var s := Run(Start, steps);
            s.pc == Idle && s.drive != Stop ==>
              && |s.applied| == FIELDS && Sourced(s.applied, s.accepted, s.ticks - TIMEOUT_TICKS)
              && Moves(CommandFrom(s.applied)) && s.drive == Drive(CommandFrom(s.applied))
  {
    RunKeepsInvariant(steps);
  }
}
