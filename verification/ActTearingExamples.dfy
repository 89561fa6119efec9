/**
 Runs of the watchdog call and the receive interrupt of ACT (ACT/ActCan.c) in which a command
 is torn, swallowed or refused.
 */
module ActTearingExamples {
  import opened ActCan
  import opened ActCanRx
  import opened ActInterleaving
  import opened ActTearing
  import opened Motor

  ghost predicate Reachable(s: State) {
    exists steps :: Run(Start, steps) == s
  }

  lemma OneStep(s: State, step: Step)
    requires Reachable(s)
    ensures Reachable(Next(s, step))
  {
    var steps :| Run(Start, steps) == s;
    assert (steps + [step])[..|steps|] == steps;
    assert Run(Start, steps + [step]) == Next(s, step);
  }

  lemma {:induction false} CallEnds(s: State)
    requires Reachable(s)
    ensures Reachable(FinishCall(s))
    decreases ActTearing.Rest(s)
  {
    if s.pc != Idle {
      OneStep(s, Cpu);
      CallEnds(Next(s, Cpu));
    }
  }

  /** n whole calls without an interrupt. */
  function Calls(s: State, n: nat): (r: State)
    requires s.pc == Idle
    ensures r.pc == Idle
  {
    if n == 0 then s else WholeCall(Calls(s, n - 1))
  }

  lemma {:induction false} QuietCalls(s: State, n: nat)
    requires s.pc == Idle && !s.updated && s.tick + n < TIMEOUT_TICKS && Reachable(s)
    ensures Calls(s, n) == s.(tick := s.tick + n, ticks := s.ticks + n) && Reachable(Calls(s, n))
  {
    if n > 0 {
      QuietCalls(s, n - 1);
      QuietCall(Calls(s, n - 1));
      OneStep(Calls(s, n - 1), Cpu);
      CallEnds(Next(Calls(s, n - 1), Cpu));
    }
  }

  /** The rest of a copy without an interrupt, up to the clearing of the flag. */
  lemma {:induction false} ReachesClear(s: State)
    requires s.pc == Copy && |s.local| <= FIELDS && s.accepted != [] && Reachable(s)
    ensures Reachable(s.(pc := Clear, local := Completed(s)))
    decreases FIELDS - |s.local|
  {
    OneStep(s, Cpu);
    if |s.local| < FIELDS {
      CompletedAfterOne(s);
      ReachesClear(s.(local := s.local + [Field(FieldOf(s.rx, |s.local|), |s.accepted| - 1)]));
    } else {
      CompletedAlready(s);
    }
  }

  lemma TwoSteps(s: State)
    requires Reachable(s)
    ensures Reachable(Next(Next(s, Cpu), Cpu))
  {
    OneStep(s, Cpu);
    OneStep(Next(s, Cpu), Cpu);
  }

  /** The first call after a first command, up to the beginning of its copy. */
  lemma FirstCopy(c: Command) returns (s: State)
    ensures Reachable(s)
    ensures s == State(Copy, c, true, 1, [], [], 0, Stop, [Arrival(c, 0)], 1)
  {
    assert Run(Start, []) == Start;
    OneStep(Start, Isr(c));
    var storing := State(Store(0), c, true, 0, [], [], 0, Stop, [Arrival(c, 0)], 0);
    assert Next(Next(Next(Start, Isr(c)), Cpu), Cpu) == storing;
    TwoSteps(Next(Start, Isr(c)));
    var checking := storing.(pc := CheckUpdated, tick := 1, ticks := 1);
    assert Next(Next(storing, Cpu), Cpu) == checking;
    TwoSteps(storing);
    OneStep(checking, Cpu);
    s := Next(checking, Cpu);
  }

  /** After its first call a command drives, and nothing is waiting. */
  lemma FirstCall(c: Command) returns (s: State)
    ensures Reachable(s) && s.pc == Idle && !s.updated && s.tick == s.ticks == 1 && s.accepted == [Arrival(c, 0)]
  {
    var copying := FirstCopy(c);
    CallEnds(copying);
    CopyFinishes(copying);
    s := FinishCall(copying);
  }

  /** The last tick has been read and not yet written. */
  lemma LastTick(s: State) returns (r: State)
    requires Reachable(s) && s.pc == Idle && !s.updated && s.tick == 1
    ensures Reachable(r) && r == s.(pc := Store(TIMEOUT_TICKS - 1), tick := TIMEOUT_TICKS - 1, ticks := s.ticks + 1998)
  {
    QuietCalls(s, 1998);
    var late := Calls(s, 1998);
    TwoSteps(late);
    r := Next(Next(late, Cpu), Cpu);
  }

  const Go := Command(1, 0, 0, GEAR_D, MODE_REMOTE, SAFETY_NORMAL)
  const ForcedStop := Command(0, 0, 1, GEAR_P, MODE_REMOTE, SAFETY_FORCE_STOP)
  const Braking := Command(1, 0, 1, GEAR_D, MODE_REMOTE, SAFETY_NORMAL)
  const Coasting := Command(0, 0, 0, GEAR_D, MODE_REMOTE, SAFETY_NORMAL)

  /** Swallowed: a forced stop is accepted after a drive command, and between two calls the motor is driven,
      nothing is waiting, and the watchdog has just been restarted. */
  lemma SwallowedStop() returns (s: State)
    ensures Reachable(s) && s.pc == Idle && s.accepted == [Arrival(Go, 0), Arrival(ForcedStop, 1)]
    ensures s.drive == Forward && !s.updated && s.tick == 0
  {
    var copying := FirstCopy(Go);
    ReachesClear(copying);
    var clear := copying.(pc := Clear, local := Completed(copying));
    OneStep(clear, Isr(ForcedStop));
    var arrived := Next(clear, Isr(ForcedStop));
    CallEnds(arrived);
    s := FinishCall(arrived);
    WholeIsObeyed(copying);
    FullCopyIsApplied(arrived.(pc := Copy));
    assert FinishCall(arrived.(pc := Copy)) == s;
  }

  /** Refused: a command arrives in the last tick, waits with the flag set, and the watchdog has expired. */
  lemma RefusedCommand() returns (s: State)
    ensures Reachable(s) && s.pc == Idle && s.accepted == [Arrival(Go, 0), Arrival(Go, 1999)]
    ensures s.updated && s.tick == TIMEOUT_TICKS && s.drive == Stop
    ensures WholeCall(s) == s.(ticks := s.ticks + 1)
  {
    var driving := FirstCall(Go);
    var storing := LastTick(driving);
    var arrived := Next(storing, Isr(Go));
    OneStep(storing, Isr(Go));
    CallEnds(arrived);
    RefusedCall(arrived);
    s := FinishCall(arrived);
  }

  /** Torn: the motor is driven forward although no command asked for motion.  The first has the brake on,
      the second the accelerator off, and the copy takes one field from the first. */
  lemma TornCommandMoves() returns (s: State)
    ensures Reachable(s) && s.pc == Idle && s.accepted == [Arrival(Braking, 0), Arrival(Coasting, 1)]
    ensures !Moves(Braking) && !Moves(Coasting) && s.drive == Forward
  {
    var copying := FirstCopy(Braking);
    OneStep(copying, Cpu);
    var torn := Next(copying, Cpu);
    OneStep(torn, Isr(Coasting));
    CallEnds(Next(torn, Isr(Coasting)));
    TearIsMix(torn, Coasting);
    CopyFinishes(Next(torn, Isr(Coasting)));
    s := FinishCall(Next(torn, Isr(Coasting)));
  }
}
