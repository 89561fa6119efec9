/**
 What an interrupt inside a watchdog call of ACT does to a command (ACT/ActCan.c:494-503).
 Where it lands decides: before the first field is copied the command is obeyed whole;
 between two fields it is torn, and like one that lands before the flag is cleared it is
 swallowed; between reading and writing the last tick it is refused.
 */
module ActTearing {
  import opened ActCan
  import opened ActCanRx
  import opened ActInterleaving
  import opened Bytes
  import opened Motor

  // ---------- Positions in a run ----------

  /** This step copies field k. */
  predicate Copies(s: State, step: Step, k: nat) {
    step == Cpu && s.pc == Copy && |s.local| == k && k < FIELDS && s.accepted != []
  }

  /** The step at which field k of the present local copy was made; -1 if there is none. */
  function CopyAt(steps: seq<Step>, k: nat): (i: int)
    ensures -1 <= i < |steps|
  {
    if steps == [] then -1
    else
      var last := |steps| - 1;
      if Copies(Run(Start, steps[..last]), steps[last], k) then last else CopyAt(steps[..last], k)
  }

  function Arrivals(steps: seq<Step>): nat {
    if steps == [] then 0 else Arrivals(steps[..|steps| - 1]) + if steps[|steps| - 1].Isr? then 1 else 0
  }

  lemma {:induction false} AcceptedAreArrivals(steps: seq<Step>)
    ensures |Run(Start, steps).accepted| == Arrivals(steps)
  {
    if steps != [] {
      AcceptedAreArrivals(steps[..|steps| - 1]);
    }
  }

  /** No command arrives in a stretch of a run iff it has no interrupt. */
  lemma {:induction false} QuietIff(steps: seq<Step>, from: nat)
    requires from <= |steps|
    ensures Arrivals(steps[..from]) <= Arrivals(steps)
    ensures Arrivals(steps) == Arrivals(steps[..from]) <==> forall i :: from <= i < |steps| ==> steps[i] == Cpu
  {
    if from < |steps| {
      var last := |steps| - 1;
      QuietIff(steps[..last], from);
      assert steps[..last][..from] == steps[..from];
      assert forall i :: from <= i < last ==> steps[..last][i] == steps[i];
    } else {
      assert steps[..from] == steps;
    }
  }

  /** Each field of the local copy names the command that was the newest when it was copied. */
  lemma {:induction false} FieldSource(steps: seq<Step>, k: nat)
    requires k < |Run(Start, steps).local|
    ensures 0 <= CopyAt(steps, k) && Run(Start, steps).local[k].source == Arrivals(steps[..CopyAt(steps, k)]) - 1
  {
    var last := |steps| - 1;
    var before := steps[..last];
    var s := Run(Start, before);
    if Copies(s, steps[last], k) {
      AcceptedAreArrivals(before);
    } else {
      assert k < |s.local| && Run(Start, steps).local[k] == s.local[k];
      FieldSource(before, k);
      assert before[..CopyAt(before, k)] == steps[..CopyAt(before, k)];
    }
  }

  lemma {:induction false} CopiedInOrder(steps: seq<Step>, j: nat, k: nat)
    requires j < k < |Run(Start, steps).local|
    ensures CopyAt(steps, j) < CopyAt(steps, k)
  {
    var last := |steps| - 1;
    if !Copies(Run(Start, steps[..last]), steps[last], k) {
      CopiedInOrder(steps[..last], j, k);
    }
  }

  /** The six fields of a copy are of one command iff no interrupt landed between the first and the sixth. */
  lemma UntornIff(steps: seq<Step>)
    requires |Run(Start, steps).local| == FIELDS
    ensures var local := Run(Start, steps).local;
            (forall k :: 0 <= k < FIELDS ==> local[k].source == local[0].source)
            <==> forall i :: 0 <= i && CopyAt(steps, 0) <= i < CopyAt(steps, 5) ==> steps[i] == Cpu
  {
    var first, sixth := CopyAt(steps, 0), CopyAt(steps, 5);
    RunKeepsInvariant(steps);
    FieldSource(steps, 0);
    FieldSource(steps, 5);
    CopiedInOrder(steps, 0, 5);
    var stretch := steps[..sixth];
    QuietIff(stretch, first);
    assert stretch[..first] == steps[..first];
    assert forall i :: first <= i < sixth ==> stretch[i] == steps[i];
  }

  /** An untorn copy is one of the accepted commands. */
  lemma UntornIsAccepted(fields: seq<Field>, accepted: seq<Arrival>, since: int)
    requires Sourced(fields, accepted, since) && |fields| == FIELDS && fields[0].source == fields[FIELDS - 1].source
    ensures CommandFrom(fields) == accepted[fields[0].source].command
  {
    assert forall k :: 0 <= k < FIELDS ==> fields[k].source == fields[0].source;
    var c := accepted[fields[0].source].command;
    assert forall k :: 0 <= k < FIELDS ==> fields[k].value == FieldOf(c, k);
  }

  /** What a call is about to apply, its flag just cleared, is the newest command iff no interrupt has
      landed since its first field was copied. */
  lemma AppliesNewestIff(steps: seq<Step>)
    requires steps != [] && steps[|steps| - 1] == Cpu && Run(Start, steps[..|steps| - 1]).pc == Clear
    ensures |Run(Start, steps).local| == FIELDS
    ensures var s := Run(Start, steps);
            (forall k :: 0 <= k < FIELDS ==> s.local[k].source == |s.accepted| - 1)
            <==> forall i :: 0 <= i && CopyAt(steps, 0) <= i < |steps| ==> steps[i] == Cpu
  {
    RunKeepsInvariant(steps);
    FieldSource(steps, 0);
    AcceptedAreArrivals(steps);
    QuietIff(steps, CopyAt(steps, 0));
  }

  // ---------- What becomes of a command ----------

  /** Accesses that are left until the call is over. */
  function Rest(s: State): nat {
    match s.pc
    case Idle => 0
    case Apply => 1
    case Clear => 2
    case Copy => if |s.local| < FIELDS then 3 + FIELDS - |s.local| else 3
    case CheckUpdated => 10
    case CheckTimeout => 11
    case Store(_) => 12
    case Load => 13
  }

  /** The rest of the present call without an interrupt. */
  function FinishCall(s: State): (r: State)
    ensures r.pc == Idle
    decreases Rest(s)
  {
    if s.pc == Idle then s else FinishCall(Next(s, Cpu))
  }

  /** A whole call without an interrupt. */
  function WholeCall(s: State): State
    requires s.pc == Idle
  {
    FinishCall(Next(s, Cpu))
  }

  /** The fields from the k-th on, copied from one command. */
  function Fields(c: Command, source: nat, k: nat): (r: seq<Field>)
    requires k <= FIELDS
    ensures |r| == FIELDS - k
    decreases FIELDS - k
  {
    if k == FIELDS then [] else [Field(FieldOf(c, k), source)] + Fields(c, source, k + 1)
  }

  lemma {:induction false} FieldsAt(c: Command, source: nat, k: nat, j: nat)
    requires k + j < FIELDS
    ensures Fields(c, source, k)[j] == Field(FieldOf(c, k + j), source)
    decreases FIELDS - k
  {
    if j > 0 {
      FieldsAt(c, source, k + 1, j - 1);
    }
  }

  /** The complete copy when nothing disturbs the rest of it. */
  function Completed(s: State): (copy: seq<Field>)
    requires |s.local| <= FIELDS && s.accepted != []
    ensures |copy| == FIELDS
  {
    s.local + Fields(s.rx, |s.accepted| - 1, |s.local|)
  }

  lemma CompletedAfterOne(s: State)
    requires |s.local| < FIELDS && s.accepted != []
    ensures Completed(s.(local := s.local + [Field(FieldOf(s.rx, |s.local|), |s.accepted| - 1)])) == Completed(s)
  {
    InFront(s.local, Field(FieldOf(s.rx, |s.local|), |s.accepted| - 1), Fields(s.rx, |s.accepted| - 1, |s.local| + 1));
  }

  lemma CompletedAlready(s: State)
    requires |s.local| == FIELDS && s.accepted != []
    ensures Completed(s) == s.local
  {
  }

  function Apply6(s: State, copy: seq<Field>): State
    requires |copy| == FIELDS
  {
    s.(pc := Idle, updated := false, local := copy, applied := copy, appliedAt := s.ticks, drive := Drive(CommandFrom(copy)))
  }

  /** An undisturbed copy takes the remaining fields from the newest command. */
  lemma {:induction false} CopyFinishes(s: State)
    requires s.pc == Copy && |s.local| <= FIELDS && s.accepted != []
    ensures FinishCall(s) == Apply6(s, Completed(s))
    decreases FIELDS - |s.local|
  {
    if |s.local| < FIELDS {
      CopyFinishes(s.(local := s.local + [Field(FieldOf(s.rx, |s.local|), |s.accepted| - 1)]));
      CompletedAfterOne(s);
    } else {
      FullCopyIsApplied(s);
      CompletedAlready(s);
    }
  }

  lemma FullCopyIsApplied(s: State)
    requires s.pc == Copy && |s.local| == FIELDS
    ensures FinishCall(s) == Apply6(s, s.local)
  {
    var clear := s.(pc := Clear);
    assert FinishCall(s) == FinishCall(clear) == FinishCall(Next(clear, Cpu));
  }

  lemma InFront(fields: seq<Field>, field: Field, others: seq<Field>)
    ensures fields + [field] + others == fields + ([field] + others)
  {
  }

  /** The command that arrived last drives, whole, and nothing is waiting. */
  predicate Obeys(s: State, c: Command) {
    && s.accepted != [] && !s.updated && |s.applied| == FIELDS && s.drive == Drive(c)
    && forall k :: 0 <= k < FIELDS ==> s.applied[k] == Field(FieldOf(c, k), |s.accepted| - 1)
  }

  /** An interrupt here is too late for the call that is copying, and its flag will be cleared with it. */
  predicate Swallows(s: State) { (s.pc == Copy && |s.local| > 0) || s.pc == Clear }

  /** An interrupt here has its reset of the tick overwritten by the last tick. */
  predicate Refuses(s: State) { s.pc == Store(TIMEOUT_TICKS - 1) }

  lemma WholeCopy(c: Command, source: nat)
    ensures CommandFrom(Fields(c, source, 0)) == c
    ensures forall k :: 0 <= k < FIELDS ==> Fields(c, source, 0)[k] == Field(FieldOf(c, k), source)
  {
    forall k | 0 <= k < FIELDS
      ensures Fields(c, source, 0)[k] == Field(FieldOf(c, k), source)
    {
      FieldsAt(c, source, 0, k);
    }
  }

  lemma CopiedFromStart(s: State)
    requires s.pc == Copy && s.local == [] && s.accepted != []
    ensures Obeys(FinishCall(s), s.rx) && FinishCall(s).tick == s.tick
  {
    CopyFinishes(s);
    WholeIsObeyed(s);
  }

  lemma WholeIsObeyed(s: State)
    requires s.local == [] && s.accepted != []
    ensures Obeys(Apply6(s, Completed(s)), s.rx)
  {
    WholeCopy(s.rx, |s.accepted| - 1);
    assert Completed(s) == Fields(s.rx, |s.accepted| - 1, 0);
  }

  lemma TakenFromCheck(s: State)
    requires s.pc == CheckUpdated && s.updated && s.accepted != []
    ensures Obeys(FinishCall(s), s.rx) && FinishCall(s).tick == s.tick
  {
    var copying := s.(pc := Copy, local := []);
    assert FinishCall(s) == FinishCall(copying);
    CopiedFromStart(copying);
  }

  /** A waiting command is obeyed by the next call unless time has run out. */
  lemma WaitingIsTaken(s: State)
    requires s.pc == Idle && s.updated && s.accepted != [] && s.tick < TIMEOUT_TICKS - 1
    ensures Obeys(WholeCall(s), s.rx)
  {
    TakenFromStore(Next(Next(s, Cpu), Cpu));
  }

  lemma TakenFromStore(s: State)
    requires s.pc.Store? && s.pc.read < TIMEOUT_TICKS - 1 && s.updated && s.accepted != []
    ensures Obeys(FinishCall(s), s.rx) && FinishCall(s).tick == s.pc.read + 1
  {
    TakenFromCheck(Next(Next(s, Cpu), Cpu));
  }

  /** A call that finds nothing new leaves the command applied as it was. */
  lemma QuietCall(s: State)
    requires s.pc == Idle && !s.updated && s.tick < TIMEOUT_TICKS - 1
    ensures WholeCall(s) == s.(tick := s.tick + 1, ticks := s.ticks + 1)
  {
    var t := Next(Next(Next(s, Cpu), Cpu), Cpu);
    assert WholeCall(s) == FinishCall(Next(Next(s, Cpu), Cpu)) == FinishCall(t);
    assert FinishCall(t) == FinishCall(Next(t, Cpu)) == FinishCall(Next(Next(t, Cpu), Cpu));
  }

  /** A call after the time has run out stops the motor and takes nothing. */
  lemma ExpiredCall(s: State)
    requires s.pc == Idle && s.tick >= TIMEOUT_TICKS
    ensures WholeCall(s) == s.(ticks := s.ticks + 1, drive := Stop)
  {
    var t := Next(s, Cpu);
    assert FinishCall(t) == FinishCall(Next(t, Cpu));
  }

  /** The fate of a command that is followed by no other until the end of the next call: it is obeyed by
      then iff it did not land in a copy after the first field, nor before its flag was cleared, nor between
      the reading and the writing of tick 1999. */
  lemma ObeyedIff(steps: seq<Step>, c: Command)
    ensures var p := Run(Start, steps);
            var s := FinishCall(Next(p, Isr(c)));
            Obeys(WholeCall(s), c) || Obeys(s, c) <==> !Swallows(p) && !Refuses(p)
  {
    var p := Run(Start, steps);
    RunKeepsInvariant(steps);
    var arrived := Next(p, Isr(c));
    match p.pc
    case Idle => WaitingIsTaken(arrived);
    case Load => TakenFromStore(Next(arrived, Cpu));
    case Store(v) => if v == TIMEOUT_TICKS - 1 { RefusedCall(arrived); } else { TakenFromStore(arrived); }
    case CheckTimeout => TakenFromCheck(Next(arrived, Cpu));
    case CheckUpdated => TakenFromCheck(arrived);
    case Copy => if |p.local| > 0 { SwallowedInCopy(arrived); } else { CopiedFromStart(arrived); }
    case Clear => SwallowedInClear(arrived);
    case Apply => WaitingIsTaken(Next(arrived, Cpu));
  }

  /** Refused: the flag stays set, the motor is stopped, and so it remains, call after call. */
  lemma RefusedCall(s: State)
    requires s.pc == Store(TIMEOUT_TICKS - 1) && s.updated
    ensures var r := FinishCall(s);
            && r == s.(pc := Idle, tick := TIMEOUT_TICKS, ticks := s.ticks + 1, drive := Stop)
            && WholeCall(r) == r.(ticks := r.ticks + 1)
  {
    var t := Next(s, Cpu);
    assert FinishCall(s) == FinishCall(t) == FinishCall(Next(t, Cpu));
    ExpiredCall(FinishCall(s));
  }

  /** Swallowed: the call applies a first field of an older command, and then nothing is waiting. */
  lemma SwallowedInCopy(s: State)
    requires s.pc == Copy && 0 < |s.local| <= FIELDS && s.accepted != [] && s.tick == 0
    requires s.local[0].source < |s.accepted| - 1
    ensures !Obeys(FinishCall(s), s.rx) && !Obeys(WholeCall(FinishCall(s)), s.rx) && !FinishCall(s).updated
  {
    CopyFinishes(s);
    var r := FinishCall(s);
    assert r.applied[0] == s.local[0];
    QuietCall(r);
  }

  lemma SwallowedInClear(s: State)
    requires s.pc == Clear && |s.local| == FIELDS && s.accepted != [] && s.tick == 0
    requires s.local[0].source < |s.accepted| - 1
    ensures !Obeys(FinishCall(s), s.rx) && !Obeys(WholeCall(FinishCall(s)), s.rx) && !FinishCall(s).updated
  {
    var full := s.(pc := Copy);
    assert FinishCall(full) == FinishCall(Next(full, Cpu)) == FinishCall(s);
    SwallowedInCopy(full);
  }

  // ---------- Torn commands ----------

  /** The first k fields of one command and the rest of another. */
  function Mix(a: Command, b: Command, k: nat): Command {
    Command(if k > 0 then a.accel else b.accel, if k > 1 then a.steering else b.steering,
            if k > 2 then a.brake else b.brake, if k > 3 then a.gear else b.gear,
            if k > 4 then a.mode else b.mode, if k > 5 then a.safety else b.safety)
  }

  /** A single interrupt after k fields of a copy makes the call apply exactly this mixture. */
  lemma TearIsMix(p: State, b: Command)
    requires Invariant(p) && p.pc == Copy
    requires forall k :: 0 <= k < |p.local| ==> p.local[k].source == |p.accepted| - 1
    ensures var s := FinishCall(Next(p, Isr(b)));
            && |s.applied| == FIELDS && CommandFrom(s.applied) == Mix(p.rx, b, |p.local|)
            && s.drive == Drive(Mix(p.rx, b, |p.local|)) && !s.updated
  {
    var arrived := Next(p, Isr(b));
    CopyFinishes(arrived);
    assert Sourced(p.local, p.accepted, p.ticks - 1);
    assert forall k :: 0 <= k < |p.local| ==> p.local[k].value == FieldOf(p.rx, k);
    MixedCopy(p.local, p.rx, b, |p.accepted|);
    assert Completed(arrived) == p.local + Fields(b, |p.accepted|, |p.local|);
  }

  lemma MixedCopy(fields: seq<Field>, a: Command, b: Command, source: nat)
    requires |fields| <= FIELDS && forall k :: 0 <= k < |fields| ==> fields[k].value == FieldOf(a, k)
    ensures CommandFrom(fields + Fields(b, source, |fields|)) == Mix(a, b, |fields|)
  {
    var n := |fields|;
    var copy := fields + Fields(b, source, n);
    forall k | 0 <= k < FIELDS
      ensures copy[k].value == if k < n then FieldOf(a, k) else FieldOf(b, k)
    {
      if k >= n {
        FieldsAt(b, source, n, k - n);
      }
    }
  }

  /** What field k must say for the motor to move. */
  predicate GoAhead(c: Command, k: nat) {
    match k
    case 0 => c.accel == 1
    case 2 => c.brake == 0
    case 3 => c.gear == GEAR_D || c.gear == GEAR_R
    case 4 => c.mode == MODE_REMOTE
    case 5 => c.safety == SAFETY_NORMAL
    case _ => true
  }

  predicate GoAheadBefore(c: Command, k: nat) { forall j :: 0 <= j < k ==> GoAhead(c, j) }
  predicate GoAheadFrom(c: Command, k: nat) { forall j :: k <= j < FIELDS ==> GoAhead(c, j) }

  lemma MovesIffGoAhead(c: Command, k: nat)
    requires k <= FIELDS
    ensures Moves(c) <==> GoAheadBefore(c, k) && GoAheadFrom(c, k)
  {
    if GoAheadBefore(c, k) && GoAheadFrom(c, k) {
      forall j | 0 <= j < FIELDS
        ensures GoAhead(c, j)
      {
      }
      assert GoAhead(c, 0) && GoAhead(c, 2) && GoAhead(c, 3) && GoAhead(c, 4) && GoAhead(c, 5);
    }
  }

  /** Exactly which successive commands a and b can move the motor, torn after k fields, although neither
      asks for it: a's fields before the tear and b's fields after it say go, and one of the others of each
      says no. */
  lemma TornMovesIff(a: Command, b: Command, k: nat)
    requires 0 < k < FIELDS
    ensures Moves(Mix(a, b, k)) && !Moves(a) && !Moves(b)
            <==> GoAheadBefore(a, k) && GoAheadFrom(b, k) && !GoAheadFrom(a, k) && !GoAheadBefore(b, k)
    ensures k <= 2 ==>
              (Moves(Mix(a, b, k)) && !Moves(a) && !Moves(b)
               <==> a.accel == 1 && b.accel != 1 && !Moves(a) && Moves(b.(accel := 1)))
    ensures k == 3 ==>
              (Moves(Mix(a, b, k)) && !Moves(a) && !Moves(b)
               <==> a.accel == 1 && a.brake == 0 && !Moves(a) && !Moves(b) && Moves(b.(accel := 1, brake := 0)))
    ensures k == 4 ==>
              (Moves(Mix(a, b, k)) && !Moves(a) && !Moves(b)
               <==> Moves(a.(mode := MODE_REMOTE, safety := SAFETY_NORMAL)) && !Moves(a) && !Moves(b)
                    && b.mode == MODE_REMOTE && b.safety == SAFETY_NORMAL)
    ensures k == 5 ==>
              (Moves(Mix(a, b, k)) && !Moves(a) && !Moves(b)
               <==> Moves(a.(safety := SAFETY_NORMAL)) && !Moves(a) && !Moves(b) && b.safety == SAFETY_NORMAL)
  {
    var mix := Mix(a, b, k);
    MovesIffGoAhead(a, k);
    MovesIffGoAhead(b, k);
    MovesIffGoAhead(mix, k);
    assert GoAheadBefore(mix, k) <==> GoAheadBefore(a, k) by {
      assert forall j :: 0 <= j < k ==> (GoAhead(mix, j) <==> GoAhead(a, j));
    }
    assert GoAheadFrom(mix, k) <==> GoAheadFrom(b, k) by {
      assert forall j :: k <= j < FIELDS ==> (GoAhead(mix, j) <==> GoAhead(b, j));
    }
  }
}
