/**
 Collision warning of the BODY ECU (BODY/BodyControl.c): four levels with hysteresis.
 */
module BodyCollision {
  import opened Bytes

  const NO_OBJECT_CM := 400
  const MEASURE_PERIOD_MS := 60
  const VALID_HOLD_MS := 300

  const STAGE1_CM := 30
  const STAGE2_CM := 20
  const STAGE3_CM := 10
  const HYSTERESIS_CM := 5

  /** The level that a distance demands at least, and the highest one that it allows. */
  function Strict(d: nat): (level: nat)
    ensures level <= 3
  {
    if d <= STAGE3_CM - HYSTERESIS_CM then 3
    else if d <= STAGE2_CM - HYSTERESIS_CM then 2
    else if d <= STAGE1_CM - HYSTERESIS_CM then 1 else 0
  }

  function Loose(d: nat): (level: nat)
    ensures level <= 3
  {
    if d >= STAGE1_CM + HYSTERESIS_CM then 0
    else if d >= STAGE2_CM + HYSTERESIS_CM then 1
    else if d >= STAGE3_CM + HYSTERESIS_CM then 2 else 3
  }

  /** The state machine never does more than it must: it moves the level just far enough to satisfy both bounds. */
  function ComputeLevel(level: nat, d: nat): (r: nat)
    requires level <= 3
    ensures Strict(d) <= r <= Loose(d)
    ensures Strict(d) <= level <= Loose(d) ==> r == level
    ensures level < Strict(d) ==> r == Strict(d)
    ensures level > Loose(d) ==> r == Loose(d)
  {
    match level
    case 0 => if d <= 5 then 3 else if d <= 15 then 2 else if d <= 25 then 1 else 0
    case 1 => if d <= 5 then 3 else if d <= 15 then 2 else if d >= 35 then 0 else 1
    case 2 => if d <= 5 then 3 else if d >= 35 then 0 else if d >= 25 then 1 else 2
    case 3 => if d >= 35 then 0 else if d >= 25 then 1 else if d >= 15 then 2 else 3
  }

  /** The levels that a sequence of measured distances leads through, the initial one first. */
  function Levels(level: nat, ds: seq<nat>): (r: seq<nat>)
    requires level <= 3
    decreases |ds|
    ensures |r| == |ds| + 1 && r[0] == level && forall i :: 0 <= i < |r| ==> r[i] <= 3
  {
    if ds == [] then [level] else [level] + Levels(ComputeLevel(level, ds[0]), ds[1..])
  }

  predicate Rising(s: seq<nat>) { forall i :: 0 <= i < |s| - 1 ==> s[i] <= s[i + 1] }
  predicate Falling(s: seq<nat>) { forall i :: 0 <= i < |s| - 1 ==> s[i] >= s[i + 1] }

  /** A level that every distance of the sequence would accept pulls the levels towards itself. */
  lemma {:induction false} TowardsCommonLevel(level: nat, ds: seq<nat>, b: nat)
    requires level <= 3 && forall i :: 0 <= i < |ds| ==> Strict(ds[i]) <= b <= Loose(ds[i])
    ensures level <= b ==> Rising(Levels(level, ds)) && forall i :: 0 <= i <= |ds| ==> Levels(level, ds)[i] <= b
    ensures level >= b ==> Falling(Levels(level, ds)) && forall i :: 0 <= i <= |ds| ==> Levels(level, ds)[i] >= b
    decreases |ds|
  {
    if ds != [] {
      var next := ComputeLevel(level, ds[0]);
      assert Strict(ds[0]) <= b <= Loose(ds[0]);
      TowardsCommonLevel(next, ds[1..], b);
      var r := Levels(level, ds);
      assert r[0] == level && r[1..] == Levels(next, ds[1..]);
      assert forall i :: 1 <= i < |r| ==> r[i] == Levels(next, ds[1..])[i - 1];
    }
  }

  lemma {:induction false} Nearest(ds: seq<nat>) returns (k: nat)
    requires ds != []
    ensures k < |ds| && forall i :: 0 <= i < |ds| ==> ds[k] <= ds[i]
  {
    k := 0;
    if |ds| > 1 {
      var j := Nearest(ds[1..]);
      if ds[1..][j] < ds[0] {
        k := j + 1;
      }
      assert forall i :: 1 <= i < |ds| ==> ds[i] == ds[1..][i - 1];
    }
  }

  /** Distances that stay within less than 10 cm of each other move the level in one direction only. */
  lemma NoChatter(level: nat, ds: seq<nat>)
    requires level <= 3
    requires forall i, j :: 0 <= i < |ds| && 0 <= j < |ds| ==> ds[i] - ds[j] < 2 * HYSTERESIS_CM
    ensures Rising(Levels(level, ds)) || Falling(Levels(level, ds))
  {
    if ds != [] {
      var k := Nearest(ds);
      TowardsCommonLevel(level, ds, Strict(ds[k]));
    }
  }

  /** Two distances are told apart for ever iff no level suits both; 10 cm can be enough. */
  lemma {:induction false} ChattersIff(near: nat, far: nat, level: nat)
    requires level <= 3 && near <= far
    ensures (forall n: nat :: Rising(Levels(level, Alternate(near, far, n))) || Falling(Levels(level, Alternate(near, far, n))))
            <==> Strict(near) <= Loose(far)
    ensures Strict(15) > Loose(25)
  {
    if Strict(near) <= Loose(far) {
      forall n: nat
        ensures Rising(Levels(level, Alternate(near, far, n))) || Falling(Levels(level, Alternate(near, far, n)))
      {
        AlternateMembers(near, far, n);
        TowardsCommonLevel(level, Alternate(near, far, n), Strict(near));
      }
    } else {
      var ds := Alternate(near, far, 2);
      assert ds == [near, far, near, far] by {
        assert Alternate(near, far, 0) == [];
        assert Alternate(near, far, 1) == [near, far];
      }
      FourSteps(level, ds);
      var n: nat := 2;
      assert !Rising(Levels(level, Alternate(near, far, n))) && !Falling(Levels(level, Alternate(near, far, n)));
    }
  }

  function Alternate(near: nat, far: nat, n: nat): seq<nat> {
    if n == 0 then [] else [near, far] + Alternate(near, far, n - 1)
  }

  lemma {:induction false} AlternateMembers(near: nat, far: nat, n: nat)
    ensures forall i :: 0 <= i < |Alternate(near, far, n)| ==> Alternate(near, far, n)[i] in {near, far}
  {
    if n > 0 {
      AlternateMembers(near, far, n - 1);
    }
  }

  lemma FourSteps(level: nat, ds: seq<nat>)
    requires level <= 3 && |ds| == 4 && ds[0] == ds[2] && ds[1] == ds[3] && Strict(ds[0]) > Loose(ds[1])
    ensures var r := Levels(level, ds); r[1] > r[2] && r[2] < r[3]
  {
    var a := ComputeLevel(level, ds[0]);
    var b := ComputeLevel(a, ds[1]);
    var c := ComputeLevel(b, ds[2]);
    assert ds[1..][0] == ds[1] && ds[1..][1..] == ds[2..] && ds[2..][0] == ds[2];
    assert Levels(level, ds)[1..] == Levels(a, ds[1..]);
    assert Levels(a, ds[1..])[1..] == Levels(b, ds[2..]);
    assert Levels(b, ds[2..])[1] == c;
    assert Levels(level, ds)[1] == a && Levels(level, ds)[2] == b && Levels(level, ds)[3] == c;
  }

  function LevelAfter(ds: seq<nat>): (level: nat)
    ensures level <= 3
  {
    Levels(0, ds)[|ds|]
  }

  lemma {:induction false} LevelsAppend(level: nat, ds: seq<nat>, d: nat)
    requires level <= 3
    ensures Levels(level, ds + [d])[|ds| + 1] == ComputeLevel(Levels(level, ds)[|ds|], d)
    decreases |ds|
  {
    if ds != [] {
      LevelsAppend(ComputeLevel(level, ds[0]), ds[1..], d);
      assert (ds + [d])[1..] == ds[1..] + [d];
    } else {
      assert ([d])[1..] == [];
    }
  }

  lemma OneMoreDistance(ds: seq<nat>, d: nat)
    ensures LevelAfter(ds + [d]) == ComputeLevel(LevelAfter(ds), d) && LevelAfter([]) == 0
  {
    LevelsAppend(0, ds, d);
  }

  /** The variables of the warning. */
  datatype Warn = Warn(lampOn: bool, cm: nat, valid: bool, timer: nat, hold: nat, level: nat)

  const WarnOff := Warn(false, NO_OBJECT_CM, false, 0, 0, 0)

  function Switched(w: Warn, on: bool): Warn {
    if !on then WarnOff else w.(lampOn := true, timer := if w.lampOn then w.timer else MEASURE_PERIOD_MS)
  }

  predicate Measures(w: Warn) { w.lampOn && w.timer >= MEASURE_PERIOD_MS }

  /** One millisecond, in which the sensor reports m if it is asked. */
  function Ticked(w: Warn, m: Option<nat>): Warn
    requires w.level <= 3
  {
    var hold := if w.hold > 0 then w.hold - 1 else 0;
    if !w.lampOn then WarnOff
    else if !Measures(w) then w.(timer := w.timer + 1, hold := hold)
    else
      match m
      case Some(d) => Warn(true, d, true, 0, VALID_HOLD_MS, ComputeLevel(w.level, d))
      case None =>
        if hold == 0 then Warn(true, NO_OBJECT_CM, false, 0, 0, 0)
        else w.(timer := 0, hold := hold, level := if w.valid then ComputeLevel(w.level, w.cm) else 0)
  }

  /** A measurement for diagnostics replaces the distance. */
  function Diagnosed(w: Warn, m: Option<nat>): Warn {
    w.(cm := if m.Some? then m.value else NO_OBJECT_CM, valid := m.Some?)
  }

  function Millimetres(m: Option<nat>): (mm: nat)
    ensures mm < 0x1_0000 && (mm == 0xFFFF <==> m.None? || m.value > 6553)
    ensures mm != 0xFFFF ==> mm == 10 * m.value
  {
    if m.Some? && m.value * 10 <= 0xFFFF then m.value * 10 else 0xFFFF
  }

  function TickedFor(w: Warn, ms: seq<Option<nat>>): (r: Warn)
    requires w.level <= 3
    ensures r.level <= 3
  {
    if ms == [] then w else Ticked(TickedFor(w, ms[..|ms| - 1]), ms[|ms| - 1])
  }

  /** Between two measurements only the timers run: switched on, the warning measures in the first
      millisecond and then in every 61st. */
  lemma {:induction false} MeasuresEvery61(w: Warn, ms: seq<Option<nat>>)
    requires w.lampOn && w.timer == 0 && w.level <= 3 && |ms| <= MEASURE_PERIOD_MS
    ensures var r := TickedFor(w, ms);
            && r == w.(timer := |ms|, hold := r.hold) && r.hold == (if w.hold > |ms| then w.hold - |ms| else 0)
            && (Measures(r) <==> |ms| == 60)
    ensures Measures(Switched(w.(lampOn := false), true)) && Measures(Switched(w, true)) == Measures(w)
  {
    if ms != [] {
      MeasuresEvery61(w, ms[..|ms| - 1]);
    }
  }

  class CollisionWarning {
    var lampOn: bool
    var distanceCm: nat
    var distanceValid: bool
    var measureTimerMs: nat
    var validHoldTimerMs: nat
    var level: nat
    // The distances since the level was last reset.
    ghost var distances: seq<nat>

    ghost predicate Valid()
      reads this
    {
      level == LevelAfter(distances) && (!lampOn ==> level == 0 && distances == [])
    }

    function State(): Warn
      reads `lampOn, `distanceCm, `distanceValid, `measureTimerMs, `validHoldTimerMs, `level
    {
      Warn(lampOn, distanceCm, distanceValid, measureTimerMs, validHoldTimerMs, level)
    }

    constructor ()
      ensures Valid() && State() == WarnOff && distances == []
    {
      lampOn, distanceCm, distanceValid := false, NO_OBJECT_CM, false;
      measureTimerMs, validHoldTimerMs, level, distances := 0, 0, 0, [];
    }

    method Reset()
      modifies `distanceCm, `distanceValid, `measureTimerMs, `validHoldTimerMs, `level, `distances
      ensures level == 0 && distances == [] && !distanceValid && distanceCm == NO_OBJECT_CM
      ensures measureTimerMs == validHoldTimerMs == 0
    {
      distanceCm, distanceValid, measureTimerMs, validHoldTimerMs := NO_OBJECT_CM, false, 0, 0;
      level, distances := 0, [];
    }

    lemma LevelIsSmall()
      requires Valid()
      ensures level <= 3
    {
    }

    /** Switching the lamp on makes the next millisecond measure. */
    method SetCollisionWarningLamp(on: bool)
      requires Valid()
      modifies this
      ensures Valid() && State() == Switched(old(State()), on)
      ensures on && !old(lampOn) ==> measureTimerMs == MEASURE_PERIOD_MS
      ensures on ==> distances == old(distances) && distanceValid == old(distanceValid)
      ensures !on ==> !lampOn && !distanceValid && distanceCm == 400 && level == 0 && measureTimerMs == validHoldTimerMs == 0
    {
      var wasOn := lampOn;
      lampOn := on;
      if on {
        if !wasOn {
          measureTimerMs := MEASURE_PERIOD_MS;
        }
      } else {
        Reset();
      }
    }

    /** The next call is going to measure. */
    predicate Due()
      reads `lampOn, `measureTimerMs
    {
      lampOn && measureTimerMs >= MEASURE_PERIOD_MS
    }

    /** A measurement every 61 ms while the lamp is on.  A failed one repeats the last distance for up to
        300 ms and then resets the level; measure is what the sensor would report now. */
    method UpdateUltrasonic1ms(measure: Option<nat>)
      requires Valid()
      modifies `distanceCm, `distanceValid, `measureTimerMs, `validHoldTimerMs, `level, `distances
      ensures Valid() && State() == Ticked(old(State()), measure)
      ensures old(Due()) ==>
                && measureTimerMs == 0
                && (measure.Some? ==>
                      && distances == old(distances) + [measure.value] && validHoldTimerMs == VALID_HOLD_MS
                      && distanceCm == measure.value && distanceValid)
                && (measure.None? && old(validHoldTimerMs) <= 1 ==>
                      distances == [] && !distanceValid && distanceCm == NO_OBJECT_CM)
                && (measure.None? && old(validHoldTimerMs) > 1 ==>
                      && distanceCm == old(distanceCm) && distanceValid == old(distanceValid)
                      && distances == if distanceValid then old(distances) + [distanceCm] else [])
      ensures lampOn && old(measureTimerMs) < MEASURE_PERIOD_MS ==>
                measureTimerMs == old(measureTimerMs) + 1 && distances == old(distances)
    {
      LevelIsSmall();
      hide LevelAfter, ComputeLevel;
      if !lampOn {
        Reset();
        return;
      }
      if validHoldTimerMs > 0 {
        validHoldTimerMs := validHoldTimerMs - 1;
      }
      if measureTimerMs < MEASURE_PERIOD_MS {
        measureTimerMs := measureTimerMs + 1;
        return;
      }
      measureTimerMs := 0;
      if measure.Some? {
        distanceCm, distanceValid, validHoldTimerMs := measure.value, true, VALID_HOLD_MS;
      } else if validHoldTimerMs == 0 {
        distanceCm, distanceValid := NO_OBJECT_CM, false;
      }
      OneMoreDistance(distances, distanceCm);
      distances := if distanceValid then distances + [distanceCm] else [];
      level := if distanceValid then ComputeLevel(level, distanceCm) else 0;
    }

    /** The DTC check measures too.  It replaces the distance without computing a level from it. */
    method RunUltrasonicDiagnosticRoutine(measure: Option<nat>) returns (ok: bool, distanceMm: nat)
      requires Valid()
      modifies `distanceCm, `distanceValid
      ensures Valid() && ok == measure.Some? && distanceValid == ok && State() == Diagnosed(old(State()), measure)
      ensures distanceMm == Millimetres(measure)
      ensures ok && measure.value <= NO_OBJECT_CM ==> distanceMm == 10 * distanceCm
      ensures !ok ==> distanceMm == 0xFFFF && distanceCm == NO_OBJECT_CM
    {
      if measure.None? {
        distanceCm, distanceValid := NO_OBJECT_CM, false;
        return false, 0xFFFF;
      }
      distanceCm, distanceValid := measure.value, true;
      return true, if measure.value * 10 > 0xFFFF then 0xFFFF else measure.value * 10;
    }
  }
}
