/**
 Collision button of the BODY ECU (BODY/BodyControl.c).  The debouncer is a counter
 machine; over the history of samples it is a rule about the last 22 of them.
 */
module BodyButton {

  const DEBOUNCE_MS := 20
  const WINDOW := 22

  /** The last n samples all read v. */
  predicate EndsWith(h: seq<bool>, n: nat, v: bool) {
    n <= |h| && forall i :: |h| - n <= i < |h| ==> h[i] == v
  }

  /** Debounced level: the first sample decides, then 22 equal samples in a row. */
  function Stable(h: seq<bool>): bool
    requires h != []
  {
    if |h| == 1 then h[0]
    else
      var before := Stable(h[..|h| - 1]);
      if EndsWith(h, WINDOW, !before) then !before else before
  }

  /** Sample k completes a press. */
  predicate PressAt(h: seq<bool>, k: nat)
    requires k < |h|
  {
    k > 0 && !Stable(h[..k]) && Stable(h[..k + 1])
  }

  function Presses(h: seq<bool>): nat
    requires h != []
  {
    if |h| == 1 then 0 else Presses(h[..|h| - 1]) + if PressAt(h, |h| - 1) then 1 else 0
  }

  /** Number of equal samples at the end. */
  function Run(h: seq<bool>): (n: nat)
    requires h != []
    ensures 1 <= n <= |h|
  {
    if |h| > 1 && h[|h| - 1] == h[|h| - 2] then 1 + Run(h[..|h| - 1]) else 1
  }

  /** The trailing run is at least n long iff the last n samples are equal. */
  lemma {:induction false} RunIsWindow(h: seq<bool>, n: nat)
    requires h != [] && n > 0
    ensures Run(h) >= n <==> EndsWith(h, n, h[|h| - 1])
  {
    var last := |h| - 1;
    if n > 1 && last > 0 {
      RunIsWindow(h[..last], n - 1);
      if EndsWith(h, n, h[last]) {
        assert h[last - 1] == h[last];
      }
    }
  }

  /** A change of level without 22 samples of the new level does not exist. */
  lemma {:induction false} LevelChangedIn(h: seq<bool>, i: nat, j: nat) returns (k: nat)
    requires 0 < i < j <= |h| && Stable(h[..i]) != Stable(h[..j])
    ensures i <= k < j && Stable(h[..k]) == Stable(h[..i]) && Stable(h[..k + 1]) == Stable(h[..j])
    ensures EndsWith(h[..k + 1], WINDOW, Stable(h[..j]))
    decreases j - i
  {
    assert h[..j][..j - 1] == h[..j - 1];
    if Stable(h[..j - 1]) != Stable(h[..j]) {
      k := j - 1;
    } else {
      k := LevelChangedIn(h, i, j - 1);
    }
  }

  /** Two presses are separated by 22 consecutive released samples. */
  lemma PressesAreSeparated(h: seq<bool>, i: nat, j: nat) returns (k: nat)
    requires i < j < |h| && PressAt(h, i) && PressAt(h, j)
    ensures i < k && k + WINDOW <= j && forall m :: k <= m < k + WINDOW ==> !h[m]
  {
    var r := LevelChangedIn(h, i + 1, j);
    k := r + 1 - WINDOW;
    assert h[..r + 1][..r] == h[..r];
    forall m | k <= m < k + WINDOW
      ensures !h[m]
    {
      assert h[..r + 1][m] == h[m];
    }
    PressedSample(h, i);
    assert h[i] && k <= j;
  }

  /** At a press, this sample and the 21 before it read pressed. */
  lemma PressedSample(h: seq<bool>, i: nat)
    requires i < |h| && PressAt(h, i)
    ensures i + 1 >= WINDOW && forall m :: i + 1 - WINDOW <= m <= i ==> h[m]
  {
    assert h[..i + 1][..i] == h[..i];
    forall m | i + 1 - WINDOW <= m <= i
      ensures h[m]
    {
      assert h[..i + 1][m] == h[m];
    }
  }

  /** Later samples do not change earlier presses. */
  lemma PressAtEarlier(h: seq<bool>, raw: bool, k: nat)
    requires k < |h|
    ensures PressAt(h + [raw], k) == PressAt(h, k)
  {
    assert (h + [raw])[..k] == h[..k] && (h + [raw])[..k + 1] == h[..k + 1];
  }

  /** What one more sample changes. */
  lemma SampleStep(h: seq<bool>, raw: bool)
    requires h != []
    ensures var g := h + [raw];
            && Run(g) == (if raw == h[|h| - 1] then Run(h) + 1 else 1)
            && Stable(g) == (if Run(g) >= WINDOW then raw else Stable(h))
            && (PressAt(g, |h|) <==> !Stable(h) && Stable(g))
            && Presses(g) == Presses(h) + if PressAt(g, |h|) then 1 else 0
  {
    var g := h + [raw];
    assert g[..|h|] == h && g[..|g|] == g;
    RunIsWindow(g, WINDOW);
  }

  class CollisionButton {
    var lastRaw: bool
    var stable: bool
    var timerMs: nat
    var eventPending: bool
    var pressCount: nat
    ghost var samples: seq<bool>

    /** The counters say what the samples say. */
    ghost predicate Valid()
      reads this
    {
      && samples != [] && lastRaw == samples[|samples| - 1]
      && stable == Stable(samples)
      && timerMs == (if Run(samples) > DEBOUNCE_MS then DEBOUNCE_MS else Run(samples) - 1)
      && pressCount == Presses(samples)
    }

    constructor (raw: bool)
      ensures Valid() && samples == [raw] && !eventPending
    {
      lastRaw, stable, timerMs, eventPending, pressCount := raw, raw, 0, false, 0;
      samples := [raw];
    }

    /** One sample per millisecond.  An event is raised exactly when the sample completes a press. */
    method Update1ms(raw: bool)
      requires Valid()
      modifies this
      ensures Valid() && samples == old(samples) + [raw]
      ensures eventPending <==> old(eventPending) || PressAt(samples, |samples| - 1)
    {
      hide Stable, Run, Presses, PressAt;
      SampleStep(samples, raw);
      samples := samples + [raw];
      if raw != lastRaw {
        lastRaw := raw;
        timerMs := 0;
        return;
      }
      if timerMs < DEBOUNCE_MS {
        timerMs := timerMs + 1;
        return;
      }
      if raw != stable {
        stable := raw;
        if stable {
          eventPending := true;
          pressCount := pressCount + 1;
        }
      }
    }

    /** Each event is handed out once. */
    method ConsumePressedEvent() returns (pressed: bool)
      requires Valid()
      modifies `eventPending
      ensures Valid() && pressed == old(eventPending) && !eventPending
    {
      pressed := eventPending;
      eventPending := false;
    }
  }
}
