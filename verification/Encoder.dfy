/**
 Wheel encoder of the ACT ECU (ACT/Encoder.c).

 The A-phase line is an arbitrary function from microseconds to levels.  The
 driver only sees the line at the instants at which it is polled; the lemmas
 below say when that is enough to count every edge.
 */
module EncoderDriver {

  const SPEED_WINDOW_MS := 100
  const POLL_STEP_US := 50

  /** The line changes level between microsecond t - 1 and microsecond t. */
  ghost predicate Edge(line: nat -> bool, t: nat) {
    t > 0 && line(t) != line(t - 1)
  }

  /** Any two edges are more than one poll step apart. */
  ghost predicate Spaced(line: nat -> bool) {
    forall s: nat, t: nat :: Edge(line, s) && Edge(line, t) && s < t ==> t - s > POLL_STEP_US
  }

  /** Number of rising (up) or falling (!up) edges at instants lo + 1 .. hi. */
  ghost function Edges(line: nat -> bool, lo: nat, hi: nat, up: bool): (n: nat)
    requires lo <= hi
    decreases hi - lo
  {
    if lo == hi then 0
    else Edges(line, lo, hi - 1, up) + if Edge(line, hi) && line(hi) == up then 1 else 0
  }

  ghost function Transitions(line: nat -> bool, lo: nat, hi: nat): nat
    requires lo <= hi
  {
    Edges(line, lo, hi, true) + Edges(line, lo, hi, false)
  }

  lemma {:induction false} EdgesSplit(line: nat -> bool, lo: nat, mid: nat, hi: nat, up: bool)
    requires lo <= mid <= hi
    ensures Edges(line, lo, hi, up) == Edges(line, lo, mid, up) + Edges(line, mid, hi, up)
    decreases hi - mid
  {
    if mid < hi {
      EdgesSplit(line, lo, mid, hi - 1, up);
    }
  }

  lemma {:induction false} QuietLine(line: nat -> bool, lo: nat, hi: nat)
    requires lo <= hi
    requires forall t: nat :: lo < t <= hi ==> !Edge(line, t)
    ensures line(lo) == line(hi) && Transitions(line, lo, hi) == 0
    decreases hi - lo
  {
    if lo < hi {
      assert !Edge(line, hi);
      QuietLine(line, lo, hi - 1);
    }
  }

  /** Two samples at most one poll step apart see every edge of a spaced line:
      comparing the two levels gives the number and the direction of the edges between them. */
  lemma {:induction false} TwoSamplesSuffice(line: nat -> bool, p: nat, q: nat)
    requires Spaced(line) && p <= q <= p + POLL_STEP_US
    ensures Edges(line, p, q, true) == if !line(p) && line(q) then 1 else 0
    ensures Edges(line, p, q, false) == if line(p) && !line(q) then 1 else 0
    decreases q - p
  {
    if p < q {
      if Edge(line, q) {
        forall t: nat | p < t <= q - 1
          ensures !Edge(line, t)
        {
          assert Edge(line, t) ==> q - t > POLL_STEP_US;
        }
        QuietLine(line, p, q - 1);
      } else {
        TwoSamplesSuffice(line, p, q - 1);
      }
    }
  }

  /** A poll that is not late brings the count of one kind of edge up to date. */
  lemma PollSeesAll(line: nat -> bool, since: nat, before: nat, now: nat, up: bool)
    requires Spaced(line) && since <= before <= now <= before + POLL_STEP_US
    ensures Edges(line, since, now, up)
            == Edges(line, since, before, up) + if line(now) == up && line(before) != up then 1 else 0
  {
    TwoSamplesSuffice(line, before, now);
    EdgesSplit(line, since, before, now, up);
  }

  /** For any line and any two samples: the level comparison accounts for the edges in between
      exactly when there is at most one of them; otherwise edges are lost in pairs. */
  lemma {:induction false} SampleIsExactIff(line: nat -> bool, p: nat, q: nat)
    requires p <= q
    ensures (Transitions(line, p, q) == if line(p) != line(q) then 1 else 0) <==> Transitions(line, p, q) <= 1
    ensures Transitions(line, p, q) % 2 == if line(p) != line(q) then 1 else 0
    decreases q - p
  {
    if p < q {
      SampleIsExactIff(line, p, q - 1);
      var before := Transitions(line, p, q - 1);
      assert Transitions(line, p, q) == before + if Edge(line, q) then 1 else 0;
      assert (before + 1) % 2 == 1 - before % 2;
    }
  }

  function Level(b: bool): int { if b then 1 else 0 }

  class Encoder {
    const line: nat -> bool

    var count: int
    var windowPulses: nat
    var risingEdges: nat
    var fallingEdges: nat
    var pulsesPerSecond: nat
    var elapsedMs: nat
    var lastA: bool

    // When the line was last sampled, when counting and the speed window restarted,
    // the longest time between two samples so far, and the number of 1 ms updates.
    ghost var polledAt: nat
    ghost var resetAt: nat
    ghost var windowAt: nat
    ghost var longestGap: nat
    ghost var updates: nat

    ghost predicate Valid()
      reads this
    {
      && lastA == line(polledAt)
      && resetAt <= windowAt <= polledAt
      && elapsedMs < SPEED_WINDOW_MS
      && risingEdges - fallingEdges == Level(line(polledAt)) - Level(line(windowAt))
      && windowPulses == (if risingEdges >= fallingEdges then risingEdges else fallingEdges)
      && (Spaced(line) && longestGap <= POLL_STEP_US ==>
            && count == Transitions(line, resetAt, polledAt)
            && risingEdges == Edges(line, windowAt, polledAt, true)
            && fallingEdges == Edges(line, windowAt, polledAt, false))
    }

    /** A pulse is two edges, counted once: the window count is half the edges, rounded up. */
    lemma WindowCountsPulses()
      requires Valid()
      ensures windowPulses == (risingEdges + fallingEdges + 1) / 2
      ensures Spaced(line) && longestGap <= POLL_STEP_US ==>
                windowPulses == (Transitions(line, windowAt, polledAt) + 1) / 2
    {
    }

    constructor (line: nat -> bool, now: nat)
      ensures Valid() && this.line == line
      ensures polledAt == resetAt == now && longestGap == 0
      ensures count == 0 && windowPulses == 0 && pulsesPerSecond == 0 && elapsedMs == 0 && updates == 0
    {
      this.line := line;
      count, windowPulses, risingEdges, fallingEdges := 0, 0, 0, 0;
      pulsesPerSecond, elapsedMs := 0, 0;
      lastA := line(now);
      polledAt, resetAt, windowAt, longestGap, updates := now, now, now, 0, 0;
    }

    /** Sample the line and count the edge, if any, since the previous sample. */
    method Poll(now: nat)
      requires Valid() && polledAt <= now
      modifies `count, `risingEdges, `fallingEdges, `windowPulses, `lastA, `polledAt, `longestGap
      ensures Valid() && polledAt == now
      ensures longestGap == if now - old(polledAt) > old(longestGap) then now - old(polledAt) else old(longestGap)
      ensures count == old(count) + if line(now) != line(old(polledAt)) then 1 else 0
      ensures risingEdges == old(risingEdges) + if line(now) && !line(old(polledAt)) then 1 else 0
      ensures fallingEdges == old(fallingEdges) + if !line(now) && line(old(polledAt)) then 1 else 0
    {
      ghost var gap := now - polledAt;
      if Spaced(line) && gap <= POLL_STEP_US {
        PollSeesAll(line, resetAt, polledAt, now, true);
        PollSeesAll(line, resetAt, polledAt, now, false);
        PollSeesAll(line, windowAt, polledAt, now, true);
        PollSeesAll(line, windowAt, polledAt, now, false);
      }
      CountEdge(now);
      longestGap := if gap > longestGap then gap else longestGap;
      polledAt := now;
    }

    /** Compare the line with its last level, and count. */
    method CountEdge(now: nat)
      modifies `count, `risingEdges, `fallingEdges, `windowPulses, `lastA
      ensures lastA == line(now)
      ensures count == old(count) + if line(now) != old(lastA) then 1 else 0
      ensures risingEdges == old(risingEdges) + if line(now) && !old(lastA) then 1 else 0
      ensures fallingEdges == old(fallingEdges) + if !line(now) && old(lastA) then 1 else 0
      ensures windowPulses == if risingEdges >= fallingEdges then risingEdges else fallingEdges
    {
      var nowA := line(now);
      if nowA != lastA {
        count := count + 1;
      }
      if !lastA && nowA {
        risingEdges := risingEdges + 1;
      } else if lastA && !nowA {
        fallingEdges := fallingEdges + 1;
      }
      windowPulses := if risingEdges >= fallingEdges then risingEdges else fallingEdges;
      lastA := nowA;
    }

    /** Every 100th call publishes the speed of the window that ends here. */
    method Update1ms(now: nat)
      requires Valid() && polledAt <= now
      modifies this
      ensures Valid() && polledAt == now && resetAt == old(resetAt)
      ensures updates == old(updates) + 1
      ensures longestGap == if now - old(polledAt) > old(longestGap) then now - old(polledAt) else old(longestGap)
      ensures count == old(count) + if line(now) != line(old(polledAt)) then 1 else 0
      ensures old(elapsedMs) + 1 < SPEED_WINDOW_MS ==>
                && elapsedMs == old(elapsedMs) + 1 && windowAt == old(windowAt)
                && pulsesPerSecond == old(pulsesPerSecond)
      ensures old(elapsedMs) + 1 == SPEED_WINDOW_MS ==>
                && elapsedMs == 0 && windowAt == now && windowPulses == 0
                && (Spaced(line) && longestGap <= POLL_STEP_US ==>
                      pulsesPerSecond == (Transitions(line, old(windowAt), now) + 1) / 2 * 10)
    {
      Poll(now);
      WindowCountsPulses();
      elapsedMs := elapsedMs + 1;
      updates := updates + 1;
      if elapsedMs >= SPEED_WINDOW_MS {
        CloseWindow();
      }
    }

    /** Publish the speed of the window that ends here, and start the next one. */
    method CloseWindow()
      requires elapsedMs == SPEED_WINDOW_MS
      modifies `pulsesPerSecond, `windowPulses, `risingEdges, `fallingEdges, `elapsedMs, `windowAt
      ensures pulsesPerSecond == old(windowPulses) * 10 && windowAt == polledAt
      ensures windowPulses == risingEdges == fallingEdges == elapsedMs == 0
    {
      pulsesPerSecond := windowPulses * 1000 / elapsedMs;
      assert pulsesPerSecond == windowPulses * 10;
      windowPulses, risingEdges, fallingEdges, elapsedMs := 0, 0, 0, 0;
      windowAt := polledAt;
    }

    /** Restart counting; the remembered level is kept, so no edge is invented. */
    method ResetCount()
      requires Valid()
      modifies `count, `windowPulses, `risingEdges, `fallingEdges, `pulsesPerSecond, `elapsedMs, `resetAt, `windowAt
      ensures Valid() && resetAt == windowAt == polledAt
      ensures count == 0 && windowPulses == 0 && risingEdges == fallingEdges == 0
      ensures pulsesPerSecond == 0 && elapsedMs == 0
    {
      count, windowPulses, risingEdges, fallingEdges := 0, 0, 0, 0;
      pulsesPerSecond, elapsedMs := 0, 0;
      resetAt, windowAt := polledAt, polledAt;
    }
  }
}
