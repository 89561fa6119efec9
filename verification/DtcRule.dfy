/**
 The exact rule by which ACT stores a trouble code (ACT/UdsDiag.c), for any pattern of the
 fault and any requests to clear: three consecutive evaluations have failed, each because the
 fault was present in as many calls before it as the threshold, and no clear has come since.
 */
module DtcRule {
  import opened DtcLatency
  import opened DtcMonitor

  /** One call: whether the codes are cleared in it, and whether the fault is then present. */
  datatype Input = Input(active: bool, clears: bool)

  const Fresh := Monitor(0, 0, 0, 0)

  /** The monitor after these calls since power-on. */
  function RunOn(inputs: seq<Input>, threshold: nat): Monitor {
    if inputs == [] then Fresh
    else
      var last := inputs[|inputs| - 1];
      var before := RunOn(inputs[..|inputs| - 1], threshold);
      Tick(if last.clears then Cleared(before) else before, last.active, threshold)
  }

  /** The call at index e ends a period. */
  predicate Evaluates(e: int) { e >= 0 && (e + 1) % MONITOR_PERIOD_MS == 0 }

  /** The fault was present in the last n calls up to index e. */
  predicate ActiveBefore(inputs: seq<Input>, n: nat, e: int) {
    n <= e + 1 <= |inputs| && forall k :: e - n < k <= e ==> inputs[k].active
  }

  predicate FailsAt(inputs: seq<Input>, threshold: nat, e: int) {
    Evaluates(e) && ActiveBefore(inputs, threshold, e)
  }

  predicate NoClearAfter(inputs: seq<Input>, e: int) {
    forall j :: 0 <= j < |inputs| && j > e ==> !inputs[j].clears
  }

  predicate ThreeFail(inputs: seq<Input>, threshold: nat, e: int) {
    && FailsAt(inputs, threshold, e) && FailsAt(inputs, threshold, e + MONITOR_PERIOD_MS)
    && FailsAt(inputs, threshold, e + 2 * MONITOR_PERIOD_MS)
  }

  /** The rule. */
  ghost predicate StoredBy(inputs: seq<Input>, threshold: nat) {
    exists e :: ThreeFail(inputs, threshold, e) && NoClearAfter(inputs, e)
  }

  function TrailingActive(inputs: seq<Input>): (n: nat)
    ensures n <= |inputs|
  {
    if inputs == [] || !inputs[|inputs| - 1].active then 0 else 1 + TrailingActive(inputs[..|inputs| - 1])
  }

  lemma {:induction false} TrailingIsWindow(inputs: seq<Input>, n: nat)
    ensures TrailingActive(inputs) >= n <==> ActiveBefore(inputs, n, |inputs| - 1)
  {
    if n > 0 && inputs != [] {
      var before := inputs[..|inputs| - 1];
      TrailingIsWindow(before, n - 1);
      if ActiveBefore(inputs, n, |inputs| - 1) {
        assert inputs[|inputs| - 1].active;
        assert forall k :: |before| - 1 - (n - 1) < k <= |before| - 1 ==> before[k] == inputs[k];
      }
    }
  }

  /** Consecutive failing evaluations at the end, not counting those before the last clear. */
  function FailRun(inputs: seq<Input>, threshold: nat): nat {
    if inputs == [] then 0
    else
      var last := |inputs| - 1;
      var before := if inputs[last].clears then 0 else FailRun(inputs[..last], threshold);
      if !Evaluates(last) then before else if FailsAt(inputs, threshold, last) then before + 1 else 0
  }

  /** Index of the last evaluation among n calls; negative if there was none. */
  function LastEvaluation(n: nat): int { n / MONITOR_PERIOD_MS * MONITOR_PERIOD_MS - 1 }

  /** The evaluation at e and the k - 1 before it fail. */
  predicate Fails(inputs: seq<Input>, threshold: nat, e: int, k: nat) {
    forall i :: 0 <= i < k ==> FailsAt(inputs, threshold, e - MONITOR_PERIOD_MS * i)
  }

  /** The last k evaluations have failed, and no clear has come since the first of them. */
  predicate LastFail(inputs: seq<Input>, threshold: nat, k: nat) {
    var e := LastEvaluation(|inputs|);
    Fails(inputs, threshold, e, k) && NoClearAfter(inputs, e - MONITOR_PERIOD_MS * (k - 1))
  }

  lemma EarlierFails(inputs: seq<Input>, threshold: nat, e: int)
    requires inputs != [] && e < |inputs| - 1
    ensures FailsAt(inputs, threshold, e) <==> FailsAt(inputs[..|inputs| - 1], threshold, e)
  {
    var before := inputs[..|inputs| - 1];
    assert forall k :: 0 <= k <= e ==> before[k] == inputs[k];
  }

  lemma NoClearStep(inputs: seq<Input>, e: int)
    requires inputs != [] && e < |inputs| - 1
    ensures NoClearAfter(inputs, e) <==> NoClearAfter(inputs[..|inputs| - 1], e) && !inputs[|inputs| - 1].clears
  {
    var before := inputs[..|inputs| - 1];
    assert forall j :: 0 <= j < |before| ==> before[j] == inputs[j];
  }

  lemma NextEvaluation(n: nat)
    ensures Evaluates(n) ==> LastEvaluation(n + 1) == n && LastEvaluation(n) == n - MONITOR_PERIOD_MS
    ensures !Evaluates(n) ==> LastEvaluation(n + 1) == LastEvaluation(n)
    ensures LastEvaluation(n) < n && (LastEvaluation(n) >= 0 ==> Evaluates(LastEvaluation(n)))
  {
  }

  lemma EarlierRow(inputs: seq<Input>, threshold: nat, e: int, k: nat)
    requires inputs != [] && e < |inputs| - 1
    ensures Fails(inputs, threshold, e, k) <==> Fails(inputs[..|inputs| - 1], threshold, e, k)
  {
    forall i | 0 <= i < k
      ensures FailsAt(inputs, threshold, e - MONITOR_PERIOD_MS * i)
              <==> FailsAt(inputs[..|inputs| - 1], threshold, e - MONITOR_PERIOD_MS * i)
    {
      EarlierFails(inputs, threshold, e - MONITOR_PERIOD_MS * i);
    }
  }

  /** A row of failing evaluations is the last one and the row before it. */
  lemma RowSplits(inputs: seq<Input>, threshold: nat, e: int, k: nat)
    requires k > 0
    ensures Fails(inputs, threshold, e, k)
            <==> FailsAt(inputs, threshold, e) && Fails(inputs, threshold, e - MONITOR_PERIOD_MS, k - 1)
  {
    if Fails(inputs, threshold, e, k) {
      assert FailsAt(inputs, threshold, e - MONITOR_PERIOD_MS * 0);
      forall i | 0 <= i < k - 1
        ensures FailsAt(inputs, threshold, e - MONITOR_PERIOD_MS - MONITOR_PERIOD_MS * i)
      {
        assert FailsAt(inputs, threshold, e - MONITOR_PERIOD_MS * (i + 1));
      }
    }
    if FailsAt(inputs, threshold, e) && Fails(inputs, threshold, e - MONITOR_PERIOD_MS, k - 1) {
      forall i | 0 <= i < k
        ensures FailsAt(inputs, threshold, e - MONITOR_PERIOD_MS * i)
      {
        if i > 0 {
          assert FailsAt(inputs, threshold, e - MONITOR_PERIOD_MS - MONITOR_PERIOD_MS * (i - 1));
        }
      }
    }
  }

  /** The run of failing evaluations is at least k iff the last k have failed. */
  lemma {:induction false} FailRunMeans(inputs: seq<Input>, threshold: nat, k: nat)
    requires k > 0
    ensures FailRun(inputs, threshold) >= k <==> LastFail(inputs, threshold, k)
    decreases |inputs|, 1
  {
    if inputs == [] {
      RowSplits(inputs, threshold, LastEvaluation(0), k);
    } else if Evaluates(|inputs| - 1) {
      FailRunAtEvaluation(inputs, threshold, k);
    } else {
      FailRunBetween(inputs, threshold, k);
    }
  }

  lemma {:induction false} FailRunBetween(inputs: seq<Input>, threshold: nat, k: nat)
    requires k > 0 && inputs != [] && !Evaluates(|inputs| - 1)
    ensures FailRun(inputs, threshold) >= k <==> LastFail(inputs, threshold, k)
    decreases |inputs|, 0
  {
    var before := inputs[..|inputs| - 1];
    var e := LastEvaluation(|before|);
    NextEvaluation(|before|);
    FailRunMeans(before, threshold, k);
    EarlierRow(inputs, threshold, e, k);
    NoClearStep(inputs, e - MONITOR_PERIOD_MS * (k - 1));
  }

  lemma {:induction false} FailRunAtEvaluation(inputs: seq<Input>, threshold: nat, k: nat)
    requires k > 0 && inputs != [] && Evaluates(|inputs| - 1)
    ensures FailRun(inputs, threshold) >= k <==> LastFail(inputs, threshold, k)
    decreases |inputs|, 0
  {
    hide FailsAt, LastEvaluation;
    var before := inputs[..|inputs| - 1];
    var e := |inputs| - 1;
    NextEvaluation(|before|);
    RowSplits(inputs, threshold, e, k);
    if k > 1 {
      FailRunMeans(before, threshold, k - 1);
      EarlierRow(inputs, threshold, e - MONITOR_PERIOD_MS, k - 1);
      NoClearStep(inputs, e - MONITOR_PERIOD_MS * (k - 1));
    }
  }

  /** One more call stores the code, keeps it stored, or clears it. */
  lemma StoredStep(inputs: seq<Input>, threshold: nat)
    requires inputs != []
    ensures var last, before := |inputs| - 1, inputs[..|inputs| - 1];
            StoredBy(inputs, threshold)
            <==> (StoredBy(before, threshold) && !inputs[last].clears)
                 || (Evaluates(last) && FailRun(inputs, threshold) >= CONFIRM_FAIL_COUNT)
  {
    var last, before := |inputs| - 1, inputs[..|inputs| - 1];
    NextEvaluation(last);
    FailRunMeans(inputs, threshold, CONFIRM_FAIL_COUNT);
    if StoredBy(inputs, threshold) {
      var e :| ThreeFail(inputs, threshold, e) && NoClearAfter(inputs, e);
      StoredStepBack(inputs, threshold, e);
    }
    if StoredBy(before, threshold) && !inputs[last].clears {
      var e :| ThreeFail(before, threshold, e) && NoClearAfter(before, e);
      EarlierThree(inputs, threshold, e);
      NoClearStep(inputs, e);
    }
    if Evaluates(last) && FailRun(inputs, threshold) >= CONFIRM_FAIL_COUNT {
      ThreeInARow(inputs, threshold, last);
    }
  }

  lemma ThreeInARow(inputs: seq<Input>, threshold: nat, e: int)
    ensures Fails(inputs, threshold, e, CONFIRM_FAIL_COUNT) <==> ThreeFail(inputs, threshold, e - 2 * MONITOR_PERIOD_MS)
  {
    RowSplits(inputs, threshold, e, 3);
    RowSplits(inputs, threshold, e - MONITOR_PERIOD_MS, 2);
    RowSplits(inputs, threshold, e - 2 * MONITOR_PERIOD_MS, 1);
  }

  lemma EarlierThree(inputs: seq<Input>, threshold: nat, e: int)
    requires inputs != [] && e + 2 * MONITOR_PERIOD_MS < |inputs| - 1
    ensures ThreeFail(inputs, threshold, e) <==> ThreeFail(inputs[..|inputs| - 1], threshold, e)
  {
    EarlierFails(inputs, threshold, e);
    EarlierFails(inputs, threshold, e + MONITOR_PERIOD_MS);
    EarlierFails(inputs, threshold, e + 2 * MONITOR_PERIOD_MS);
  }

  lemma StoredStepBack(inputs: seq<Input>, threshold: nat, e: int)
    requires inputs != [] && ThreeFail(inputs, threshold, e) && NoClearAfter(inputs, e)
    ensures var last, before := |inputs| - 1, inputs[..|inputs| - 1];
            (StoredBy(before, threshold) && !inputs[last].clears)
            || (Evaluates(last) && LastFail(inputs, threshold, CONFIRM_FAIL_COUNT))
  {
    var last, before := |inputs| - 1, inputs[..|inputs| - 1];
    NextEvaluation(last);
    if e + 2 * MONITOR_PERIOD_MS < last {
      EarlierThree(inputs, threshold, e);
      NoClearStep(inputs, e);
      assert StoredBy(before, threshold);
    } else {
      ThreeInARow(inputs, threshold, last);
    }
  }

  /** The monitor's variables say what the rule says. */
  ghost predicate Matches(m: Monitor, inputs: seq<Input>, threshold: nat) {
    && m.faultMs == Saturate(TrailingActive(inputs), threshold)
    && m.periodMs == |inputs| % MONITOR_PERIOD_MS
    && m.failCount == Saturate(FailRun(inputs, threshold), CONFIRM_FAIL_COUNT)
    && (Stored(m.status) <==> StoredBy(inputs, threshold))
  }

  /** For any pattern of the fault and of clears. */
  lemma {:induction false} MonitorIsRule(inputs: seq<Input>, threshold: nat)
    requires 0 < threshold < MONITOR_PERIOD_MS
    ensures Matches(RunOn(inputs, threshold), inputs, threshold)
  {
    if inputs == [] {
      assert !StoredBy(inputs, threshold);
    } else {
      var last := |inputs| - 1;
      MonitorIsRule(inputs[..last], threshold);
      TickByRule(RunOn(inputs[..last], threshold), inputs[last], threshold);
      RuleStep(RunOn(inputs[..last], threshold), RunOn(inputs, threshold), inputs, threshold);
    }
  }

  lemma RuleStep(m: Monitor, t: Monitor, inputs: seq<Input>, threshold: nat)
    requires 0 < threshold < MONITOR_PERIOD_MS && inputs != []
    requires Matches(m, inputs[..|inputs| - 1], threshold) && Follows(m, inputs[|inputs| - 1], t, threshold)
    ensures Matches(t, inputs, threshold)
  {
    StoredStep(inputs, threshold);
    FailRunStep(inputs, threshold);
  }

  /** The run of failing evaluations, told from the length of the fault. */
  lemma FailRunStep(inputs: seq<Input>, threshold: nat)
    requires inputs != []
    ensures var last := |inputs| - 1;
            var before := if inputs[last].clears then 0 else FailRun(inputs[..last], threshold);
            FailRun(inputs, threshold)
            == if !Evaluates(last) then before else if TrailingActive(inputs) >= threshold then before + 1 else 0
  {
    TrailingIsWindow(inputs, threshold);
  }

  /** One call, in terms of what it sees. */
  predicate Follows(m: Monitor, input: Input, t: Monitor, threshold: nat) {
    var count := if input.clears then 0 else m.failCount;
    var stored := Stored(m.status) && !input.clears;
    && t.faultMs == (if input.active then Saturate(m.faultMs + 1, threshold) else 0)
    && t.periodMs == (m.periodMs + 1) % MONITOR_PERIOD_MS
    && (m.periodMs + 1 < MONITOR_PERIOD_MS ==> t.failCount == count && (Stored(t.status) <==> stored))
    && (m.periodMs + 1 == MONITOR_PERIOD_MS ==>
          && t.failCount == (if t.faultMs >= threshold then Saturate(count + 1, CONFIRM_FAIL_COUNT) else 0)
          && (Stored(t.status) <==> stored || (t.faultMs >= threshold && count + 1 >= CONFIRM_FAIL_COUNT)))
  }

  lemma TickByRule(m: Monitor, input: Input, threshold: nat)
    requires m.periodMs < MONITOR_PERIOD_MS && m.faultMs <= threshold && m.failCount <= CONFIRM_FAIL_COUNT
    ensures Follows(m, input, Tick(if input.clears then Cleared(m) else m, input.active, threshold), threshold)
  {
    ClearedIsNotStored(m);
    var n := if input.clears then Cleared(m) else m;
    var t := Tick(n, input.active, threshold);
    EvaluateStored(n.status, n.failCount, t.faultMs >= threshold);
  }

  lemma ClearedIsNotStored(m: Monitor)
    ensures !Stored(Cleared(m).status)
  {
  }

  /** The variables of one trouble code: fault timer, fail counter and status byte.  Ghost fields remember
      every call, every evaluation, and whether a clear is not yet followed by a call. */
  class FaultMonitor {
    const threshold: nat

    var faultMs: nat
    var failCount: nat
    var status: bv8
    ghost var history: seq<Event>
    ghost var inputs: seq<Input>
    ghost var cleared: bool

    ghost predicate Valid()
      reads this
    {
      && 0 < threshold < MONITOR_PERIOD_MS
      && Reflects(status, failCount, history, CONFIRM_FAIL_COUNT, true)
      && View(|inputs| % MONITOR_PERIOD_MS) == Shown()
    }

    /** What the calls so far, and a clear after them, lead to. */
    ghost function Shown(): Monitor
      reads this
    {
      if cleared then Cleared(RunOn(inputs, threshold)) else RunOn(inputs, threshold)
    }

    constructor (threshold: nat)
      requires 0 < threshold < MONITOR_PERIOD_MS
      ensures Valid() && this.threshold == threshold && faultMs == failCount == 0 && status == 0
      ensures history == [] && inputs == [] && !cleared
    {
      this.threshold := threshold;
      faultMs, failCount, status, history := 0, 0, 0, [];
      inputs, cleared := [], false;
      new;
      EmptyHistory(true, CONFIRM_FAIL_COUNT);
    }

    /** The monitor as a value, given the period timer both codes share. */
    function View(periodMs: nat): Monitor
      reads this
    {
      Monitor(faultMs, periodMs, failCount, status)
    }

    /** The code is stored exactly by the rule. */
    lemma StoredExactly()
      requires Valid()
      ensures Stored(status) <==> !cleared && StoredBy(inputs, threshold)
    {
      MonitorIsRule(inputs, threshold);
      ClearedIsNotStored(RunOn(inputs, threshold));
    }

    /** One 1 ms observation; evaluate tells that the shared period ends with it. */
    method Observe(active: bool, evaluate: bool)
      requires Valid() && (evaluate <==> Evaluates(|inputs|))
      modifies this
      ensures Valid() && !cleared && inputs == old(inputs) + [Input(active, old(cleared))]
      ensures history == old(history) + if evaluate then [if faultMs >= threshold then Fail else Pass] else []
    {
      ghost var n := |inputs|;
      OneMoreInput(inputs, Input(active, cleared), threshold);
      PeriodStep(n);
      CountAndEvaluate(active, evaluate, n % MONITOR_PERIOD_MS);
      inputs, cleared := inputs + [Input(active, cleared)], false;
    }

    method CountAndEvaluate(active: bool, evaluate: bool, ghost periodMs: nat)
      requires Reflects(status, failCount, history, CONFIRM_FAIL_COUNT, true)
      requires evaluate <==> periodMs + 1 >= MONITOR_PERIOD_MS
      modifies `faultMs, `failCount, `status, `history
      ensures Reflects(status, failCount, history, CONFIRM_FAIL_COUNT, true)
      ensures View(if evaluate then 0 else periodMs + 1) == Tick(old(View(periodMs)), active, threshold)
      ensures history == old(history) + if evaluate then [if faultMs >= threshold then Fail else Pass] else []
    {
      if active {
        if faultMs < threshold {
          faultMs := faultMs + 1;
        }
      } else {
        faultMs := 0;
      }
      if evaluate {
        status, failCount := UpdateOneDtcStatus(status, failCount, faultMs >= threshold, history);
        history := history + [if faultMs >= threshold then Fail else Pass];
      }
    }

    method ClearStored()
      requires Valid()
      modifies `status, `failCount, `history, `cleared
      ensures Valid() && cleared && history == old(history) + [Clear]
      ensures status == old(status) & !HISTORY_BIT && failCount == 0
    {
      ClearedTwice(RunOn(inputs, threshold));
      status, failCount := ClearHistory(status, failCount, history);
      history, cleared := history + [Clear], true;
    }
  }

  lemma OneMoreInput(inputs: seq<Input>, input: Input, threshold: nat)
    ensures var m := RunOn(inputs, threshold);
            RunOn(inputs + [input], threshold) == Tick(if input.clears then Cleared(m) else m, input.active, threshold)
  {
    assert (inputs + [input])[..|inputs|] == inputs;
  }

  lemma PeriodStep(n: nat)
    ensures Evaluates(n) <==> n % MONITOR_PERIOD_MS + 1 >= MONITOR_PERIOD_MS
    ensures (n + 1) % MONITOR_PERIOD_MS == if Evaluates(n) then 0 else n % MONITOR_PERIOD_MS + 1
  {
  }

  lemma ClearedTwice(m: Monitor)
    ensures Cleared(Cleared(m)) == Cleared(m)
  {
  }
}
