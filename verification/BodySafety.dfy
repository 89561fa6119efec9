/**
 When a lamp of the BODY ECU may be lit, over the whole record of a run.
 */
module BodySafety {
  import opened BodyBlink
  import opened BodyCpu
  import opened BodyDiag
  import opened BodyLamps
  import opened BodyRx
  import opened BodyUds
  import opened Bytes
  import opened Sequences
  import opened SingleFrame
  import opened UdsSlot

  /** The lit lamps are among those that the command asks for. */
  predicate Permitted(l: Lights, c: Command) {
    && (l.head ==> c.headlamp == ON) && (l.brake ==> c.brake == ON)
    && (l.left ==> LeftOn(c.turn as int)) && (l.right ==> RightOn(c.turn as int))
  }

  /** The command was accepted fewer than 200 calls before, in remote mode, and asks for what is lit. */
  predicate ByCommand(s: Sample, a: Accepted) {
    a.calls < s.calls < a.calls + TIMEOUT_MS && a.cmd.mode == MODE_REMOTE && Permitted(s.lights, a.cmd)
  }

  /** The call that was made last took a request for the lamp test. */
  predicate LampTest(log: seq<Option<Received>>, calls: nat) {
    0 < calls <= |log| && EffectIn(log[calls - 1]) == LightLamps
  }

  /** Why a lamp may be lit at microsecond t: the self-test of the first second, the first second of a call
      that took a request for the lamp test, or a command. */
  ghost predicate Licensed(trace: seq<Sample>, t: nat, accepted: seq<Accepted>, log: seq<Option<Received>>)
    requires t < |trace|
  {
    || (trace[t].calls == 0 && t < TEST_US)
    || (LampTest(log, trace[t].calls) && (t < TEST_US || trace[t - TEST_US].calls < trace[t].calls))
    || exists a :: a in accepted && ByCommand(trace[t], a)
  }

  /** Every microsecond with a lit lamp is licensed. */
  ghost predicate Safe(trace: seq<Sample>, accepted: seq<Accepted>, log: seq<Option<Received>>) {
    forall t :: 0 <= t < |trace| && trace[t].lights != AllDark ==> Licensed(trace, t, accepted, log)
  }

  /** No sample is from a later call than this. */
  predicate UpTo(trace: seq<Sample>, calls: nat) { forall t :: 0 <= t < |trace| ==> trace[t].calls <= calls }

  lemma LicensedLater(trace: seq<Sample>, more: seq<Sample>, t: nat, accepted: seq<Accepted>, log: seq<Option<Received>>,
                      accepted': seq<Accepted>, log': seq<Option<Received>>)
    requires t < |trace| && Licensed(trace, t, accepted, log) && accepted <= accepted' && log <= log'
    ensures Licensed(trace + more, t, accepted', log')
  {
    if a :| a in accepted && ByCommand(trace[t], a) {
      assert a in accepted';
    }
  }

  /** What arrives later takes no licence away. */
  lemma SafeLater(trace: seq<Sample>, accepted: seq<Accepted>, log: seq<Option<Received>>,
                  accepted': seq<Accepted>, log': seq<Option<Received>>)
    requires Safe(trace, accepted, log) && accepted <= accepted' && log <= log'
    ensures Safe(trace, accepted', log')
  {
    forall t | 0 <= t < |trace| && trace[t].lights != AllDark
      ensures Licensed(trace, t, accepted', log')
    {
      LicensedLater(trace, [], t, accepted, log, accepted', log');
      assert trace + [] == trace;
    }
  }

  /** A stretch of waiting keeps the record safe if the lamps it shows are licensed. */
  lemma HoldIsSafe(trace: seq<Sample>, s: Sample, us: nat, accepted: seq<Accepted>, log: seq<Option<Received>>,
                   accepted': seq<Accepted>, log': seq<Option<Received>>)
    requires Safe(trace, accepted, log) && accepted <= accepted' && log <= log'
    requires s.lights != AllDark ==> Shining(trace, s, us, accepted', log')
    ensures Safe(trace + Held(s, us), accepted', log')
  {
    var now := trace + Held(s, us);
    forall t | 0 <= t < |now| && now[t].lights != AllDark
      ensures Licensed(now, t, accepted', log')
    {
      if t < |trace| {
        LicensedLater(trace, Held(s, us), t, accepted, log, accepted', log');
      }
    }
  }

  /** What lets the lamps of s shine for so long after this record. */
  ghost predicate Shining(trace: seq<Sample>, s: Sample, us: nat, accepted: seq<Accepted>, log: seq<Option<Received>>) {
    || (s.calls == 0 && |trace| + us <= TEST_US)
    || (LampTest(log, s.calls) && us <= TEST_US && forall t :: 0 <= t < |trace| ==> trace[t].calls < s.calls)
    || exists a :: a in accepted && ByCommand(s, a)
  }

  /** The frame that the call numbered p took was received since the call before. */
  predicate RequestsOnTime(log: seq<Option<Received>>, received: seq<Received>) {
    forall p :: 0 <= p < |log| && log[p].Some? ==> log[p].value in received && p <= log[p].value.time <= p + 1
  }

  lemma RequestsLater(log: seq<Option<Received>>, received: seq<Received>, entry: Option<Received>, later: seq<Received>)
    requires RequestsOnTime(log, received) && received <= later
    requires entry.Some? ==> entry.value in later && |log| <= entry.value.time <= |log| + 1
    ensures RequestsOnTime(log + [entry], later)
  {
  }

  /** This frame makes the lamps shine, in every session and without any command. */
  lemma LampTestFrame()
    ensures EffectIn(Some(Received([0x04, 0x31, 0x01, 0x02, 0x01, 0x00, 0x00, 0x00], 0))) == LightLamps
  {
    var data: seq<byte> := [0x04, 0x31, 0x01, 0x02, 0x01, 0x00, 0x00, 0x00];
    assert ParseRequest(data).value == [0x31, 0x01, 0x02, 0x01];
  }
}
