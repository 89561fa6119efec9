/**
 Trouble-code store of the media node (MEDIA/doip/dtc_store.py): one row per code, which
 summarises the episodes of that fault.
 */
module MediaDtcStore {
  import opened Bytes

  const TEST_FAILED: bv8 := 0x01
  const CONFIRMED: bv8 := 0x08

  datatype Op = SetActive(code: nat, at: real) | ClearActive(code: nat, at: real) | ClearAll

  datatype Row = Row(status: bv8, first: real, last: real, count: nat,
                     start: Option<real>, recovered: Option<real>, duration: Option<real>)

  /** The fault is present: it has been reported since it was last withdrawn or erased. */
  predicate Active(log: seq<Op>, code: nat) {
    log != [] &&
    match log[|log| - 1]
    case SetActive(c, _) => c == code || Active(log[..|log| - 1], code)
    case ClearActive(c, _) => c != code && Active(log[..|log| - 1], code)
    case ClearAll => false
  }

  /** Number of times the fault has appeared since the store was last erased. */
  function Episodes(log: seq<Op>, code: nat): nat {
    if log == [] then 0
    else
      var before := log[..|log| - 1];
      match log[|log| - 1]
      case SetActive(c, _) => Episodes(before, code) + if c == code && !Active(before, code) then 1 else 0
      case ClearActive(_, _) => Episodes(before, code)
      case ClearAll => 0
  }

  /** When the latest episode began. */
  function Began(log: seq<Op>, code: nat): real {
    if log == [] then 0.0
    else
      var before := log[..|log| - 1];
      match log[|log| - 1]
      case SetActive(c, at) => if c == code && !Active(before, code) then at else Began(before, code)
      case _ => Began(before, code)
  }

  /** When the latest finished episode ended. */
  function Ended(log: seq<Op>, code: nat): real {
    if log == [] then 0.0
    else
      var before := log[..|log| - 1];
      match log[|log| - 1]
      case ClearActive(c, at) => if c == code && Active(before, code) then at else Ended(before, code)
      case _ => Ended(before, code)
  }

  /** When the fault was last reported. */
  function LastReport(log: seq<Op>, code: nat): real {
    if log == [] then 0.0
    else
      match log[|log| - 1]
      case SetActive(c, at) => if c == code then at else LastReport(log[..|log| - 1], code)
      case _ => LastReport(log[..|log| - 1], code)
  }

  /** When the fault was first reported since the store was last erased. */
  function FirstReport(log: seq<Op>, code: nat): real {
    if log == [] then 0.0
    else
      var before := log[..|log| - 1];
      match log[|log| - 1]
      case SetActive(c, at) => if c == code && Episodes(before, code) == 0 then at else FirstReport(before, code)
      case _ => FirstReport(before, code)
  }

  /** A duration as the store computes it: a start at time zero counts as no start. */
  function Duration(began: real, ended: real): real { if began == 0.0 then 0.0 else ended - began }

  /** What the row of a code says about the log. */
  predicate Summarises(row: Row, log: seq<Op>, code: nat) {
    && row.status == (if Active(log, code) then TEST_FAILED | CONFIRMED else CONFIRMED)
    && row.count == Episodes(log, code) && row.count > 0
    && row.first == FirstReport(log, code) && row.last == LastReport(log, code)
    && (if Active(log, code) then row.start == Some(Began(log, code)) && row.recovered == row.duration == None
        else row.start == None && row.recovered == Some(Ended(log, code))
             && row.duration == Some(Duration(Began(log, code), Ended(log, code))))
  }

  /** An active fault has had an episode. */
  lemma {:induction false} ActiveHasEpisode(log: seq<Op>, code: nat)
    requires Active(log, code)
    ensures Episodes(log, code) > 0
  {
    var before := log[..|log| - 1];
    if Active(before, code) {
      ActiveHasEpisode(before, code);
    }
  }

  predicate Ordered(log: seq<Op>) {
    forall i, j :: 0 <= i < j < |log| && !log[i].ClearAll? && !log[j].ClearAll? ==> log[i].at <= log[j].at
  }

  /** With a clock that does not run backwards no finished episode has a negative length. */
  lemma {:induction false} EpisodesRunForwards(log: seq<Op>, code: nat, now: real)
    requires Ordered(log) && now >= 0.0
    requires forall i :: 0 <= i < |log| && !log[i].ClearAll? ==> 0.0 <= log[i].at <= now
    ensures 0.0 <= Began(log, code) <= now && 0.0 <= Ended(log, code) <= now
    ensures Episodes(log, code) > 0 && !Active(log, code) ==> Began(log, code) <= Ended(log, code)
  {
    if log != [] {
      var last := log[|log| - 1];
      EpisodesRunForwards(log[..|log| - 1], code, if last.ClearAll? then now else last.at);
    }
  }

  /** The row of a finished episode gives its length iff the clock did not read zero at its beginning, or
      the episode has no length; and what it gives is never negative with a clock that does not run backwards. */
  lemma FinishedEpisodeIff(row: Row, log: seq<Op>, code: nat)
    requires Summarises(row, log, code) && row.status & TEST_FAILED == 0
    ensures row.recovered == Some(Ended(log, code)) && row.duration.Some?
    ensures row.duration.value == Ended(log, code) - Began(log, code)
            <==> Began(log, code) != 0.0 || Ended(log, code) == Began(log, code)
    ensures Ordered(log) && (forall i :: 0 <= i < |log| && !log[i].ClearAll? ==> 0.0 <= log[i].at) ==>
              row.duration.value >= 0.0
  {
    if Ordered(log) && forall i :: 0 <= i < |log| && !log[i].ClearAll? ==> 0.0 <= log[i].at {
      var now := LatestTime(log);
      EpisodesRunForwards(log, code, now);
    }
  }

  lemma {:induction false} LatestTime(log: seq<Op>) returns (now: real)
    requires forall i :: 0 <= i < |log| && !log[i].ClearAll? ==> 0.0 <= log[i].at
    ensures now >= 0.0 && forall i :: 0 <= i < |log| && !log[i].ClearAll? ==> log[i].at <= now
  {
    now := 0.0;
    if log != [] {
      now := LatestTime(log[..|log| - 1]);
      var last := log[|log| - 1];
      now := if !last.ClearAll? && last.at > now then last.at else now;
    }
  }

  /** An operation on one code leaves what the log says about all others alone. */
  lemma OthersUnaffected(log: seq<Op>, op: Op, code: nat)
    requires !op.ClearAll? && op.code != code
    ensures var after := log + [op];
            && Active(after, code) == Active(log, code) && Episodes(after, code) == Episodes(log, code)
            && forall row :: Summarises(row, log, code) ==> Summarises(row, after, code)
  {
    assert (log + [op])[..|log|] == log;
  }

  lemma SetStep(log: seq<Op>, code: nat, now: real)
    ensures var after := log + [SetActive(code, now)];
            && Active(after, code) && LastReport(after, code) == now
            && Episodes(after, code) == Episodes(log, code) + (if Active(log, code) then 0 else 1)
            && Began(after, code) == (if Active(log, code) then Began(log, code) else now)
            && FirstReport(after, code) == (if Episodes(log, code) == 0 then now else FirstReport(log, code))
            && Episodes(after, code) > 0
  {
    assert (log + [SetActive(code, now)])[..|log|] == log;
    if Active(log, code) {
      ActiveHasEpisode(log, code);
    }
  }

  lemma ClearStep(log: seq<Op>, code: nat, now: real)
    ensures var after := log + [ClearActive(code, now)];
            && !Active(after, code) && LastReport(after, code) == LastReport(log, code)
            && Episodes(after, code) == Episodes(log, code) && FirstReport(after, code) == FirstReport(log, code)
            && Began(after, code) == Began(log, code)
            && Ended(after, code) == (if Active(log, code) then now else Ended(log, code))
  {
    assert (log + [ClearActive(code, now)])[..|log|] == log;
  }

  /** A further report starts a new episode when the fault was stored, and else only moves the time. */
  function Reported(row: Row, now: real): Row {
    if row.status & TEST_FAILED == 0
    then row.(status := row.status | TEST_FAILED | CONFIRMED, last := now, count := row.count + 1,
              start := Some(now), recovered := None, duration := None)
    else row.(last := now)
  }

  class DtcStore {
    var rows: map<nat, Row>
    ghost var log: seq<Op>

    /** There is a row for a code iff it has had an episode, and it summarises the log. */
    ghost predicate Valid()
      reads this
    {
      && (forall code: nat :: code in rows <==> Episodes(log, code) > 0)
      && (forall code :: code in rows ==> Summarises(rows[code], log, code))
    }

    constructor ()
      ensures Valid() && log == []
    {
      rows, log := map[], [];
    }

    method SetActive(code: nat, now: real)
      requires Valid()
      modifies this
      ensures Valid() && log == old(log) + [Op.SetActive(code, now)]
    {
      SetStep(log, code, now);
      forall other: nat | other != code {
        OthersUnaffected(log, Op.SetActive(code, now), other);
      }
      hide Active, Episodes, Began, Ended, FirstReport, LastReport;
      if code !in rows {
        rows := rows[code := Row(TEST_FAILED | CONFIRMED, now, now, 1, Some(now), None, None)];
      } else {
        rows := rows[code := Reported(rows[code], now)];
      }
      log := log + [Op.SetActive(code, now)];
    }

    method ClearActive(code: nat, now: real)
      requires Valid()
      modifies this
      ensures Valid() && log == old(log) + [Op.ClearActive(code, now)]
    {
      ClearStep(log, code, now);
      forall other: nat | other != code {
        OthersUnaffected(log, Op.ClearActive(code, now), other);
      }
      hide Active, Episodes, Began, Ended, FirstReport, LastReport;
      log := log + [Op.ClearActive(code, now)];
      if code in rows && rows[code].status & TEST_FAILED != 0 {
        var row := rows[code];
        var start := if row.start.Some? && row.start.value != 0.0 then row.start.value else now;
        rows := rows[code := row.(status := row.status & !TEST_FAILED, recovered := Some(now),
                                  duration := Some(now - start), start := None)];
      }
    }

    method ClearAll()
      requires Valid()
      modifies this
      ensures Valid() && log == old(log) + [Op.ClearAll] && rows == map[]
    {
      ghost var before := log;
      log := log + [Op.ClearAll];
      assert log[..|before|] == before;
      rows := map[];
    }
  }

  /** An episode from clock time zero to five is stored with duration zero. */
  method EpisodeFromZero(code: nat) returns (store: DtcStore)
    ensures store.Valid() && code in store.rows
    ensures store.rows[code].duration == Some(0.0) && store.rows[code].recovered == Some(5.0)
    ensures Began(store.log, code) == 0.0 && Ended(store.log, code) == 5.0
  {
    store := new DtcStore();
    SetStep([], code, 0.0);
    store.SetActive(code, 0.0);
    store.ClearActive(code, 5.0);
    assert store.log == [Op.SetActive(code, 0.0)] + [Op.ClearActive(code, 5.0)];
    assert store.log[..1] == [Op.SetActive(code, 0.0)];
  }
}
