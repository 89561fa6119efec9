/**
 Communication-loss trouble codes of the gateway (MAIN/BSW/Service/dcm.c): one status byte
 and one occurrence counter for each watched peer.
 */
module MainDcm {
  import opened DtcMonitor

  const COUNT_TOP := 255

  /** The books of one peer.  They refine the common monitor, with a counter that saturates at 255
      instead of 3 and a clear that forgets the current fault as well. */
  class PeerMonitor {
    var status: bv8
    var count: nat
    ghost var history: seq<Event>

    ghost predicate Valid()
      reads this
    {
      Reflects(status, count, history, COUNT_TOP, false)
    }

    constructor ()
      ensures Valid() && status == 0 && count == 0 && history == []
    {
      status, count, history := 0, 0, [];
      new;
      EmptyHistory(false, COUNT_TOP);
    }

    /** The peer has been silent for one timeout period. */
    method CommLoss()
      requires Valid()
      modifies this
      ensures Valid() && history == old(history) + [Fail]
      ensures status == old(status) | CURRENT_BIT | (if old(count) + 1 >= CONFIRM_FAIL_COUNT then HISTORY_BIT else 0)
    {
      SpecStep(history, Fail, false);
      status := status | CURRENT_BIT;
      if count < COUNT_TOP {
        count := count + 1;
      }
      if count >= CONFIRM_FAIL_COUNT {
        status := status | HISTORY_BIT;
      }
      history := history + [Fail];
    }

    /** A message of the peer has arrived. */
    method Recovered()
      requires Valid()
      modifies this
      ensures Valid() && history == old(history) + [Pass]
      ensures status == old(status) & !CURRENT_BIT && count == 0
    {
      SpecStep(history, Pass, false);
      status := status & !CURRENT_BIT;
      count := 0;
      history := history + [Pass];
    }

    method Clear()
      requires Valid()
      modifies this
      ensures Valid() && history == old(history) + [Event.Clear] && status == 0 && count == 0
    {
      SpecStep(history, Event.Clear, false);
      status, count := 0, 0;
      history := history + [Event.Clear];
    }
  }

  class Dcm {
    const pc: PeerMonitor
    const act: PeerMonitor
    const body: PeerMonitor

    ghost predicate Valid()
      reads this, pc, act, body
    {
      pc != act && act != body && pc != body && pc.Valid() && act.Valid() && body.Valid()
    }

    constructor ()
      ensures Valid() && fresh(pc) && fresh(act) && fresh(body)
      ensures pc.history == act.history == body.history == []
    {
      pc := new PeerMonitor();
      act := new PeerMonitor();
      body := new PeerMonitor();
    }

    method ClearAll()
      requires Valid()
      modifies pc, act, body
      ensures Valid() && pc.status == act.status == body.status == 0
      ensures pc.history == old(pc.history) + [Clear] && act.history == old(act.history) + [Clear]
      ensures body.history == old(body.history) + [Clear]
    {
      act.Clear();
      body.Clear();
      pc.Clear();
    }
  }
}
