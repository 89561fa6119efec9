/** The slot for diagnostic requests between the receive interrupt and the main loop (ACT/UdsDiag.c, BODY/BodyCan.c). */
module UdsSlot {
  import opened Bytes

  /** The data of a request frame, and when the interrupt stored it. */
  datatype Received = Received(data: seq<byte>, time: nat)

  function DataOf(received: seq<Received>): seq<seq<byte>> {
    seq(|received|, i requires 0 <= i < |received| => received[i].data)
  }

  lemma DataAppend(a: seq<Received>, b: seq<Received>)
    ensures DataOf(a + b) == DataOf(a) + DataOf(b)
  {
  }

  /** The one slot for a diagnostic request: a request that arrives before the last one has been taken
      overwrites it. */
  class RequestSlot {
    var pending: bool
    var data: seq<byte>

    ghost var received: seq<Received>
    // How many requests had been received at the last look into the slot, and when that was.
    ghost var taken: nat
    ghost var checkedAt: nat

    ghost predicate Valid(now: nat)
      reads this
    {
      && |data| == 8 && taken <= |received| && checkedAt <= now
      && (pending <==> taken < |received|)
      && (pending ==> data == received[|received| - 1].data)
      && (forall i :: 0 <= i < |received| ==> |received[i].data| == 8 && received[i].time <= now)
      && (forall i :: taken <= i < |received| ==> checkedAt <= received[i].time)
    }

    constructor ()
      ensures Valid(0) && received == [] && !pending && checkedAt == 0
    {
      pending, data := false, Zeros(8);
      received, taken, checkedAt := [], 0, 0;
    }

    /** UdsDiag_OnCanRequest. */
    method Store(request: seq<byte>, ghost now: nat)
      requires Valid(now) && |request| == 8
      modifies `pending, `data, `received
      ensures Valid(now) && received == old(received) + [Received(request, now)]
    {
      data := request;
      pending := true;
      received := received + [Received(request, now)];
    }

    /** Look into the slot: the newest request, if any has arrived since the last look. */
    method Take(ghost now: nat) returns (request: Option<seq<byte>>)
      requires Valid(now)
      modifies `pending, `taken, `checkedAt
      ensures Valid(now) && !pending && taken == |received| && checkedAt == now
      ensures request == if old(Waiting()).Some? then Some(old(Waiting()).value.data) else None
    {
      request := None;
      if pending {
        request := Some(data);
        pending := false;
      }
      taken, checkedAt := |received|, now;
    }

    /** The newest request, if it has arrived since the last look. */
    ghost function Waiting(): Option<Received>
      reads `received, `taken
    {
      if taken < |received| then Some(received[|received| - 1]) else None
    }
  }
}
