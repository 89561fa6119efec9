/**
 Transmission of diagnostic responses by ACT (ACT/UdsDiag.c).  A frame that finds the
 controller busy is dropped; nothing sends it again.
 */
module UdsTransport {
  import opened Bytes
  import opened SingleFrame

  const RESPONSE_ID := 0x708
  const DLC_8_BYTES := 8
  const DLC_12_BYTES := 9

  /** The single frame that carries a response of 1 to 11 bytes. */
  function ResponseFrame(payload: seq<byte>): CanFrame
    requires 1 <= |payload| <= 11
  {
    if |payload| <= 7 then CanFrame(RESPONSE_ID, true, DLC_8_BYTES, Pack(payload, 8))
    else CanFrame(RESPONSE_ID, true, DLC_12_BYTES, Pack(payload, 12))
  }

  /** The frames that the controller takes, if the k-th one offered finds it busy or not. */
  function Taken(offered: seq<CanFrame>, busy: nat -> bool): seq<CanFrame> {
    if offered == [] then []
    else
      var last := |offered| - 1;
      Taken(offered[..last], busy) + if busy(last) then [] else [offered[last]]
  }

  lemma TakenStep(offered: seq<CanFrame>, f: CanFrame, busy: nat -> bool)
    ensures Taken(offered + [f], busy) == Taken(offered, busy) + if busy(|offered|) then [] else [f]
  {
    assert (offered + [f])[..|offered|] == offered;
  }

  class Transmitter {
    const busy: nat -> bool

    var txBuffer: nat
    var attempts: nat
    // What has gone out on the bus, and what has been offered to the controller.
    var sent: seq<CanFrame>
    ghost var offered: seq<CanFrame>

    ghost predicate Valid()
      reads this
    {
      attempts == |offered| && sent == Taken(offered, busy) && txBuffer in {2, 3}
    }

    constructor (busy: nat -> bool)
      ensures Valid() && offered == [] && this.busy == busy
    {
      this.busy := busy;
      txBuffer, attempts, sent, offered := 2, 0, [], [];
    }

    /** Lay the payload out in a single frame and offer it to the controller, once. */
    method SendSingleFrame(payload: seq<byte>)
      requires Valid() && 1 <= |payload| <= 11
      modifies this
      ensures Valid() && offered == old(offered) + [ResponseFrame(payload)]
      ensures sent == old(sent) + if busy(|old(offered)|) then [] else [ResponseFrame(payload)]
      ensures txBuffer == if busy(|old(offered)|) then old(txBuffer) else 5 - old(txBuffer)
    {
      var data := Layout(payload);
      var frame := CanFrame(RESPONSE_ID, true, if |payload| <= 7 then DLC_8_BYTES else DLC_12_BYTES, data);
      TakenStep(offered, frame, busy);
      if !busy(attempts) {
        txBuffer := if txBuffer == 2 then 3 else 2;
        sent := sent + [frame];
      }
      attempts, offered := attempts + 1, offered + [frame];
    }

    /** Length, payload and zero padding in 8 or 12 bytes. */
    static method Layout(payload: seq<byte>) returns (data: seq<byte>)
      requires 1 <= |payload| <= 11
      ensures data == Pack(payload, if |payload| <= 7 then 8 else 12)
    {
      var dlcBytes := if |payload| <= 7 then 8 else 12;
      var tx := new byte[12];
      for i := 0 to 12
        invariant forall j :: 0 <= j < i ==> tx[j] == 0
        modifies tx
      {
        tx[i] := 0;
      }
      tx[0] := |payload| % 16;
      for i := 0 to |payload|
        modifies tx
        invariant tx[0] == |payload|
        invariant forall j :: 0 <= j < i ==> tx[j + 1] == payload[j]
        invariant forall j :: i < j < 12 ==> tx[j] == 0
      {
        tx[i + 1] := payload[i];
      }
      data := tx[..dlcBytes];
    }
  }
}
