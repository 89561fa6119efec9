/**
 Diagnostic relay of the gateway: DoIP frames from the tester (MAIN/BSW/Interface/doip.c,
 ISO 13400-2) become CAN single frames (MAIN/BSW/Interface/cantp.c, MAIN/candrv.c), and the
 single frames of the ECUs become DoIP frames again.  One TCP delivery holds one frame.
 */
module MainDoip {
  import opened Bytes
  import opened MainRouting
  import opened SingleFrame

  const TESTER: nat := 0x0E00
  const TA_MAIN: nat := 0x0001
  const TA_ACT: nat := 0x0010
  const TA_BODY: nat := 0x0020
  const ID_ACT_REQUEST := 0x700
  const ID_BODY_REQUEST := 0x710
  const ID_ACT_RESPONSE := 0x708
  const ID_BODY_RESPONSE := 0x718

  const TYPE_GENERIC_NACK := 0x0000
  const TYPE_ACTIVATION_REQUEST := 0x0005
  const TYPE_ACTIVATION_RESPONSE := 0x0006
  const TYPE_DIAGNOSTIC := 0x8001
  const TYPE_DIAGNOSTIC_ACK := 0x8002
  const TYPE_DIAGNOSTIC_NACK := 0x8003
  const TX_BUFFER_SIZE := 1024

  /** What the gateway does to the world outside. */
  datatype Output = Tcp(data: seq<byte>) | CloseSocket | Can(frame: CanFrame) | ToMain(uds: seq<byte>) | Activated

  /** A frame with the generic header of protocol version 2. */
  function Frame(kind: nat, payload: seq<byte>): seq<byte>
    requires kind < 0x1_0000 && |payload| < 0x1_0000_0000
  {
    [0x02, 0xFD] + BigEndian16(kind) + BigEndian32(|payload|) + payload
  }

  function Addressed(a: nat, b: nat, rest: seq<byte>): seq<byte>
    requires a < 0x1_0000 && b < 0x1_0000
  {
    BigEndian16(a) + BigEndian16(b) + rest
  }

  function Diagnostic(sa: nat, ta: nat, uds: seq<byte>): seq<byte>
    requires sa < 0x1_0000 && ta < 0x1_0000 && |uds| < 0x1_0000
  {
    Frame(TYPE_DIAGNOSTIC, Addressed(sa, ta, uds))
  }

  /** The bytes before the data in a diagnostic frame to the tester. */
  function GenericHeader(length: nat): (r: seq<byte>)
    requires length < 0x1_0000
    ensures |r| == 8
  {
    [0x02, 0xFD, 0x80, 0x01, length / 0x100_0000, length / 0x1_0000 % 0x100, length / 0x100 % 0x100, length % 0x100]
  }

  function Addresses(sa: nat): (r: seq<byte>)
    requires sa < 0x1_0000
    ensures |r| == 4
  {
    [sa / 256, sa % 256, TESTER / 256, TESTER % 256]
  }

  datatype Message = Message(kind: nat, sa: nat, ta: nat, uds: seq<byte>)

  /** An independent reader of diagnostic frames: it accepts only a consistent length field. */
  function ReadDiagnostic(data: seq<byte>): Option<Message> {
    if |data| < 12 || data[0] != 0x02 || data[1] != 0xFD || Word32(data[4..8]) != |data| - 8 then None
    else Some(Message(Word16(data[2], data[3]), Word16(data[8], data[9]), Word16(data[10], data[11]), data[12..]))
  }

  lemma AddressedFrameIsRead(kind: nat, sa: nat, ta: nat, uds: seq<byte>)
    requires kind < 0x1_0000 && sa < 0x1_0000 && ta < 0x1_0000 && |uds| < 0x1_0000
    ensures ReadDiagnostic(Frame(kind, Addressed(sa, ta, uds))) == Some(Message(kind, sa, ta, uds))
  {
    var data := Frame(kind, Addressed(sa, ta, uds));
    Word32RoundTrip(|uds| + 4);
    assert data[4..8] == BigEndian32(|uds| + 4);
    assert data[12..] == uds;
  }

  /** Data length codes: a payload is carried whole, and padded only where CAN FD has no exact length. */
  function GetDlc(length: nat): (dlc: nat)
    requires length <= 64
    ensures dlc <= 15 && GetLength(dlc) >= length
    ensures forall d :: 0 <= d < dlc ==> GetLength(d) < length
    ensures length <= 8 ==> dlc == length
  {
    if length <= 8 then length
    else if length <= 12 then 9
    else if length <= 16 then 10
    else if length <= 20 then 11
    else if length <= 24 then 12
    else if length <= 32 then 13
    else if length <= 48 then 14
    else 15
  }

  function GetLength(dlc: nat): nat {
    match dlc
    case 9 => 12 case 10 => 16 case 11 => 20 case 12 => 24
    case 13 => 32 case 14 => 48 case 15 => 64
    case _ => dlc
  }

  predicate KnownTarget(ta: nat) { ta == TA_MAIN || ta == TA_ACT || ta == TA_BODY }

  predicate Relayable(uds: seq<byte>) { 1 <= |uds| <= 7 }

  /** The request on its way to an ECU, if it fits a single frame. */
  function Forwarded(ta: nat, uds: seq<byte>): seq<Output> {
    if ta == TA_MAIN then [ToMain(uds)]
    else if !Relayable(uds) then []
    else [Can(CanFrame(if ta == TA_ACT then ID_ACT_REQUEST else ID_BODY_REQUEST, true, 8, Pack(uds, 8)))]
  }

  function Ack(kind: nat, ta: nat, sa: nat, code: byte): Output
    requires kind < 0x1_0000 && ta < 0x1_0000 && sa < 0x1_0000
  {
    Tcp(Frame(kind, Addressed(ta, sa, [code])))
  }

  function Activation(sa: nat): seq<Output>
    requires sa < 0x1_0000
  {
    var response := (code: byte) => Tcp(Frame(TYPE_ACTIVATION_RESPONSE, Addressed(sa, TA_MAIN, [code, 0, 0, 0, 0])));
    if sa == TESTER then [Activated, response(0x10)] else [response(0x00), CloseSocket]
  }

  /** The reaction to a diagnostic message, by its addresses. */
  function Relayed(sa: nat, ta: nat, uds: seq<byte>): seq<Output>
    requires sa < 0x1_0000 && ta < 0x1_0000
  {
    if sa != TESTER then [Ack(TYPE_DIAGNOSTIC_NACK, ta, sa, 0x02), CloseSocket]
    else if !KnownTarget(ta) then [Ack(TYPE_DIAGNOSTIC_NACK, ta, sa, 0x03)]
    else [Ack(TYPE_DIAGNOSTIC_ACK, ta, sa, 0x00)] + Forwarded(ta, uds)
  }

  /** The reaction to one TCP delivery. */
  function Reaction(payload: seq<byte>): seq<Output> {
    if |payload| < 8 then []
    else if Word32(payload[4..8]) != |payload| - 8 then [Tcp(Frame(TYPE_GENERIC_NACK, [0x04])), CloseSocket]
    else
      var kind := Word16(payload[2], payload[3]);
      if kind == TYPE_DIAGNOSTIC then
        if |payload| < 12 then []
        else Relayed(Word16(payload[8], payload[9]), Word16(payload[10], payload[11]), payload[12..])
      else if kind == TYPE_ACTIVATION_REQUEST then
        if |payload| < 15 then [] else Activation(Word16(payload[8], payload[9]))
      else [Tcp(Frame(TYPE_GENERIC_NACK, [0x01]))]
  }

  /** What leaves the gateway when a response frame with these data bytes arrives. */
  function Returned(canId: nat, data: seq<byte>): seq<Output>
    requires |data| <= 64
  {
    match ParseResponse(data)
    case None => []
    case Some(uds) =>
      if canId == ID_ACT_RESPONSE then [Tcp(Diagnostic(TA_ACT, TESTER, uds))]
      else if canId == ID_BODY_RESPONSE then [Tcp(Diagnostic(TA_BODY, TESTER, uds))]
      else []
  }

  /** Byte by byte: the one tester is activated and told so with 0x10; anyone else is told 0x00 and loses the
      connection; and a request that is too short for its fixed part is ignored. */
  lemma ActivationBytes(p: seq<byte>)
    requires 8 <= |p| && p[2] == 0x00 && p[3] == 0x05 && Word32(p[4..8]) == |p| - 8
    ensures |p| < 15 ==> Reaction(p) == []
    ensures |p| >= 15 && p[8] == 0x0E && p[9] == 0x00 ==>
              Reaction(p) == [Activated, Tcp([0x02, 0xFD, 0x00, 0x06, 0, 0, 0, 0x09, 0x0E, 0x00, 0x00, 0x01, 0x10, 0, 0, 0, 0])]
    ensures |p| >= 15 && !(p[8] == 0x0E && p[9] == 0x00) ==>
              Reaction(p) == [Tcp([0x02, 0xFD, 0x00, 0x06, 0, 0, 0, 0x09, p[8], p[9], 0x00, 0x01, 0x00, 0, 0, 0, 0]), CloseSocket]
  {
    if |p| >= 15 {
      ActivationFrame(Word16(p[8], p[9]), 0x10);
      ActivationFrame(Word16(p[8], p[9]), 0x00);
    }
  }

  lemma ActivationFrame(sa: nat, code: byte)
    requires sa < 0x1_0000
    ensures [0x02, 0xFD, 0x00, 0x06, 0x00, 0x00, 0x00, 0x09, sa / 256, sa % 256, 0x00, 0x01, code, 0, 0, 0, 0]
            == Frame(TYPE_ACTIVATION_RESPONSE, Addressed(sa, TA_MAIN, [code, 0, 0, 0, 0]))
  {
  }

  /** The acknowledgement of a diagnostic message p, with type 0x8002 or 0x8003: its addresses change places. */
  function Acknowledged(p: seq<byte>, kind: byte, code: byte): Output
    requires |p| >= 12
  {
    Tcp([0x02, 0xFD, 0x80, kind, 0, 0, 0, 0x05, p[10], p[11], p[8], p[9], code])
  }

  /** What a diagnostic message is answered with, and where it goes: MAIN itself, or in one frame to ACT or BODY,
      unless it is empty or longer than 7 bytes. */
  function RelayedBytes(p: seq<byte>): seq<Output>
    requires |p| >= 12
  {
    var uds := p[12..];
    if p[8] != 0x0E || p[9] != 0x00 then [Acknowledged(p, 0x03, 0x02), CloseSocket]
    else if p[10] == 0x00 && p[11] == 0x01 then [Acknowledged(p, 0x02, 0x00), ToMain(uds)]
    else if p[10] == 0x00 && (p[11] == 0x10 || p[11] == 0x20) then
      if |uds| == 0 || |uds| > 7 then [Acknowledged(p, 0x02, 0x00)]
      else [Acknowledged(p, 0x02, 0x00), Can(CanFrame(if p[11] == 0x10 then 0x700 else 0x710, true, 8, Pack(uds, 8)))]
    else [Acknowledged(p, 0x03, 0x03)]
  }

  lemma RelayIsByBytes(p: seq<byte>)
    requires 12 <= |p| && p[2] == 0x80 && p[3] == 0x01 && Word32(p[4..8]) == |p| - 8
    ensures Reaction(p) == RelayedBytes(p)
  {
    hide Ack, Reaction, Pack, Frame, Addressed, Word32;
    var sa, ta := Word16(p[8], p[9]), Word16(p[10], p[11]);
    DiagnosticReaction(p);
    if sa != TESTER {
      AckBytes(TYPE_DIAGNOSTIC_NACK, ta, sa, 0x02);
    } else if !KnownTarget(ta) {
      AckBytes(TYPE_DIAGNOSTIC_NACK, ta, sa, 0x03);
    } else {
      AckBytes(TYPE_DIAGNOSTIC_ACK, ta, sa, 0x00);
    }
  }

  lemma DiagnosticReaction(p: seq<byte>)
    requires 12 <= |p| && p[2] == 0x80 && p[3] == 0x01 && Word32(p[4..8]) == |p| - 8
    ensures Reaction(p) == Relayed(Word16(p[8], p[9]), Word16(p[10], p[11]), p[12..])
  {
  }

  lemma AckBytes(kind: nat, a: nat, b: nat, code: byte)
    requires kind == 0x8002 || kind == 0x8003
    requires a < 0x1_0000 && b < 0x1_0000
    ensures Ack(kind, a, b, code)
            == Tcp([0x02, 0xFD, 0x80, kind % 256, 0, 0, 0, 0x05, a / 256, a % 256, b / 256, b % 256, code])
  {
  }

  /** A wrong length ends the connection; other kinds of message are refused, and stubs are ignored. */
  lemma NackBytes(p: seq<byte>)
    ensures |p| < 8 ==> Reaction(p) == []
    ensures |p| >= 8 && Word32(p[4..8]) != |p| - 8 ==>
              Reaction(p) == [Tcp([0x02, 0xFD, 0x00, 0x00, 0, 0, 0, 0x01, 0x04]), CloseSocket]
    ensures |p| >= 8 && Word32(p[4..8]) == |p| - 8 && !(p[2] == 0x80 && p[3] == 0x01) && !(p[2] == 0x00 && p[3] == 0x05) ==>
              Reaction(p) == [Tcp([0x02, 0xFD, 0x00, 0x00, 0, 0, 0, 0x01, 0x01])]
    ensures 8 <= |p| < 12 && Word32(p[4..8]) == |p| - 8 && p[2] == 0x80 && p[3] == 0x01 ==> Reaction(p) == []
  {
    assert forall code: byte :: Frame(TYPE_GENERIC_NACK, [code]) == [0x02, 0xFD, 0x00, 0x00, 0, 0, 0, 0x01, code];
  }

  class DoipGateway {
    var out: seq<Output>

    constructor ()
      ensures out == []
    {
      out := [];
    }

    method Emit(o: Output)
      modifies this
      ensures out == old(out) + [o]
    {
      out := out + [o];
    }

    method SendGenericNack(code: byte)
      modifies this
      ensures out == old(out) + [Tcp(Frame(TYPE_GENERIC_NACK, [code]))]
    {
      var tx := [0x02, 0xFD, 0x00, 0x00, 0x00, 0x00, 0x00, 0x01, code];
      assert tx == Frame(TYPE_GENERIC_NACK, [code]);
      Emit(Tcp(tx));
    }

    /** Positive and negative acknowledgements differ in their type only. */
    method SendDiagAck(positive: bool, sa: nat, ta: nat, code: byte)
      requires sa < 0x1_0000 && ta < 0x1_0000
      modifies this
      ensures out == old(out) + [Ack(if positive then TYPE_DIAGNOSTIC_ACK else TYPE_DIAGNOSTIC_NACK, sa, ta, code)]
    {
      var tx: seq<byte> := [0x02, 0xFD, 0x80, if positive then 0x02 else 0x03, 0x00, 0x00, 0x00, 0x05,
                            sa / 256, sa % 256, ta / 256, ta % 256, code];
      assert tx == Frame(if positive then TYPE_DIAGNOSTIC_ACK else TYPE_DIAGNOSTIC_NACK, Addressed(sa, ta, [code]));
      Emit(Tcp(tx));
    }

    /** Only the one tester address is activated; anyone else loses the connection. */
    method ProcessRoutingActivation(payload: seq<byte>)
      modifies this
      ensures out == old(out) + if |payload| < 15 then [] else Activation(Word16(payload[8], payload[9]))
    {
      if |payload| < 15 {
        return;
      }
      var sa := Word16(payload[8], payload[9]);
      var code: byte := 0x00;
      if sa == TESTER {
        code := 0x10;
        Emit(Activated);
      }
      var tx: seq<byte> := [0x02, 0xFD, 0x00, 0x06, 0x00, 0x00, 0x00, 0x09,
                            sa / 256, sa % 256, 0x00, 0x01, code, 0, 0, 0, 0];
      ActivationFrame(sa, code);
      hide Frame, Addressed;
      Emit(Tcp(tx));
      if code != 0x10 {
        Emit(CloseSocket);
      }
    }

    /** CanTp_Transmit: one single frame of 8 bytes, or nothing. */
    method CanTpTransmit(canId: nat, uds: seq<byte>)
      modifies this
      ensures out == old(out) + if Relayable(uds) then [Can(CanFrame(canId, true, 8, Pack(uds, 8)))] else []
    {
      if |uds| == 0 || |uds| > 7 {
        return;
      }
      var can := new byte[8];
      can[0] := |uds| % 16;
      for i := 0 to |uds|
        modifies can
        invariant can[0] == |uds| && forall j :: 0 <= j < i ==> can[1 + j] == uds[j]
      {
        can[1 + i] := uds[i];
      }
      for i := 1 + |uds| to 8
        modifies can
        invariant can[0] == |uds| && (forall j :: 0 <= j < |uds| ==> can[1 + j] == uds[j])
        invariant forall j :: 1 + |uds| <= j < i ==> can[j] == 0
      {
        can[i] := 0;
      }
      assert can[..] == Pack(uds, 8);
      Emit(Can(CanFrame(canId, true, GetDlc(8), can[..])));
    }

    /** Hand a diagnostic request to its ECU through the routing table. */
    method Forward(ta: nat, uds: seq<byte>)
      requires KnownTarget(ta)
      modifies this
      ensures out == old(out) + Forwarded(ta, uds)
    {
      var target := RouteRx(if ta == TA_MAIN then DOIP_MAIN else if ta == TA_ACT then DOIP_ACT else DOIP_BODY, RxTable);
      assert RxTable[2] == (DOIP_MAIN, UdsMain) && RxTable[3] == (DOIP_ACT, UdsAct) && RxTable[4] == (DOIP_BODY, UdsBody);
      match target {
        case Some(UdsMain) => Emit(ToMain(uds));
        case Some(UdsAct) => CanTpTransmit(ID_ACT_REQUEST, uds);
        case Some(UdsBody) => CanTpTransmit(ID_BODY_REQUEST, uds);
        case _ =>
      }
    }

    /** DoIP_ProcessRx.  The protocol version is not looked at. */
    method ProcessRx(payload: seq<byte>)
      requires |payload| < 0x1_0000
      modifies this
      ensures out == old(out) + Reaction(payload)
    {
      if |payload| < 8 {
        return;
      }
      var kind := Word16(payload[2], payload[3]);
      if Word32(payload[4..8]) != |payload| - 8 {
        SendGenericNack(0x04);
        Emit(CloseSocket);
        return;
      }
      if kind == TYPE_DIAGNOSTIC {
        if |payload| < 12 {
          return;
        }
        RelayDiagnostic(Word16(payload[8], payload[9]), Word16(payload[10], payload[11]), payload[12..]);
      } else if kind == TYPE_ACTIVATION_REQUEST {
        ProcessRoutingActivation(payload);
      } else {
        SendGenericNack(0x01);
      }
    }

    /** The address checks, the acknowledgement, and the request itself. */
    method RelayDiagnostic(sa: nat, ta: nat, uds: seq<byte>)
      requires sa < 0x1_0000 && ta < 0x1_0000
      modifies this
      ensures out == old(out) + Relayed(sa, ta, uds)
    {
      if sa != TESTER {
        SendDiagAck(false, ta, sa, 0x02);
        Emit(CloseSocket);
        return;
      }
      if !KnownTarget(ta) {
        SendDiagAck(false, ta, sa, 0x03);
        return;
      }
      SendDiagAck(true, ta, sa, 0x00);
      Forward(ta, uds);
    }

    /** DoIP_ProcessTx: wrap a response into a frame from the ECU's address to the tester. */
    method ProcessTx(sa: nat, uds: seq<byte>)
      requires sa < 0x1_0000 && |uds| + 12 < 0x1_0000
      modifies this
      ensures out == old(out) + if |uds| + 12 <= TX_BUFFER_SIZE then [Tcp(Diagnostic(sa, TESTER, uds))] else []
    {
      var length := 4 + |uds|;
      if 8 + length > TX_BUFFER_SIZE {
        return;
      }
      var tx := Wrap(sa, uds);
      Emit(Tcp(tx));
    }

    /** Header, addresses and data in the transmit buffer. */
    static method Wrap(sa: nat, uds: seq<byte>) returns (data: seq<byte>)
      requires sa < 0x1_0000 && |uds| + 12 <= TX_BUFFER_SIZE
      ensures data == Diagnostic(sa, TESTER, uds)
    {
      hide Diagnostic, GenericHeader, Addresses;
      DiagnosticBytes(sa, uds);
      var length := 4 + |uds|;
      var tx := new byte[TX_BUFFER_SIZE];
      PutHeader(tx, length);
      PutAddresses(tx, sa);
      for i := 0 to |uds|
        modifies tx
        invariant tx[..8] == GenericHeader(length) && tx[8..12] == Addresses(sa)
        invariant forall j :: 0 <= j < i ==> tx[12 + j] == uds[j]
      {
        tx[12 + i] := uds[i];
      }
      data := tx[..8 + length];
      assert data == tx[..8] + tx[8..12] + uds;
    }

    static method PutHeader(tx: array<byte>, length: nat)
      requires tx.Length >= 12 && length < 0x1_0000
      modifies tx
      ensures tx[..8] == GenericHeader(length)
    {
      tx[0], tx[1], tx[2], tx[3] := 0x02, 0xFD, 0x80, 0x01;
      tx[4], tx[5], tx[6], tx[7] := length / 0x100_0000, length / 0x1_0000 % 0x100, length / 0x100 % 0x100, length % 0x100;
    }

    static method PutAddresses(tx: array<byte>, sa: nat)
      requires tx.Length >= 12 && sa < 0x1_0000
      modifies tx
      ensures tx[..8] == old(tx[..8]) && tx[8..12] == Addresses(sa)
    {
      tx[8], tx[9], tx[10], tx[11] := sa / 256, sa % 256, TESTER / 256, TESTER % 256;
    }

    static lemma DiagnosticBytes(sa: nat, uds: seq<byte>)
      requires sa < 0x1_0000 && |uds| + 12 < 0x1_0000
      ensures GenericHeader(4 + |uds|) + Addresses(sa) + uds == Diagnostic(sa, TESTER, uds)
    {
    }

    /** CanTp_RxIndication: take the payload out of a response frame and pass it on under the ECU's address. */
    method CanTpRxIndication(canId: nat, data: seq<byte>)
      requires |data| <= 64
      modifies this
      ensures out == old(out) + Returned(canId, data)
    {
      if |data| < 1 {
        return;
      }
      var frameType, udsLength := data[0] / 16, data[0] % 16;
      if frameType != 0 || udsLength > |data| - 1 {
        return;
      }
      var uds := data[1..1 + udsLength];
      if canId == ID_ACT_RESPONSE {
        Return(CAN_ACT_UDS, uds);
      } else if canId == ID_BODY_RESPONSE {
        Return(CAN_BODY_UDS, uds);
      }
    }

    /** Back through the routing table, which knows the ECU's address. */
    method Return(pduId: nat, uds: seq<byte>)
      requires pduId == CAN_ACT_UDS || pduId == CAN_BODY_UDS
      requires |uds| <= 64
      modifies this
      ensures out == old(out) + [Tcp(Diagnostic(if pduId == CAN_ACT_UDS then TA_ACT else TA_BODY, TESTER, uds))]
    {
      var target := RouteRx(pduId, RxTable);
      assert RxTable[8] == (CAN_ACT_UDS, ActResponse) && RxTable[9] == (CAN_BODY_UDS, BodyResponse);
      match target {
        case Some(ActResponse) => ProcessTx(TA_ACT, uds);
        case Some(BodyResponse) => ProcessTx(TA_BODY, uds);
        case _ =>
      }
    }
  }
}
