/**
 Receive loop of a DoIP session of the media node (MEDIA/doip/tcp_handler.py): the byte
 stream of the connection becomes a sequence of frames.
 */
module MediaStream {
  import opened Bytes
  import opened MediaHeader
  import opened Sequences

  const MAX_PAYLOAD := 0xFFFF
  const NACK_PATTERN: byte := 0x00
  const NACK_TOO_LARGE: byte := 0x02

  datatype Item = Dispatch(kind: nat, payload: seq<byte>) | Nack(code: byte)

  /** One turn of the loop: the connection is over, or it has an item and takes some bytes. */
  datatype Turn = Over | Turn(item: Item, taken: nat)

  function Next(stream: seq<byte>): (t: Turn)
    ensures t.Turn? ==> HEADER_LEN <= t.taken <= |stream|
  {
    match Decode(stream)
    case TooShort => Over
    case InverseMismatch => Over
    case Ok(h) =>
      if h.version != VERSION then Turn(Nack(NACK_PATTERN), HEADER_LEN)
      else if h.length > MAX_PAYLOAD then Turn(Nack(NACK_TOO_LARGE), HEADER_LEN)
      else if HEADER_LEN + h.length > |stream| then Over
      else Turn(Dispatch(h.kind, stream[HEADER_LEN..HEADER_LEN + h.length]), HEADER_LEN + h.length)
  }

  /** What the loop does with a connection that delivers these bytes and then ends. */
  function Items(stream: seq<byte>): seq<Item>
    decreases |stream|
  {
    var t := Next(stream);
    if t.Over? then [] else [t.item] + Items(stream[t.taken..])
  }

  lemma Prepend(head: seq<byte>, rest: seq<byte>, item: Item)
    requires Next(head + rest) == Turn(item, |head|)
    ensures Items(head + rest) == [item] + Items(rest)
  {
    assert (head + rest)[|head|..] == rest;
  }

  /** A frame as a sender may put it on the wire. */
  type Sendable = f: Item | f.Dispatch? && f.kind < 0x1_0000 && |f.payload| <= MAX_PAYLOAD witness Dispatch(0, [])

  function Stream(frames: seq<Sendable>): seq<byte> {
    if frames == [] then [] else BuildFrame(frames[0].kind, frames[0].payload) + Stream(frames[1..])
  }

  lemma FirstFrame(kind: nat, payload: seq<byte>, rest: seq<byte>)
    requires kind < 0x1_0000 && |payload| <= MAX_PAYLOAD
    ensures Next(BuildFrame(kind, payload) + rest) == Turn(Dispatch(kind, payload), HEADER_LEN + |payload|)
  {
    var h := Header(VERSION, kind, |payload|);
    var stream := BuildFrame(kind, payload) + rest;
    assert stream == Encode(h) + (payload + rest);
    DecodeEncodeIff(h, payload + rest);
    assert stream[HEADER_LEN..HEADER_LEN + |payload|] == payload;
  }

  lemma StreamStep(frames: seq<Sendable>, rest: seq<byte>)
    requires frames != []
    ensures Items(Stream(frames) + rest) == [frames[0]] + Items(Stream(frames[1..]) + rest)
  {
    var first, others := BuildFrame(frames[0].kind, frames[0].payload), Stream(frames[1..]);
    FirstFrame(frames[0].kind, frames[0].payload, others + rest);
    Prepend(first, others + rest, frames[0]);
    Associate(first, others, rest);
  }

  lemma Glue(x: seq<Item>, y: seq<Item>, z: seq<Item>, frames: seq<Item>)
    requires frames != [] && x == [frames[0]] + y && y == frames[1..] + z
    ensures x == frames + z
  {
  }

  /** Framing inverse: the frames of any list are dispatched in order, and whatever follows them next. */
  lemma {:induction false} FramesAreDispatched(frames: seq<Sendable>, rest: seq<byte>)
    ensures Items(Stream(frames) + rest) == frames + Items(rest)
  {
    if frames == [] {
      assert Stream(frames) + rest == rest;
    } else {
      StreamStep(frames, rest);
      FramesAreDispatched(frames[1..], rest);
      Glue(Items(Stream(frames) + rest), Items(Stream(frames[1..]) + rest), Items(rest), frames);
    }
  }

  /** A well-formed header that the loop refuses: another protocol version, or a payload that is too long. */
  predicate Refused(header: seq<byte>) {
    |header| == HEADER_LEN && Decode(header).Ok?
    && (Decode(header).header.version != VERSION || Decode(header).header.length > MAX_PAYLOAD)
  }

  /** The payload of a refused frame is not skipped: its bytes are read as the next header. */
  lemma RefusedPayloadIsReadAsHeader(header: seq<byte>, tail: seq<byte>)
    requires Refused(header)
    ensures |Items(header + tail)| > 0 && Items(header + tail)[0].Nack? && Items(header + tail)[1..] == Items(tail)
  {
    var stream := header + tail;
    assert stream[4..8] == header[4..8];
    Prepend(header, tail, Next(stream).item);
  }

  /** So the loop stays in step with the sender after a refused frame iff that frame had no payload. */
  lemma InStepIff(header: seq<byte>, payload: seq<byte>)
    requires Refused(header)
    ensures (forall rest :: Items(header + payload + rest)[1..] == Items(rest)) <==> payload == []
  {
    if payload == [] {
      forall rest: seq<byte>
        ensures Items(header + payload + rest)[1..] == Items(rest)
      {
        RefusedPayloadIsReadAsHeader(header, rest);
        assert header + payload == header;
      }
    } else {
      OutOfStep(header, payload);
    }
  }

  lemma OutOfStep(header: seq<byte>, payload: seq<byte>)
    requires Refused(header) && payload != []
    ensures exists rest :: Items(header + payload + rest)[1..] != Items(rest)
  {
    NotBothKinds(payload);
    OutOfStepWith(header, payload, if !StartsFrame(payload + BuildFrame(0, []), 0) then 0 else 1);
  }

  lemma OutOfStepWith(header: seq<byte>, payload: seq<byte>, kind: nat)
    requires Refused(header) && kind < 0x1_0000 && !StartsFrame(payload + BuildFrame(kind, []), kind)
    ensures exists rest :: Items(header + payload + rest)[1..] != Items(rest)
  {
    var rest := BuildFrame(kind, []);
    if Items(header + payload + rest)[1..] == Items(rest) {
      InStepWith(header, payload, kind);
    }
  }

  /** Staying in step with an empty frame means that the refused payload joins up with it to one header. */
  lemma InStepWith(header: seq<byte>, payload: seq<byte>, kind: nat)
    requires Refused(header) && kind < 0x1_0000
    requires Items(header + payload + BuildFrame(kind, []))[1..] == Items(BuildFrame(kind, []))
    ensures StartsFrame(payload + BuildFrame(kind, []), kind)
  {
    var frame := BuildFrame(kind, []);
    OneFrame(kind);
    Associate(header, payload, frame);
    RefusedPayloadIsReadAsHeader(header, payload + frame);
    KindOfFirst(payload + frame, kind);
  }

  lemma OneFrame(kind: nat)
    requires kind < 0x1_0000
    ensures Items(BuildFrame(kind, [])) == [Dispatch(kind, [])]
  {
    FirstFrame(kind, [], []);
    Prepend(BuildFrame(kind, []), [], Dispatch(kind, []));
    assert BuildFrame(kind, []) + [] == BuildFrame(kind, []);
  }

  predicate StartsFrame(stream: seq<byte>, kind: nat) {
    |stream| >= HEADER_LEN && stream[0] == VERSION && stream[1] == INVERSE_VERSION && Word16(stream[2], stream[3]) == kind
  }

  /** A stream whose only item is an empty frame of this kind has the kind in its header. */
  lemma KindOfFirst(stream: seq<byte>, kind: nat)
    requires Items(stream) == [Dispatch(kind, [])]
    ensures StartsFrame(stream, kind)
  {
    var h := Decode(stream).header;
    assert Items(stream)[0].kind == h.kind;
  }

  /** Bytes put in front of two headers of different kinds cannot suit both. */
  lemma NotBothKinds(payload: seq<byte>)
    requires payload != []
    ensures !StartsFrame(payload + BuildFrame(0, []), 0) || !StartsFrame(payload + BuildFrame(1, []), 1)
  {
    var zero, one := payload + BuildFrame(0, []), payload + BuildFrame(1, []);
    assert |payload| >= 3 ==> zero[2] == one[2];
    assert |payload| >= 4 ==> zero[3] == one[3];
    assert |payload| == 3 ==> zero[3] == VERSION;
    assert |payload| == 2 ==> zero[2] == VERSION;
    assert |payload| == 1 ==> zero[1] == VERSION;
  }

  function Flatten(chunks: seq<seq<byte>>): seq<byte> {
    if chunks == [] then [] else chunks[0] + Flatten(chunks[1..])
  }

  /** asyncio's StreamReader: bytes arrive in chunks of any size, and are taken out in exact amounts. */
  class StreamReader {
    var buffer: seq<byte>
    var chunks: seq<seq<byte>>

    constructor (chunks: seq<seq<byte>>)
      ensures Pending() == Flatten(chunks)
    {
      buffer, this.chunks := [], chunks;
    }

    /** All bytes that are still to be read. */
    function Pending(): seq<byte>
      reads this
    {
      buffer + Flatten(chunks)
    }

    /** The next n bytes, or None when the connection ends before that. */
    method ReadExactly(n: nat) returns (data: Option<seq<byte>>)
      modifies this
      ensures n <= |old(Pending())| ==> data == Some(old(Pending())[..n]) && Pending() == old(Pending())[n..]
      ensures n > |old(Pending())| ==> data == None
    {
      while |buffer| < n && chunks != []
        invariant Pending() == old(Pending())
        decreases |chunks|
      {
        assert buffer + Flatten(chunks) == buffer + chunks[0] + Flatten(chunks[1..]);
        buffer, chunks := buffer + chunks[0], chunks[1..];
      }
      if |buffer| < n {
        return None;
      }
      data := Some(buffer[..n]);
      assert Pending()[..n] == buffer[..n] && Pending()[n..] == buffer[n..] + Flatten(chunks);
      buffer := buffer[n..];
    }
  }

  /** One turn of the loop: what it does next, if the connection is not over. */
  method ReadFrame(reader: StreamReader) returns (item: Option<Item>)
    modifies reader
    ensures item.None? ==> Items(old(reader.Pending())) == []
    ensures item.Some? ==> Items(old(reader.Pending())) == [item.value] + Items(reader.Pending())
                           && |reader.Pending()| < |old(reader.Pending())|
  {
    ghost var before := reader.Pending();
    var header := reader.ReadExactly(HEADER_LEN);
    if header.None? {
      return None;
    }
    DecodeLooksAtHeader(before);
    var decoded := Decode(header.value + [0, 0, 0, 0]);
    if !decoded.Ok? {
      return None;
    }
    var h := decoded.header;
    if h.version != VERSION {
      return Some(Nack(NACK_PATTERN));
    }
    if h.length > MAX_PAYLOAD {
      return Some(Nack(NACK_TOO_LARGE));
    }
    var payload := reader.ReadExactly(h.length);
    if payload.None? {
      return None;
    }
    Cut(before, h.length);
    return Some(Dispatch(h.kind, payload.value));
  }

  lemma Cut(stream: seq<byte>, n: nat)
    requires HEADER_LEN + n <= |stream|
    ensures stream[HEADER_LEN..][..n] == stream[HEADER_LEN..HEADER_LEN + n]
    ensures stream[HEADER_LEN..][n..] == stream[HEADER_LEN + n..]
  {
  }

  /** DoIPTCPSession.run: what it does depends on the bytes only, not on how they were cut into chunks. */
  method Run(chunks: seq<seq<byte>>) returns (items: seq<Item>)
    ensures items == Items(Flatten(chunks))
  {
    var reader := new StreamReader(chunks);
    items := [];
    while true
      invariant items + Items(reader.Pending()) == Items(Flatten(chunks))
      decreases |reader.Pending()|
    {
      ghost var before := items;
      var item := ReadFrame(reader);
      if item.None? {
        return;
      }
      items := items + [item.value];
      assert items + Items(reader.Pending()) == before + ([item.value] + Items(reader.Pending()));
    }
  }

  /** The header is decoded on its own, padded by four bytes. */
  lemma DecodeLooksAtHeader(stream: seq<byte>)
    requires |stream| >= HEADER_LEN
    ensures Decode(stream[..HEADER_LEN] + [0, 0, 0, 0]) == Decode(stream)
  {
    assert (stream[..HEADER_LEN] + [0, 0, 0, 0])[4..8] == stream[4..8];
  }
}
