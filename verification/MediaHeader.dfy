/** Generic DoIP header of the media node (MEDIA/doip/header.py; ISO 13400-2, section 9.2). */
module MediaHeader {
  import opened Bytes

  const VERSION := 0x02
  const INVERSE_VERSION := 0xFD
  const HEADER_LEN := 8

  datatype Header = Header(version: byte, kind: nat, length: nat)

  datatype Decoded = Ok(header: Header) | TooShort | InverseMismatch

  predicate Encodable(h: Header) { h.kind < 0x1_0000 && h.length < 0x1_0000_0000 }

  /** The inverse version is a constant, whatever the version; kind and length are most significant byte first. */
  function Encode(h: Header): (r: seq<byte>)
    requires Encodable(h)
    ensures |r| == HEADER_LEN
  {
    [h.version, INVERSE_VERSION] + BigEndian16(h.kind) + BigEndian32(h.length)
  }

  function Decode(data: seq<byte>): Decoded {
    if |data| < HEADER_LEN then TooShort
    else if data[1] != 0xFF - data[0] then InverseMismatch
    else Ok(Header(data[0], Word16(data[2], data[3]), Word32(data[4..8])))
  }

  function BuildFrame(kind: nat, payload: seq<byte>): seq<byte>
    requires kind < 0x1_0000 && |payload| < 0x1_0000_0000
  {
    Encode(Header(VERSION, kind, |payload|)) + payload
  }

  /** Header and payload; a payload that is cut off is returned as far as it goes. */
  function ParseFrame(data: seq<byte>): (r: (Decoded, seq<byte>)) {
    var d := Decode(data);
    if !d.Ok? then (d, [])
    else
      var end := HEADER_LEN + d.header.length;
      (d, if end <= |data| then data[HEADER_LEN..end] else data[HEADER_LEN..])
  }

  /** The fields by their places, most significant byte first. */
  lemma HeaderBytes(h: Header)
    requires Encodable(h)
    ensures var r := Encode(h);
            && r[0] == h.version && r[1] == 0xFD && Word16(r[2], r[3]) == h.kind
            && Word16(r[4], r[5]) * 0x1_0000 + Word16(r[6], r[7]) == h.length
  {
    Word32RoundTrip(h.length);
    var r := BigEndian32(h.length);
    assert r[0] == Encode(h)[4] && r[1] == Encode(h)[5] && r[2] == Encode(h)[6] && r[3] == Encode(h)[7];
    hide BigEndian32;
  }

  /** Decoding inverts encoding for version 2, and rejects every other version the encoder writes. */
  lemma DecodeEncodeIff(h: Header, rest: seq<byte>)
    requires Encodable(h)
    ensures h.version == VERSION ==> Decode(Encode(h) + rest) == Ok(h)
    ensures h.version != VERSION ==> Decode(Encode(h) + rest) == InverseMismatch
  {
    var data := Encode(h) + rest;
    assert data[4..8] == BigEndian32(h.length);
    Word32RoundTrip(h.length);
  }

  lemma ParseBuilt(kind: nat, payload: seq<byte>, rest: seq<byte>)
    requires kind < 0x1_0000 && |payload| < 0x1_0000_0000
    ensures ParseFrame(BuildFrame(kind, payload) + rest) == (Ok(Header(VERSION, kind, |payload|)), payload)
  {
    var h := Header(VERSION, kind, |payload|);
    assert BuildFrame(kind, payload) + rest == Encode(h) + (payload + rest);
    DecodeEncodeIff(h, payload + rest);
  }
}
