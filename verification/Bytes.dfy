/** Bytes, and the CAN FD frames exchanged by the ECUs. */
module Bytes {
  type byte = x: int | 0 <= x < 256

  datatype Option<+T> = None | Some(value: T)

  /** dlc is the data length code on the wire; data holds the bytes the receiving driver reads. */
  datatype CanFrame = CanFrame(id: nat, fd: bool, dlc: nat, data: seq<byte>)

  /** A frame as it stands in a receive buffer of ACT or BODY: 8 bytes, whatever its length. */
  type RxFrame = f: CanFrame | |f.data| == 8 witness CanFrame(0, true, 8, [0, 0, 0, 0, 0, 0, 0, 0])

  function Zeros(n: nat): (s: seq<byte>)
    ensures |s| == n
  {
    seq(n, _ => 0)
  }

  function BigEndian16(v: nat): seq<byte>
    requires v < 0x1_0000
  {
    [v / 256, v % 256]
  }

  function Word16(hi: byte, lo: byte): nat { hi * 256 + lo }

  function BigEndian32(v: nat): seq<byte>
    requires v < 0x1_0000_0000
  {
    [v / 0x100_0000, v / 0x1_0000 % 0x100, v / 0x100 % 0x100, v % 0x100]
  }

  function Word32(s: seq<byte>): nat
    requires |s| == 4
  {
    Word16(s[0], s[1]) * 0x1_0000 + Word16(s[2], s[3])
  }

  lemma Word32RoundTrip(v: nat)
    requires v < 0x1_0000_0000
    ensures Word32(BigEndian32(v)) == v
  {
    var hi, lo := v / 0x1_0000, v % 0x1_0000;
    assert v / 0x100_0000 == hi / 0x100 && v / 0x100 % 0x100 == lo / 0x100 && v % 0x100 == lo % 0x100;
    assert Word16(hi / 0x100, hi % 0x100) == hi && Word16(lo / 0x100, lo % 0x100) == lo;
  }
}
