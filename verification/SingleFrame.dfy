/**
 Single frames of the diagnostic transport (ISO 15765-2:2016, section 9.6.2): a length in
 the low nibble of the first byte, the payload, and zero padding.
 */
module SingleFrame {
  import opened Bytes

  function ZeroPad(s: seq<byte>, n: nat): (r: seq<byte>)
    requires |s| <= n
    ensures |r| == n
  {
    s + Zeros(n - |s|)
  }

  /** ACT fills frames of 12 bytes as well, still with the length in the low nibble. */
  function Pack(uds: seq<byte>, size: nat): (data: seq<byte>)
    requires 1 <= |uds| <= 15 && |uds| < size
    ensures |data| == size
  {
    ZeroPad([|uds|] + uds, size)
  }

  /** How ACT and BODY read a request frame; None when it is not a single frame of 1 to 7 bytes. */
  function ParseRequest(data: seq<byte>): (r: Option<seq<byte>>)
    requires |data| == 8
    ensures r.Some? ==> 1 <= |r.value| <= 7
  {
    var len := data[0] % 16;
    if data[0] / 16 != 0 || len == 0 || len > 7 then None else Some(data[1..1 + len])
  }

  /** How the gateway reads a response frame. */
  function ParseResponse(data: seq<byte>): Option<seq<byte>> {
    if data == [] || data[0] / 16 != 0 || data[0] % 16 > |data| - 1 then None
    else Some(data[1..1 + data[0] % 16])
  }

  lemma PackedIsRead(uds: seq<byte>, size: nat)
    requires 1 <= |uds| <= 15 && |uds| < size
    ensures ParseResponse(Pack(uds, size)) == Some(uds)
    ensures size == 8 ==> ParseRequest(Pack(uds, size)) == Some(uds)
  {
    var data := Pack(uds, size);
    assert data[1..1 + |uds|] == uds;
  }
}
