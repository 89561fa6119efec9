/**
 A tester's reading of UDS responses (ISO 14229-1), made without looking at how the ECUs
 build them.
 */
module UdsReader {
  import opened Bytes
  import opened SingleFrame

  datatype CodeRecord = CodeRecord(code: nat, status: byte)

  datatype Reading =
    | Refusal(service: byte, code: byte)
    | Session(session: byte)
    | Data(identifier: nat, value: seq<byte>)
    | Codes(mask: byte, records: seq<CodeRecord>)
    | Cleared
    | RoutineDone(routine: nat, result: byte)
    | Unreadable

  function Read(r: seq<byte>): Reading {
    if |r| == 3 && r[0] == 0x7F then Refusal(r[1], r[2])
    else if |r| == 6 && r[0] == 0x50 then Session(r[1])
    else if |r| >= 3 && r[0] == 0x62 then Data(Word16(r[1], r[2]), r[3..])
    else if |r| >= 3 && r[0] == 0x59 && r[1] == 0x0A && (|r| - 3) % 4 == 0 then Codes(r[2], Records(r[3..]))
    else if r == [0x54] then Cleared
    else if |r| == 5 && r[0] == 0x71 && r[1] == 0x01 then RoutineDone(Word16(r[2], r[3]), r[4])
    else Unreadable
  }

  function Code(high: byte, middle: byte, low: byte): nat { Word16(high, middle) * 0x100 + low }

  function Records(r: seq<byte>): seq<CodeRecord>
    requires |r| % 4 == 0
  {
    if r == [] then []
    else [CodeRecord(Code(r[0], r[1], r[2]), r[3])] + Records(r[4..])
  }

  /** The reading of a response frame. */
  function ReadFrame(f: CanFrame): Reading {
    match ParseResponse(f.data)
    case None => Unreadable
    case Some(payload) => Read(payload)
  }

  /** A 16-bit word, most significant byte first. */
  function Value(v: seq<byte>): nat
    requires |v| == 2
  {
    Word16(v[0], v[1])
  }

  lemma OneRecord(r: seq<byte>)
    requires |r| == 4
    ensures Records(r) == [CodeRecord(Code(r[0], r[1], r[2]), r[3])]
  {
    assert Records(r[4..]) == [];
  }

  lemma TwoRecords(r: seq<byte>)
    requires |r| == 8
    ensures Records(r) == [CodeRecord(Code(r[0], r[1], r[2]), r[3]),
                           CodeRecord(Code(r[4], r[5], r[6]), r[7])]
  {
    OneRecord(r[4..]);
  }
}
