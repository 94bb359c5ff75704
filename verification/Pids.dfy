/** Mode 01 replies: finding the data bytes, and the scalings of SAE J1979 Appendix B on exact rationals. */
module Pids {
  import opened Common
  import opened HexText

  const REPLY: byte := 0x41

  /** The data after the first 41 that still has a PID and one byte behind it; without one, all but two bytes. */
  function PayloadOf(raw: seq<byte>, i: nat): seq<byte>
    requires i <= |raw|
    decreases |raw| - i
  {
    if i + 2 < |raw| then if raw[i] == REPLY then raw[i + 2..] else PayloadOf(raw, i + 1)
    else if |raw| >= 3 then raw[2..]
    else raw
  }

  function Payload(resp: string): seq<byte> {
    var hex := HexChars(resp);
    if |hex| < 6 then [] else PayloadOf(HexBytes(hex), 0)
  }

  method DecodePayload(resp: string) returns (data: seq<byte>)
    ensures data == Payload(resp)
  {
    hide HexBytes, HexChars;
    var hex := FilterHex(resp);
    if |hex| < 6 { return []; }
    var raw := HexStringToBytes(hex);
    var i := 0;
    while i + 2 < |raw|
      invariant 0 <= i <= |raw|
      invariant PayloadOf(raw, 0) == PayloadOf(raw, i)
    {
      if raw[i] == 0x41 { return raw[i + 2..]; }
      i := i + 1;
    }
    return if |raw| >= 3 then raw[2..] else raw;
  }

  /** What a positive reply carries is what comes back, even when the PID or the data contain 41. */
  lemma PayloadRoundTrip(resp: string, pid: byte, data: seq<byte>)
    requires data != [] && Prints(resp, [REPLY, pid] + data)
    ensures Payload(resp) == data
  {
    PrintedBytesReadBack(resp, [REPLY, pid] + data);
  }

  // ---------------------------------------------------------------- scalar decoders

  datatype Quantity = Rpm | Whole | Percent | Temperature | AirFlow | Trim | Oxygen | Voltage

  function Width(q: Quantity): nat {
    if q.Rpm? || q.AirFlow? || q.Voltage? then 2 else 1
  }

  function Value(q: Quantity, raw: nat): real {
    match q
    case Rpm => raw as real / 4.0
    case Whole => raw as real
    case Percent => raw as real * 100.0 / 255.0
    case Temperature => raw as real - 40.0
    case AirFlow => raw as real / 100.0
    case Trim => raw as real / 1.28 - 100.0
    case Oxygen => raw as real / 200.0
    case Voltage => raw as real / 1000.0
  }

  function Word(hi: byte, lo: byte): nat {
    var high: int := hi;
    high * 256 + lo
  }

  /** decodeRPM, decodeByte (scale 1), decodePct, decodeTemp, decodeMAF, decodeTrim, decodeO2, decodeVoltage. */
  function Decode(q: Quantity, resp: string): Option<real> {
    var d := Payload(resp);
    if |d| < Width(q) then None
    else if Width(q) == 2 then Some(Value(q, Word(d[0], d[1])))
    else Some(Value(q, d[0]))
  }

  /** The raw count a value was scaled from. */
  function Count(q: Quantity, v: real): int {
    match q
    case Rpm => (v * 4.0).Floor
    case Whole => v.Floor
    case Percent => (v * 255.0 / 100.0).Floor
    case Temperature => (v + 40.0).Floor
    case AirFlow => (v * 100.0).Floor
    case Trim => ((v + 100.0) * 1.28).Floor
    case Oxygen => (v * 200.0).Floor
    case Voltage => (v * 1000.0).Floor
  }

  function Most(q: Quantity): nat {
    if Width(q) == 2 then 65535 else 255
  }

  lemma CountUndoesValue(q: Quantity, raw: nat)
    ensures Count(q, Value(q, raw)) == raw
  {
    match q
    case Percent => assert raw as real * 100.0 / 255.0 * 255.0 / 100.0 == raw as real;
    case Trim => assert (raw as real / 1.28 - 100.0 + 100.0) * 1.28 == raw as real;
    case _ =>
  }

  function BigEndian(q: Quantity, raw: nat): seq<byte>
    requires raw <= Most(q)
  {
    if Width(q) == 2 then [raw / 256, raw % 256] else [raw]
  }

  /** The value a count stands for is decoded from any print of its reply, and gives the count back. */
  lemma ReadingRoundTrip(q: Quantity, resp: string, pid: byte, raw: nat, rest: seq<byte>)
    requires raw <= Most(q) && Prints(resp, [REPLY, pid] + (BigEndian(q, raw) + rest))
    ensures Decode(q, resp) == Some(Value(q, raw)) && Count(q, Decode(q, resp).value) == raw
  {
    var data := BigEndian(q, raw) + rest;
    PayloadRoundTrip(resp, pid, data);
    CountUndoesValue(q, raw);
  }

  function Lowest(q: Quantity): real {
    match q
    case Temperature => -40.0
    case Trim => -100.0
    case _ => 0.0
  }

  function Highest(q: Quantity): real {
    match q
    case Rpm => 16383.75
    case Whole => 255.0
    case Percent => 100.0
    case Temperature => 215.0
    case AirFlow => 655.35
    case Trim => 99.21875
    case Oxygen => 1.275
    case Voltage => 65.535
  }

  /** A decoder's results are exactly the scaled counts from 0 up to the widest count: nothing else comes out
      of any reply, each of them does come out of one, and the ends of the range are as listed. */
  lemma DecodedValuesAreScaledCounts(q: Quantity, v: real)
    ensures (exists resp :: Decode(q, resp) == Some(v)) <==> (exists raw: nat :: raw <= Most(q) && v == Value(q, raw))
    ensures (exists resp :: Decode(q, resp) == Some(v)) ==> Lowest(q) <= v <= Highest(q)
    ensures Value(q, 0) == Lowest(q) && Value(q, Most(q)) == Highest(q)
  {
    if resp :| Decode(q, resp) == Some(v) {
      var d := Payload(resp);
      var raw: nat := if Width(q) == 2 then Word(d[0], d[1]) else d[0];
      assert raw <= Most(q) && v == Value(q, raw);
    }
    if raw: nat :| raw <= Most(q) && v == Value(q, raw) {
      var bytes := [REPLY, 0] + (BigEndian(q, raw) + []);
      var resp := EveryBytesHaveAPrint(bytes, seq(2 * |bytes| + 1, _ => " "));
      ReadingRoundTrip(q, resp, 0, raw, []);
    }
  }
}
