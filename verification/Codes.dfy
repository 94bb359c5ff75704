/** Trouble codes: the two-byte layout of SAE J2012 and the reply decoder of Modes 03, 07 and 0A. */
module Codes {
  import opened Text
  import opened HexText

  type Pair = (byte, byte)

  const PREFIXES: string := "PCBU"

  function EncodeDTC(p: Pair): (code: string)
    ensures |code| == 5
  {
    [PREFIXES[p.0 / 64], '0' + ((p.0 / 16) % 4) as char, HexDigit(p.0 % 16), HexDigit(p.1 / 16), HexDigit(p.1 % 16)]
  }

  /** {P,C,B,U} x {0..3} x three upper-case hex digits */
  predicate IsCode(code: string) {
    && |code| == 5
    && code[0] in PREFIXES
    && '0' <= code[1] <= '3'
    && forall i | 2 <= i < 5 :: '0' <= code[i] <= '9' || 'A' <= code[i] <= 'F'
  }

  function PrefixIndex(c: char): (i: nat)
    requires c in PREFIXES
    ensures i < 4 && PREFIXES[i] == c
  {
    if c == 'P' then 0 else if c == 'C' then 1 else if c == 'B' then 2 else 3
  }

  function ParseDTC(code: string): Pair
    requires IsCode(code)
  {
    (64 * PrefixIndex(code[0]) + 16 * Unhex(code[1]) + Unhex(code[2]), 16 * Unhex(code[3]) + Unhex(code[4]))
  }

  lemma PrefixesDistinct(i: nat)
    requires i < 4
    ensures PrefixIndex(PREFIXES[i]) == i
  {}

  lemma DecimalDigit(n: nat)
    requires n < 10
    ensures '0' as int + n < 128 && Unhex('0' + n as char) == n && ('0' + n as char) as int == '0' as int + n
  {}

  lemma DigitOfUnhex(c: char)
    requires '0' <= c <= '9' || 'A' <= c <= 'F'
    ensures 0 <= Unhex(c) < 16 && HexDigit(Unhex(c)) == c && (c <= '3' ==> Unhex(c) < 4)
  {}

  /** Byte pairs and codes correspond one to one: parsing undoes encoding ... */
  lemma EncodeIsInjective(p: Pair)
    ensures IsCode(EncodeDTC(p)) && ParseDTC(EncodeDTC(p)) == p
  {
    hide PrefixIndex, HexDigit, Unhex;
    PrefixesDistinct(p.0 / 64);
    DecimalDigit((p.0 / 16) % 4);
    assert p.0 / 16 == 4 * (p.0 / 64) + (p.0 / 16) % 4;
  }

  /** ... and every well-formed code is the encoding of some pair. */
  lemma EncodeIsSurjective(code: string)
    requires IsCode(code)
    ensures EncodeDTC(ParseDTC(code)) == code
  {
    hide PrefixIndex, HexDigit, Unhex;
    forall i | 1 <= i < 5 { DigitOfUnhex(code[i]); }
    var (a, b) := ParseDTC(code);
    var i, d := PrefixIndex(code[0]), Unhex(code[1]);
    assert a / 64 == i && (a / 16) % 4 == d && a % 16 == Unhex(code[2]);
    DecimalDigit(d);
    assert Unhex('0' + d as char) == Unhex(code[1]);
    DigitOfUnhex('0' + d as char);
  }

  predicate ServiceByte(b: byte) {
    b == 0x43 || b == 0x47 || b == 0x4A
  }

  /** Codes of consecutive byte pairs; the zero pair is padding and a single last byte is dropped. */
  function PairCodes(raw: seq<byte>): seq<string> {
    if |raw| < 2 then []
    else PairCode(raw[0], raw[1]) + PairCodes(raw[2..])
  }

  function PairCode(a: byte, b: byte): seq<string> {
    if a == 0 && b == 0 then [] else [EncodeDTC((a, b))]
  }

  function DTCs(payload: string): seq<string> {
    var hex := HexChars(Upper(payload));
    var raw := HexBytes(hex);
    if |hex| < 6 || raw == [] then []
    else PairCodes(if ServiceByte(raw[0]) then raw[1..] else raw)
  }

  lemma {:induction false} PairCodesAppendPair(raw: seq<byte>, n: nat, a: byte, b: byte)
    requires |raw| == 2 * n
    ensures PairCodes(raw + [a, b]) == PairCodes(raw) + PairCode(a, b)
  {
    hide PairCode;
    var longer := raw + [a, b];
    if raw == [] {
      assert longer == [a, b] && longer[2..] == [];
    } else {
      PairCodesAppendPair(raw[2..], n - 1, a, b);
      assert longer[2..] == raw[2..] + [a, b] && longer[0] == raw[0] && longer[1] == raw[1];
      Associates(PairCode(raw[0], raw[1]), PairCodes(raw[2..]), PairCode(a, b));
    }
  }

  lemma {:induction false} LastByteDropped(raw: seq<byte>, n: nat)
    requires |raw| == 2 * n + 1
    ensures PairCodes(raw) == PairCodes(raw[..|raw| - 1])
  {
    hide PairCode;
    if |raw| > 1 {
      LastByteDropped(raw[2..], n - 1);
      assert raw[2..][..|raw| - 3] == raw[..|raw| - 1][2..];
    }
  }

  method DecodeDTCs(payload: string) returns (out: seq<string>)
    ensures out == DTCs(payload)
  {
    hide EncodeDTC;
    var hex := FilterHex(Upper(payload));
    if |hex| < 6 { return []; }
    var raw := HexStringToBytes(hex);
    if |raw| == 0 { return []; }
    var i := 0;
    if raw[0] == 0x43 || raw[0] == 0x47 || raw[0] == 0x4A { i := 1; }
    out := CodesFrom(raw, i);
  }

  /** The decoder's pair loop, from byte `start` on. */
  method CodesFrom(raw: seq<byte>, start: nat) returns (out: seq<string>)
    requires start <= |raw|
    ensures out == PairCodes(raw[start..])
  {
    hide EncodeDTC;
    out := [];
    var i := start;
    ghost var n := 0;
    while i + 1 < |raw|
      invariant start <= i == start + 2 * n <= |raw|
      invariant out == PairCodes(raw[start..i])
    {
      var a, b := raw[i], raw[i + 1];
      assert raw[start..i + 2] == raw[start..i] + [a, b];
      PairCodesAppendPair(raw[start..i], n, a, b);
      i, n := i + 2, n + 1;
      if a == 0 && b == 0 { continue; }
      out := out + [EncodeDTC((a, b))];
    }
    if i < |raw| {
      LastByteDropped(raw[start..], n);
      assert raw[start..][..|raw[start..]| - 1] == raw[start..i];
    } else {
      assert raw[start..] == raw[start..i];
    }
  }

  // ---------------------------------------------------------------- round trip

  function Flat(pairs: seq<Pair>): seq<byte> {
    if pairs == [] then [] else [pairs[0].0, pairs[0].1] + Flat(pairs[1..])
  }

  function NonZero(pairs: seq<Pair>): seq<Pair> {
    if pairs == [] then []
    else (if pairs[0] == (0, 0) then [] else [pairs[0]]) + NonZero(pairs[1..])
  }

  function Encoded(pairs: seq<Pair>): (codes: seq<string>)
    ensures |codes| == |pairs|
  {
    seq(|pairs|, i requires 0 <= i < |pairs| => EncodeDTC(pairs[i]))
  }

  /** The bytes two by two, the zero pairs included. */
  function Paired(raw: seq<byte>): seq<Pair> {
    if |raw| < 2 then [] else [(raw[0], raw[1])] + Paired(raw[2..])
  }

  lemma {:induction false} PairCodesAreEncoded(raw: seq<byte>)
    ensures PairCodes(raw) == Encoded(NonZero(Paired(raw)))
  {
    hide EncodeDTC;
    if |raw| >= 2 {
      var p := (raw[0], raw[1]);
      PairCodesAreEncoded(raw[2..]);
      assert Paired(raw)[1..] == Paired(raw[2..]);
      if p != (0, 0) { assert Encoded([p] + NonZero(Paired(raw[2..]))) == [EncodeDTC(p)] + PairCodes(raw[2..]); }
    }
  }

  lemma {:induction false} FlatPairsUp(pairs: seq<Pair>)
    ensures Paired(Flat(pairs)) == pairs && |Flat(pairs)| == 2 * |pairs|
  {
    if pairs != [] {
      FlatPairsUp(pairs[1..]);
      assert Flat(pairs)[2..] == Flat(pairs[1..]);
    }
  }

  /** A reply that prints a service byte and then pairs decodes to the codes of its nonzero pairs, in order,
      wherever the zero padding sits and whatever separates the digits. */
  lemma DtcRoundTrip(text: string, service: byte, pairs: seq<Pair>)
    requires ServiceByte(service) && pairs != [] && Prints(text, [service] + Flat(pairs))
    ensures DTCs(text) == Encoded(NonZero(pairs))
    ensures forall i | 0 <= i < |DTCs(text)| :: IsCode(DTCs(text)[i]) && ParseDTC(DTCs(text)[i]) == NonZero(pairs)[i]
  {
    PrintedBytesReadBack(text, [service] + Flat(pairs));
    FlatPairsUp(pairs);
    PairCodesAreEncoded(Flat(pairs));
    assert ([service] + Flat(pairs))[1..] == Flat(pairs);
    forall i | 0 <= i < |DTCs(text)| ensures IsCode(DTCs(text)[i]) && ParseDTC(DTCs(text)[i]) == NonZero(pairs)[i] {
      EncodeIsInjective(NonZero(pairs)[i]);
    }
  }

  /** What a byte's two hex digits add up to. */
  function NibbleSum(b: byte): nat {
    b / 16 + b % 16
  }

  function ByteSum(raw: seq<byte>): nat {
    if raw == [] then 0 else NibbleSum(raw[0]) + ByteSum(raw[1..])
  }

  function PairSum(pairs: seq<Pair>): nat {
    if pairs == [] then 0 else NibbleSum(pairs[0].0) + NibbleSum(pairs[0].1) + PairSum(pairs[1..])
  }

  lemma {:induction false} ZeroPairsAddNothing(pairs: seq<Pair>)
    ensures PairSum(NonZero(pairs)) == PairSum(pairs)
  {
    if pairs != [] {
      ZeroPairsAddNothing(pairs[1..]);
      if pairs[0] == (0, 0) { assert NonZero(pairs) == NonZero(pairs[1..]); }
      else { assert NonZero(pairs)[1..] == NonZero(pairs[1..]); }
    }
  }

  /** Pairing up never gains: the pairs add up to at most the bytes. */
  lemma {:induction false} PairedSum(raw: seq<byte>)
    ensures PairSum(Paired(raw)) <= ByteSum(raw) && (|raw| % 2 == 0 ==> PairSum(Paired(raw)) == ByteSum(raw))
  {
    if |raw| >= 2 {
      PairedSum(raw[2..]);
      assert raw[1..][1..] == raw[2..] && Paired(raw)[1..] == Paired(raw[2..]);
    }
  }

  /** Bytes that add up to less than some pairs do not decode to those pairs. */
  lemma LighterBytesDiffer(raw: seq<byte>, pairs: seq<Pair>)
    requires ByteSum(raw) < PairSum(pairs)
    ensures PairCodes(raw) != Encoded(NonZero(pairs))
  {
    hide EncodeDTC, PairCodes, Encoded, NonZero;
    PairCodesAreEncoded(raw);
    ZeroPairsAddNothing(pairs);
    ZeroPairsAddNothing(Paired(raw));
    PairedSum(raw);
    if Encoded(NonZero(Paired(raw))) == Encoded(NonZero(pairs)) {
      EncodedIsInjective(NonZero(Paired(raw)), NonZero(pairs));
    }
  }

  lemma EncodedIsInjective(ps: seq<Pair>, qs: seq<Pair>)
    requires Encoded(ps) == Encoded(qs)
    ensures ps == qs
  {
    hide EncodeDTC;
    assert |ps| == |Encoded(ps)| == |qs|;
    forall i | 0 <= i < |ps| ensures ps[i] == qs[i] {
      assert EncodeDTC(ps[i]) == Encoded(ps)[i] == EncodeDTC(qs[i]);
      EncodeIsInjective(ps[i]);
      EncodeIsInjective(qs[i]);
    }
  }

  /** Read from its second byte on, a list of pairs gives different codes: they stand for less. */
  lemma ShiftedPairsDiffer(pairs: seq<Pair>)
    requires pairs != [] && pairs[0].0 > 0
    ensures PairCodes(Flat(pairs)[1..]) != Encoded(NonZero(pairs))
  {
    hide EncodeDTC, PairCodes, Encoded, NonZero, Paired;
    FlatPairsUp(pairs);
    PairedSum(Flat(pairs));
    FlatFirst(pairs);
    SumOfRest(Flat(pairs));
    LighterBytesDiffer(Flat(pairs)[1..], pairs);
  }

  lemma SumOfRest(raw: seq<byte>)
    requires raw != [] && raw[0] > 0
    ensures ByteSum(raw[1..]) < ByteSum(raw)
  {}

  /** A reply with the service byte left out.  One pair alone is always lost, unless it is padding.  More decode to
      their codes exactly when the first byte is not one of 43, 47, 4A -- that is, when the first code is not C03xx,
      C07xx or C0Axx.  Otherwise that byte is taken for the header, every later pair is misread, and the result is
      never the right list. */
  lemma HeaderlessDecodesIff(text: string, pairs: seq<Pair>)
    requires Prints(text, Flat(pairs))
    ensures DTCs(text) == Encoded(NonZero(pairs))
            <==> if |pairs| < 2 then pairs == [] || pairs[0] == (0, 0) else !ServiceByte(pairs[0].0)
  {
    hide EncodeDTC, Prints, DTCs, PairCodes, Encoded, NonZero, Flat;
    HeaderlessReads(text, pairs);
    PairCodesAreEncoded(Flat(pairs));
    FlatPairsUp(pairs);
    if |pairs| < 2 {
      LonePairIsPaddingIff(pairs);
    } else if ServiceByte(pairs[0].0) {
      ShiftedPairsDiffer(pairs);
    }
  }

  /** What the decoder reads when there is no service byte. */
  lemma HeaderlessReads(text: string, pairs: seq<Pair>)
    requires Prints(text, Flat(pairs))
    ensures DTCs(text) == if |pairs| < 2 then []
            else PairCodes(if ServiceByte(pairs[0].0) then Flat(pairs)[1..] else Flat(pairs))
  {
    hide Prints, PairCodes, HexChars, HexBytes, Flat, Paired, ServiceByte;
    PrintedBytesReadBack(text, Flat(pairs));
    FlatPairsUp(pairs);
    if pairs != [] { FlatFirst(pairs); }
  }

  lemma FlatFirst(pairs: seq<Pair>)
    requires pairs != []
    ensures Flat(pairs) != [] && Flat(pairs)[0] == pairs[0].0
  {}

  lemma LonePairIsPaddingIff(pairs: seq<Pair>)
    requires |pairs| < 2
    ensures Encoded(NonZero(pairs)) == [] <==> pairs == [] || pairs[0] == (0, 0)
  {
    hide EncodeDTC;
    assert |Encoded(NonZero(pairs))| == |NonZero(pairs)|;
    if pairs != [] { assert pairs == [pairs[0]] && pairs[1..] == []; }
  }
}
