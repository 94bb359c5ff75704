/** Code replies of other shapes than a service byte followed by pairs: what the decoder makes of a count byte, of a
    second header, and of other text. */
module Frames {
  import opened Codes
  import opened HexText
  import opened Text

  // ---------------------------------------------------------------- counted and repeated frames

  ghost predicate AllSame(pairs: seq<Pair>, n: byte) {
    forall p | p in pairs :: p == (n, n)
  }

  lemma {:induction false} FlatAppend(a: seq<Pair>, b: seq<Pair>)
    ensures Flat(a + b) == Flat(a) + Flat(b)
  {
    if a == [] {
      assert a + b == b;
    } else {
      FlatAppend(a[1..], b);
      assert (a + b)[1..] == a[1..] + b;
    }
  }

  /** One byte in front shifts every pair by one place: paired up, each pair's first byte goes to the pair before. */
  lemma {:induction false} ShiftedPairing(n: byte, pairs: seq<Pair>)
    ensures |Paired([n] + Flat(pairs))| == |pairs|
    ensures forall i | 0 <= i < |pairs| ::
              Paired([n] + Flat(pairs))[i] == (if i == 0 then n else pairs[i - 1].1, pairs[i].0)
    decreases |pairs|
  {
    if pairs != [] {
      var raw := [n] + Flat(pairs);
      assert raw[2..] == [pairs[0].1] + Flat(pairs[1..]);
      ShiftedPairing(pairs[0].1, pairs[1..]);
      assert Paired(raw) == [(n, pairs[0].0)] + Paired(raw[2..]);
    }
  }

  lemma {:induction false} NonZeroKeepsLength(pairs: seq<Pair>)
    ensures |NonZero(pairs)| <= |pairs| && (|NonZero(pairs)| == |pairs| ==> NonZero(pairs) == pairs)
  {
    if pairs != [] { NonZeroKeepsLength(pairs[1..]); }
  }

  lemma {:induction false} ShiftedSameIff(n: byte, pairs: seq<Pair>, i: nat)
    requires Paired([n] + Flat(pairs)) == pairs && i < |pairs|
    ensures pairs[i] == (n, n)
  {
    ShiftedPairing(n, pairs);
    if i > 0 { ShiftedSameIff(n, pairs, i - 1); }
  }

  /** Pairs read with one more byte in front give their own codes exactly when every byte is that byte. */
  lemma ByteInFrontIff(n: byte, pairs: seq<Pair>)
    requires NonZero(pairs) == pairs
    ensures PairCodes([n] + Flat(pairs)) == Encoded(pairs) <==> AllSame(pairs, n)
  {
    hide EncodeDTC, Encoded, PairCodes;
    var shifted := Paired([n] + Flat(pairs));
    PairCodesAreEncoded([n] + Flat(pairs));
    ShiftedPairing(n, pairs);
    NonZeroKeepsLength(shifted);
    if Encoded(NonZero(shifted)) == Encoded(pairs) {
      EncodedIsInjective(NonZero(shifted), pairs);
      forall i | 0 <= i < |pairs| ensures pairs[i] == (n, n) { ShiftedSameIff(n, pairs, i); }
    }
    if AllSame(pairs, n) {
      forall i | 0 <= i < |pairs| ensures shifted[i] == pairs[i] {
        assert pairs[i] in pairs && (i > 0 ==> pairs[i - 1] in pairs);
      }
      assert shifted == pairs;
    }
  }

  /** A reply in the form of ISO 15765-4, with a count byte between service byte and codes, decodes to its codes exactly
      when every code's two bytes are that count. */
  lemma CountedDecodesIff(text: string, service: byte, n: byte, pairs: seq<Pair>)
    requires ServiceByte(service) && NonZero(pairs) == pairs && Prints(text, [service, n] + Flat(pairs))
    ensures DTCs(text) == Encoded(pairs) <==> AllSame(pairs, n)
  {
    hide EncodeDTC, Prints, PairCodes, Encoded, NonZero, Flat, HexBytes, HexChars;
    PrintedBytesReadBack(text, [service, n] + Flat(pairs));
    assert ([service, n] + Flat(pairs))[1..] == [n] + Flat(pairs);
    FlatPairsUp(pairs);
    ByteInFrontIff(n, pairs);
    if pairs == [] { LonePairIsPaddingIff(pairs); }
  }

  /** So with the true count, and no code stored twice, only a sole P0101 (and an empty memory) comes through. */
  lemma TrueCountDecodesIff(text: string, service: byte, pairs: seq<Pair>)
    requires ServiceByte(service) && NonZero(pairs) == pairs && |pairs| < 256
    requires forall i, j | 0 <= i < j < |pairs| :: pairs[i] != pairs[j]
    requires Prints(text, [service, |pairs|] + Flat(pairs))
    ensures DTCs(text) == Encoded(pairs) <==> pairs == [] || pairs == [(1, 1)]
  {
    hide DTCs, Encoded, NonZero, Flat, Prints;
    CountedDecodesIff(text, service, |pairs|, pairs);
    if AllSame(pairs, |pairs|) {
      SameFromTheStart(pairs, |pairs|);
      if |pairs| == 1 { assert pairs == [(1, 1)]; }
    }
    if pairs == [(1, 1)] { assert AllSame(pairs, 1); }
  }

  lemma SameFromTheStart(pairs: seq<Pair>, n: byte)
    requires AllSame(pairs, n)
    ensures |pairs| >= 1 ==> pairs[0] == (n, n)
    ensures |pairs| >= 2 ==> pairs[0] == pairs[1]
  {
    forall i | 0 <= i < |pairs| ensures pairs[i] == (n, n) { assert pairs[i] in pairs; }
  }

  /** Two codes counted: P0133 and P0171 are read as P0201 and P3301. */
  lemma TwoCountedCodes()
    ensures DTCs("430201330171") == ["P0201", "P3301"] && Encoded([(0x01, 0x33), (0x01, 0x71)]) == ["P0133", "P0171"]
  {
    hide DTCs, Prints, PairCodes, Spells;
    var raw: seq<byte> := [2, 0x01, 0x33, 0x01, 0x71];
    CountedPrint();
    PrintedPlainly("430201330171", [0x43] + raw);
    CountedReads("430201330171", 0x43, raw);
    CountedCodes(raw);
    assert EncodeDTC((0x01, 0x33)) == "P0133" && EncodeDTC((0x01, 0x71)) == "P0171";
  }

  lemma CountedPrint()
    ensures Spells("430201330171", [0x43] + [2, 0x01, 0x33, 0x01, 0x71])
  {}

  lemma CountedCodes(raw: seq<byte>)
    requires raw == [2, 0x01, 0x33, 0x01, 0x71]
    ensures PairCodes(raw) == ["P0201", "P3301"]
  {
    assert raw[2..] == [0x33, 0x01, 0x71] && raw[2..][2..] == [0x71];
    assert EncodeDTC((2, 0x01)) == "P0201" && EncodeDTC((0x33, 0x01)) == "P3301";
    assert PairCodes([0x71]) == [];
    assert PairCodes(raw[2..]) == ["P3301"];
  }

  lemma CountedReads(text: string, service: byte, raw: seq<byte>)
    requires ServiceByte(service) && |raw| >= 2 && Prints(text, [service] + raw)
    ensures DTCs(text) == PairCodes(raw)
  {
    hide Prints, PairCodes, HexBytes, HexChars;
    PrintedBytesReadBack(text, [service] + raw);
    assert ([service] + raw)[1..] == raw;
  }

  lemma {:induction false} PairCodesAppend(pairs: seq<Pair>, raw: seq<byte>)
    ensures PairCodes(Flat(pairs) + raw) == PairCodes(Flat(pairs)) + PairCodes(raw)
  {
    hide PairCode;
    if pairs == [] {
      assert Flat(pairs) + raw == raw;
    } else {
      var p := pairs[0];
      PairCodesAppend(pairs[1..], raw);
      var flat := Flat(pairs);
      assert flat[2..] == Flat(pairs[1..]) && flat[0] == p.0 && flat[1] == p.1;
      assert (flat + raw)[2..] == flat[2..] + raw && (flat + raw)[0] == p.0 && (flat + raw)[1] == p.1;
      Associates(PairCode(p.0, p.1), PairCodes(flat[2..]), PairCodes(raw));
    }
  }

  /** A second frame with its own service byte decodes only if all its bytes are service bytes: the header is stripped
      once. */
  lemma RepeatedHeaderDecodesIff(text: string, service: byte, first: seq<Pair>, second: seq<Pair>)
    requires ServiceByte(service) && first != [] && NonZero(second) == second
    requires Prints(text, [service] + (Flat(first) + ([service] + Flat(second))))
    ensures DTCs(text) == Encoded(NonZero(first)) + Encoded(second) <==> AllSame(second, service)
  {
    hide EncodeDTC, Prints, PairCodes, Encoded, NonZero, Flat, DTCs;
    FlatPairsUp(first);
    CountedReads(text, service, Flat(first) + ([service] + Flat(second)));
    PairCodesAppend(first, [service] + Flat(second));
    PairCodesAreEncoded(Flat(first));
    ByteInFrontIff(service, second);
    var a := Encoded(NonZero(first));
    assert (a + PairCodes([service] + Flat(second)))[|a|..] == PairCodes([service] + Flat(second));
    assert (a + Encoded(second))[|a|..] == Encoded(second);
  }

  /** "SEARCHING...NO DATA" has six hex digits, EACDAA, and reads as a code. */
  lemma SearchingReadsAsCode()
    ensures DTCs("SEARCHING...NO DATA") == ["U2ACD"]
  {
    hide DTCs, PairCodes, Spells;
    SearchingDigits();
    SearchingCode();
    DigitsRead("SEARCHING...NO DATA", "EACDAA", [0xEA, 0xCD, 0xAA]);
  }

  /** What the decoder makes of any text, by its digits. */
  lemma DigitsRead(text: string, digits: string, bytes: seq<byte>)
    requires HexChars(text) == digits && Spells(digits, bytes) && |bytes| >= 3 && !ServiceByte(bytes[0])
    ensures DTCs(text) == PairCodes(bytes)
  {
    hide HexChars, HexBytes, PairCodes, Spells;
    UpperKeepsDigits(text);
    UpperKeepsBytes(digits);
    DigitsReadBack(digits, bytes);
  }

  lemma SearchingCode()
    ensures PairCodes([0xEA, 0xCD, 0xAA]) == ["U2ACD"] && Spells("EACDAA", [0xEA, 0xCD, 0xAA])
  {
    var raw: seq<byte> := [0xEA, 0xCD, 0xAA];
    assert raw[2..] == [0xAA] && EncodeDTC((0xEA, 0xCD)) == "U2ACD";
  }

  lemma SearchingDigits()
    ensures HexChars("SEARCHING...NO DATA") == "EACDAA"
  {
    hide HexChars;
    NoDataDigits();
    Chunk("S", "EA", "RCHING...NO DATA");
    Chunk("R", "C", "HING...NO DATA");
    assert "S" + "EA" + "RCHING...NO DATA" == "SEARCHING...NO DATA";
    assert "R" + "C" + "HING...NO DATA" == "RCHING...NO DATA";
    assert "EA" + ("C" + "DAA") == "EACDAA";
  }

  lemma NoDataDigits()
    ensures HexChars("HING...NO DATA") == "DAA"
  {
    hide HexChars;
    Chunk("HING...NO ", "DA", "TA");
    Chunk("T", "A", "");
    assert "HING...NO " + "DA" + "TA" == "HING...NO DATA" && "T" + "A" + "" == "TA";
    SeparatorVanishes("");
    assert "DA" + ("A" + "") == "DAA";
  }

  lemma Chunk(separator: string, digits: string, rest: string)
    requires NoHex(separator) && AllHex(digits)
    ensures HexChars(separator + digits + rest) == digits + HexChars(rest)
  {
    hide HexChars, IsHex;
    HexCharsAppend(separator + digits, rest);
    HexCharsAppend(separator, digits);
    SeparatorVanishes(separator);
    HexCharsOfHex(digits);
    assert "" + digits == digits;
  }
}
