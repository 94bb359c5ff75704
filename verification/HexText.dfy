/** Hex text from the adapter: what the decoders keep of it, and the bytes they read out of it. */
module HexText {
  import opened Text

  type byte = x: int | 0 <= x < 256

  predicate IsHex(c: char) {
    '0' <= c <= '9' || 'A' <= c <= 'F' || 'a' <= c <= 'f'
  }

  function Unhex(c: char): (v: int)
    ensures -1 <= v < 16 && (v >= 0 <==> IsHex(c))
  {
    if '0' <= c <= '9' then c as int - '0' as int
    else if 'A' <= c <= 'F' then c as int - 'A' as int + 10
    else if 'a' <= c <= 'f' then c as int - 'a' as int + 10
    else -1
  }

  function HexDigit(v: nat): (c: char)
    requires v < 16
    ensures Unhex(c) == v && ('0' <= c <= '9' || 'A' <= c <= 'F')
  {
    if v < 10 then '0' + v as char else 'A' + (v - 10) as char
  }

  /** The hex digits of a text, in order: every other character is a separator. */
  function HexChars(s: string): string {
    if s == "" then "" else (if IsHex(s[0]) then [s[0]] else []) + HexChars(s[1..])
  }

  /** Digits two by two; an odd last digit is dropped. */
  function HexBytes(s: string): seq<byte> {
    if |s| < 2 then [] else PairByte(s[0], s[1]) + HexBytes(s[2..])
  }

  function PairByte(hi: char, lo: char): seq<byte> {
    if Unhex(hi) < 0 || Unhex(lo) < 0 then [] else [16 * Unhex(hi) + Unhex(lo)]
  }

  lemma {:induction false} HexCharsAppend(s: string, t: string)
    ensures HexChars(s + t) == HexChars(s) + HexChars(t)
  {
    hide IsHex;
    if s == "" {
      assert s + t == t;
    } else {
      HexCharsAppend(s[1..], t);
      assert (s + t)[1..] == s[1..] + t && (s + t)[0] == s[0];
      Associates(if IsHex(s[0]) then [s[0]] else [], HexChars(s[1..]), HexChars(t));
    }
  }

  lemma {:induction false} HexBytesAppendPair(s: string, n: nat, hi: char, lo: char)
    requires |s| == 2 * n
    ensures HexBytes(s + [hi, lo]) == HexBytes(s) + PairByte(hi, lo)
  {
    hide PairByte;
    var t := s + [hi, lo];
    if s == "" {
      assert t == [hi, lo] && t[2..] == [];
    } else {
      HexBytesAppendPair(s[2..], n - 1, hi, lo);
      assert t[2..] == s[2..] + [hi, lo] && t[0] == s[0] && t[1] == s[1];
      Associates(PairByte(s[0], s[1]), HexBytes(s[2..]), PairByte(hi, lo));
    }
  }

  method FilterHex(s: string) returns (hex: string)
    ensures hex == HexChars(s)
  {
    hex := "";
    for i := 0 to |s|
      invariant hex == HexChars(s[..i])
    {
      HexCharsAppend(s[..i], [s[i]]);
      assert s[..i + 1] == s[..i] + [s[i]];
      if IsHex(s[i]) { hex := hex + [s[i]]; }
    }
    assert s[..|s|] == s;
  }

  method HexStringToBytes(text: string) returns (out: seq<byte>)
    ensures out == HexBytes(text)
  {
    hide Unhex, IsHex, HexBytes;
    var s := text;
    if |s| % 2 == 1 {
      s := s[..|s| - 1];
      OddDigitDropped(text, |s| / 2);
    }
    out := [];
    assert HexBytes([]) == [] by { NoBytes(); }
    var i := 0;
    ghost var n := 0;
    while i + 1 < |s|
      invariant 0 <= i == 2 * n <= |s|
      invariant out == HexBytes(s[..i])
    {
      var hi, lo := Unhex(s[i]), Unhex(s[i + 1]);
      assert s[..i + 2] == s[..i] + [s[i], s[i + 1]];
      HexBytesAppendPair(s[..i], n, s[i], s[i + 1]);
      i, n := i + 2, n + 1;
      if hi < 0 || lo < 0 { continue; }
      out := out + [16 * hi + lo];
    }
    assert s[..i] == s;
  }

  lemma NoBytes()
    ensures HexBytes([]) == []
  {}

  lemma {:induction false} OddDigitDropped(s: string, n: nat)
    requires |s| == 2 * n + 1
    ensures HexBytes(s) == HexBytes(s[..|s| - 1])
  {
    hide PairByte;
    if |s| > 1 {
      OddDigitDropped(s[2..], n - 1);
      assert s[2..][..|s| - 3] == s[..|s| - 1][2..];
    }
  }

  // ---------------------------------------------------------------- printing

  predicate AllHex(s: string) {
    forall i | 0 <= i < |s| :: IsHex(s[i])
  }

  predicate NoHex(s: string) {
    forall i | 0 <= i < |s| :: !IsHex(s[i])
  }

  /** Digits with a separator before each one and one at the end. */
  function Render(digits: string, seps: seq<string>): string
    requires |seps| == |digits| + 1
  {
    if digits == "" then seps[0] else seps[0] + [digits[0]] + Render(digits[1..], seps[1..])
  }

  /** The text prints these bytes: two hex digits each, in either case, with any characters that are no hex
      digits -- spaces, line breaks, prompts -- anywhere. */
  ghost predicate Prints(text: string, bytes: seq<byte>) {
    exists digits: string, seps: seq<string> :: PrintsAs(text, bytes, digits, seps)
  }

  ghost predicate PrintsAs(text: string, bytes: seq<byte>, digits: string, seps: seq<string>) {
    && |seps| == |digits| + 1 && text == Render(digits, seps)
    && (forall i | 0 <= i < |seps| :: NoHex(seps[i]))
    && Spells(digits, bytes)
  }

  lemma {:induction false} RenderedDigitsSurvive(digits: string, seps: seq<string>)
    requires |seps| == |digits| + 1 && AllHex(digits) && forall i | 0 <= i < |seps| :: NoHex(seps[i])
    ensures HexChars(Render(digits, seps)) == digits
  {
    SeparatorVanishes(seps[0]);
    if digits != "" {
      RenderedDigitsSurvive(digits[1..], seps[1..]);
      HexCharsAppend(seps[0] + [digits[0]], Render(digits[1..], seps[1..]));
      HexCharsAppend(seps[0], [digits[0]]);
    }
  }

  lemma {:induction false} SeparatorVanishes(s: string)
    requires NoHex(s)
    ensures HexChars(s) == ""
  {
    if s != "" { SeparatorVanishes(s[1..]); }
  }

  lemma {:induction false} HexCharsOfHex(s: string)
    requires AllHex(s)
    ensures HexChars(s) == s
  {
    if s != "" { HexCharsOfHex(s[1..]); }
  }

  /** Digit by digit these are the bytes, two digits each. */
  ghost predicate Spells(digits: string, bytes: seq<byte>) {
    && AllHex(digits) && |digits| == 2 * |bytes|
    && forall i | 0 <= i < |bytes| :: 16 * Unhex(digits[2 * i]) + Unhex(digits[2 * i + 1]) == bytes[i]
  }

  lemma SpellsRest(digits: string, bytes: seq<byte>)
    requires Spells(digits, bytes) && bytes != []
    ensures Spells(digits[2..], bytes[1..]) && PairByte(digits[0], digits[1]) == [bytes[0]]
  {
    hide Unhex, IsHex;
    assert digits[2 * 0] == digits[0] && digits[2 * 0 + 1] == digits[1];
    forall i | 0 <= i < |bytes| - 1
      ensures 16 * Unhex(digits[2..][2 * i]) + Unhex(digits[2..][2 * i + 1]) == bytes[1..][i]
    {
      assert digits[2..][2 * i] == digits[2 * (i + 1)] && digits[2..][2 * i + 1] == digits[2 * (i + 1) + 1];
    }
  }

  lemma {:induction false} DigitsReadBack(digits: string, bytes: seq<byte>)
    requires Spells(digits, bytes)
    ensures HexBytes(digits) == bytes && |digits| == 2 * |bytes|
  {
    hide Spells, PairByte;
    assert |digits| == 2 * |bytes| by { SpellsTwoEach(digits, bytes); }
    if bytes != [] {
      SpellsRest(digits, bytes);
      DigitsReadBack(digits[2..], bytes[1..]);
      assert bytes == [bytes[0]] + bytes[1..];
    }
  }

  lemma SpellsTwoEach(digits: string, bytes: seq<byte>)
    requires Spells(digits, bytes)
    ensures |digits| == 2 * |bytes|
  {}

  lemma {:induction false} RenderedPlainly(digits: string)
    ensures Render(digits, seq(|digits| + 1, _ => "")) == digits
  {
    if digits != "" {
      RenderedPlainly(digits[1..]);
      assert seq(|digits| + 1, _ => "")[1..] == seq(|digits|, _ => "");
      assert "" + [digits[0]] + digits[1..] == digits;
    }
  }

  /** The digits alone print their bytes. */
  lemma PrintedPlainly(digits: string, bytes: seq<byte>)
    requires Spells(digits, bytes)
    ensures Prints(digits, bytes)
  {
    RenderedPlainly(digits);
    assert PrintsAs(digits, bytes, digits, seq(|digits| + 1, _ => ""));
  }

  /** Upper-casing a text before filtering it changes neither how many digits it has nor the bytes. */
  lemma {:induction false} UpperKeepsDigits(s: string)
    ensures HexChars(Upper(s)) == Upper(HexChars(s))
  {
    if s != "" {
      UpperKeepsDigits(s[1..]);
      assert Upper(s)[1..] == Upper(s[1..]);
      assert IsHex(UpperChar(s[0])) <==> IsHex(s[0]);
    }
  }

  lemma {:induction false} UpperKeepsBytes(s: string)
    ensures HexBytes(Upper(s)) == HexBytes(s)
  {
    if |s| >= 2 {
      UpperKeepsBytes(s[2..]);
      assert Upper(s)[2..] == Upper(s[2..]);
      assert Unhex(UpperChar(s[0])) == Unhex(s[0]) && Unhex(UpperChar(s[1])) == Unhex(s[1]);
    }
  }

  /** Whatever bytes a text prints are the bytes read back from it. */
  lemma PrintedBytesReadBack(text: string, bytes: seq<byte>)
    requires Prints(text, bytes)
    ensures HexBytes(HexChars(text)) == bytes && |HexChars(text)| == 2 * |bytes|
    ensures HexBytes(HexChars(Upper(text))) == bytes && |HexChars(Upper(text))| == 2 * |bytes|
  {
    var digits, seps :| PrintsAs(text, bytes, digits, seps);
    RenderedDigitsSurvive(digits, seps);
    DigitsReadBack(digits, bytes);
    UpperKeepsDigits(text);
    UpperKeepsBytes(digits);
  }

  function HexDigits(bytes: seq<byte>): (digits: string)
    ensures |digits| == 2 * |bytes| && Spells(digits, bytes)
  {
    hide Unhex, HexDigit, IsHex;
    if bytes == [] then "" else
    var n := |bytes| - 1;
    HexDigits(bytes[..n]) + [HexDigit(bytes[n] / 16), HexDigit(bytes[n] % 16)]
  }

  /** Every byte sequence is printed by some text with any given separators. */
  lemma EveryBytesHaveAPrint(bytes: seq<byte>, seps: seq<string>) returns (text: string)
    requires |seps| == 2 * |bytes| + 1 && forall i | 0 <= i < |seps| :: NoHex(seps[i])
    ensures Prints(text, bytes)
  {
    hide Unhex, HexDigit;
    var digits := HexDigits(bytes);
    text := Render(digits, seps);
    assert PrintsAs(text, bytes, digits, seps);
  }
}
