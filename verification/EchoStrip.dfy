/** What `command` does to a raw reply before the decoders see it: it takes out every occurrence of the command's
    own text, not only the echo at the start.  Between adjacent digits that text can be part of the data. */
module EchoStrip {
  import opened Codes
  import opened Common
  import opened HexText
  import opened Pids
  import opened Text

  type Query = s: string | s != "" witness "ATI"

  function Cleaned(raw: string, cmd: Query): string {
    TrimSpace(Without(Without(raw, cmd), ">"))
  }

  /** The adapter's own complaints; NO DATA is not one. */
  predicate Complaint(out: string) {
    !Contains(Upper(out), "NO DATA") && (Contains(Upper(out), "UNABLE") || Contains(Upper(out), "ERROR"))
  }

  /** The text the caller gets, or None for an error. */
  function Answer(raw: Option<string>, cmd: Query): Option<string> {
    if raw.None? || Complaint(Cleaned(raw.value, cmd)) then None else Some(Cleaned(raw.value, cmd))
  }

  /** The reply behind the echo, if there is an echo. */
  function Body(raw: string, cmd: string): string {
    if cmd <= raw then raw[|cmd|..] else raw
  }

  // ---------------------------------------------------------------- digits under the clean-up

  lemma {:induction false} SeparatorsGoUnnoticed(s: string, t: string)
    requires t != "" && NoHex(t)
    ensures HexChars(Without(s, t)) == HexChars(s)
  {
    if |s| >= |t| {
      if s[..|t|] == t {
        SeparatorsGoUnnoticed(s[|t|..], t);
        HexCharsAppend(s[..|t|], s[|t|..]);
        SeparatorVanishes(s[..|t|]);
        assert s == s[..|t|] + s[|t|..];
      } else {
        SeparatorsGoUnnoticed(s[1..], t);
        assert ([s[0]] + Without(s[1..], t))[1..] == Without(s[1..], t);
      }
    }
  }

  lemma {:induction false} LeftBlanksGoUnnoticed(s: string)
    ensures HexChars(TrimLeft(s)) == HexChars(s)
  {
    if s != "" && IsBlank(s[0]) { LeftBlanksGoUnnoticed(s[1..]); }
  }

  lemma {:induction false} RightBlanksGoUnnoticed(s: string)
    ensures HexChars(TrimRight(s)) == HexChars(s)
  {
    if s != "" && IsBlank(s[|s| - 1]) {
      RightBlanksGoUnnoticed(s[..|s| - 1]);
      HexCharsAppend(s[..|s| - 1], [s[|s| - 1]]);
      assert s == s[..|s| - 1] + [s[|s| - 1]];
    }
  }

  /** Of the clean-up only the first step touches digits. */
  lemma CleanedDigits(raw: string, cmd: Query)
    ensures HexChars(Cleaned(raw, cmd)) == HexChars(Without(Body(raw, cmd), cmd))
  {
    hide HexChars;
    var out := Without(raw, cmd);
    SeparatorsGoUnnoticed(out, ">");
    LeftBlanksGoUnnoticed(Without(out, ">"));
    RightBlanksGoUnnoticed(TrimLeft(Without(out, ">")));
    assert out == Without(Body(raw, cmd), cmd);
  }

  lemma {:induction false} DigitsOnlyVanish(s: string, t: string)
    requires t != "" && AllHex(t)
    ensures |HexChars(Without(s, t))| <= |HexChars(s)|
    ensures Contains(s, t) ==> |HexChars(Without(s, t))| + |t| <= |HexChars(s)|
  {
    if |s| >= |t| {
      if s[..|t|] == t {
        DigitsOnlyVanish(s[|t|..], t);
        HexCharsAppend(t, s[|t|..]);
        assert s == t + s[|t|..];
        HexCharsOfHex(t);
      } else {
        DigitsOnlyVanish(s[1..], t);
        assert ([s[0]] + Without(s[1..], t))[1..] == Without(s[1..], t);
      }
    }
  }

  function Worth(c: char): nat {
    if IsHex(c) then Unhex(c) else 0
  }

  function DigitSum(s: string): nat {
    if s == "" then 0 else Worth(s[0]) + DigitSum(s[1..])
  }

  lemma {:induction false} DigitSumAppend(s: string, t: string)
    ensures DigitSum(s + t) == DigitSum(s) + DigitSum(t)
  {
    if s == "" { assert s + t == t; } else {
      DigitSumAppend(s[1..], t);
      assert (s + t)[1..] == s[1..] + t;
    }
  }

  lemma {:induction false} TakingOutLowersSum(s: string, t: string)
    requires t != "" && DigitSum(t) > 0
    ensures DigitSum(Without(s, t)) <= DigitSum(s) && (Contains(s, t) ==> DigitSum(Without(s, t)) < DigitSum(s))
  {
    if |s| >= |t| {
      if s[..|t|] == t {
        TakingOutLowersSum(s[|t|..], t);
        DigitSumAppend(t, s[|t|..]);
        assert s == t + s[|t|..];
      } else {
        TakingOutLowersSum(s[1..], t);
        assert ([s[0]] + Without(s[1..], t))[1..] == Without(s[1..], t);
      }
    }
  }

  lemma {:induction false} SumOfDigits(s: string)
    ensures DigitSum(HexChars(s)) == DigitSum(s)
  {
    if s != "" {
      SumOfDigits(s[1..]);
      if IsHex(s[0]) {
        assert HexChars(s) == [s[0]] + HexChars(s[1..]);
        assert HexChars(s)[0] == s[0] && HexChars(s)[1..] == HexChars(s[1..]);
      } else {
        assert HexChars(s) == HexChars(s[1..]);
      }
    }
  }

  /** Bytes are worth their digits; an odd last digit is lost. */
  lemma {:induction false} BytesWorthDigits(s: string)
    requires AllHex(s)
    ensures ByteSum(HexBytes(s)) <= DigitSum(s) && (|s| % 2 == 0 ==> ByteSum(HexBytes(s)) == DigitSum(s))
    ensures |HexBytes(s)| == |s| / 2
  {
    hide Unhex, IsHex, NibbleSum;
    if |s| >= 2 {
      BytesWorthDigits(s[2..]);
      var b: byte := 16 * Unhex(s[0]) + Unhex(s[1]);
      NibblesOfByte(Unhex(s[0]), Unhex(s[1]));
      assert s[1..][1..] == s[2..] && DigitSum(s) == Worth(s[0]) + Worth(s[1]) + DigitSum(s[2..]);
      assert HexBytes(s) == [b] + HexBytes(s[2..]) && HexBytes(s)[0] == b && HexBytes(s)[1..] == HexBytes(s[2..]);
    }
  }

  lemma NibblesOfByte(hi: nat, lo: nat)
    requires hi < 16 && lo < 16
    ensures NibbleSum(16 * hi + lo) == hi + lo
  {}

  lemma {:induction false} HexCharsAreHex(s: string)
    ensures AllHex(HexChars(s))
  {
    if s != "" { HexCharsAreHex(s[1..]); }
  }

  // ---------------------------------------------------------------- code queries

  predicate CodeQuery(cmd: string) {
    cmd == "03" || cmd == "07" || cmd == "0A"
  }

  /** A first digit other than 0 survives a code query's clean-up, and what is behind it is cleaned on its own. */
  lemma {:induction false} FirstDigitSurvives(s: string, cmd: string) returns (rest: string)
    requires CodeQuery(cmd) && HexChars(s) != "" && HexChars(s)[0] != '0'
    ensures HexChars(s) == [HexChars(s)[0]] + HexChars(rest)
    ensures HexChars(Without(s, cmd)) == [HexChars(s)[0]] + HexChars(Without(rest, cmd))
    ensures Contains(s, cmd) <==> Contains(rest, cmd)
  {
    hide IsHex;
    assert IsHex('0') by { HexZero(); }
    rest := s[1..];
    if |s| >= 2 { assert s[..2][0] == s[0]; }
    assert |s| >= 2 ==> ([s[0]] + Without(rest, cmd))[1..] == Without(rest, cmd);
    if !IsHex(s[0]) { rest := FirstDigitSurvives(s[1..], cmd); }
  }

  lemma HexZero()
    ensures IsHex('0')
  {}

  /** Behind the two header digits. */
  lemma HeaderSurvives(body: string, cmd: string, service: byte, raw: seq<byte>) returns (rest: string)
    requires CodeQuery(cmd) && ServiceByte(service) && Prints(body, [service] + raw)
    ensures |HexChars(Without(body, cmd))| == 2 + |HexChars(Without(rest, cmd))|
    ensures HexBytes(HexChars(Without(body, cmd))) == [service] + HexBytes(HexChars(Without(rest, cmd)))
    ensures DigitSum(rest) == ByteSum(raw) && (Contains(body, cmd) <==> Contains(rest, cmd))
  {
    hide Prints, Without, Contains, HexChars;
    PrintedBytesReadBack(body, [service] + raw);
    HexCharsAreHex(body);
    var digits := HexChars(body);
    assert HexBytes(digits)[0] == 16 * Unhex(digits[0]) + Unhex(digits[1]) == service;
    assert digits[0] != '0' && digits[1] != '0';
    var rest1 := FirstDigitSurvives(body, cmd);
    rest := FirstDigitSurvives(rest1, cmd);
    assert digits == [digits[0], digits[1]] + HexChars(rest);
    assert digits[2..] == HexChars(rest) && HexBytes(digits) == [service] + HexBytes(digits[2..]);
    assert ([service] + raw)[1..] == raw && ([service] + HexBytes(digits[2..]))[1..] == HexBytes(digits[2..]);
    HexCharsAreHex(rest);
    BytesWorthDigits(HexChars(rest));
    SumOfDigits(rest);
    var left := HexChars(Without(body, cmd));
    assert left == [digits[0], digits[1]] + HexChars(Without(rest, cmd));
    assert left[2..] == HexChars(Without(rest, cmd));
  }

  /** From a raw reply to the codes.  Behind an echo or without one, a reply that prints a service byte and pairs
      decodes to their codes exactly when the query's two characters do not occur in it side by side.  If they do,
      digits are lost and the result is never the right list. */
  lemma CodesSurviveCommandIff(raw: string, cmd: Query, service: byte, pairs: seq<Pair>)
    requires CodeQuery(cmd) && ServiceByte(service) && Prints(Body(raw, cmd), [service] + Flat(pairs))
    ensures DTCs(Cleaned(raw, cmd)) == Encoded(NonZero(pairs)) <==> !Contains(Body(raw, cmd), cmd)
  {
    hide Prints, HexChars, HexBytes, PairCodes, Encoded, NonZero, Without, Contains, Cleaned, Flat, Body;
    var body := Body(raw, cmd);
    var left := HexChars(Without(body, cmd));
    CleanedDigits(raw, cmd);
    UpperKeepsDigits(Cleaned(raw, cmd));
    UpperKeepsBytes(left);
    var rest := HeaderSurvives(body, cmd, service, Flat(pairs));
    FlatPairsUp(pairs);
    PairedSum(Flat(pairs));
    var data := HexBytes(HexChars(Without(rest, cmd)));
    assert ([service] + data)[1..] == data;
    assert DTCs(Cleaned(raw, cmd)) == if |left| < 6 then [] else PairCodes(data);
    if Contains(body, cmd) {
      QueryIsWorthSomething(cmd);
      TakingOutLowersSum(rest, cmd);
      SumOfDigits(Without(rest, cmd));
      HexCharsAreHex(Without(rest, cmd));
      BytesWorthDigits(HexChars(Without(rest, cmd)));
      LighterBytesDiffer(data, pairs);
      assert PairCodes([]) != Encoded(NonZero(pairs)) by { LighterBytesDiffer([], pairs); }
      NoBytesNoCodes();
    } else {
      PairCodesAreEncoded(Flat(pairs));
      NothingToTakeOut(body, cmd);
      PrintedBytesReadBack(body, [service] + Flat(pairs));
      assert data == Flat(pairs);
      if |left| < 6 { FewPairs(pairs); }
    }
  }

  lemma QueryIsWorthSomething(cmd: string)
    requires CodeQuery(cmd)
    ensures DigitSum(cmd) > 0 && cmd != ""
  {
    assert cmd[1..][1..] == "";
    assert DigitSum(cmd[1..]) == Worth(cmd[1]);
  }

  lemma NoBytesNoCodes()
    ensures PairCodes([]) == []
  {}

  lemma FewPairs(pairs: seq<Pair>)
    requires |Flat(pairs)| < 2
    ensures Encoded(NonZero(pairs)) == []
  {}

  /** A single code whose print has the query in it is lost altogether. */
  lemma LoneCodeIsLost(raw: string, cmd: Query, service: byte, p: Pair)
    requires CodeQuery(cmd) && ServiceByte(service) && Prints(Body(raw, cmd), [service] + Flat([p]))
    requires Contains(Body(raw, cmd), cmd)
    ensures DTCs(Cleaned(raw, cmd)) == []
  {
    hide Prints, HexChars, HexBytes, Without, Contains, Cleaned, Body;
    PrintedBytesReadBack(Body(raw, cmd), [service] + Flat([p]));
    FlatPairsUp([p]);
    CleanedDigits(raw, cmd);
    UpperKeepsDigits(Cleaned(raw, cmd));
    QueryIsWorthSomething(cmd);
    DigitsOnlyVanish(Body(raw, cmd), cmd);
  }

  /** With spaces off, as the adapter is configured, a stored P0300 is taken for the command's echo. */
  lemma MisfireCodeIsLost()
    ensures DTCs("430300") == ["P0300"] && DTCs(Cleaned("430300", "03")) == []
  {
    hide DTCs, Cleaned, Prints, Contains, EncodeDTC, Flat, NonZero, Encoded;
    MisfirePrint();
    LoneCodeIsLost("430300", "03", 0x43, (3, 0));
    DtcRoundTrip("430300", 0x43, [(3, 0)]);
  }

  lemma MisfirePrint()
    ensures Prints("430300", [0x43] + Flat([(3, 0)])) && Encoded(NonZero([(3, 0)])) == ["P0300"]
    ensures Body("430300", "03") == "430300" && Contains("430300", "03")
  {
    hide Prints;
    var raw := "430300";
    assert [0x43] + Flat([(3, 0)]) == [0x43, 3, 0];
    PrintedPlainly(raw, [0x43, 3, 0]);
    assert raw[0] != "03"[0];
    assert raw[1..] == "30300" && raw[1..][1..] == "0300" && "0300"[..2] == "03";
    assert NonZero([(3, 0)]) == [(3, 0)];
    assert EncodeDTC((3, 0)) == "P0300";
  }

  // ---------------------------------------------------------------- live readings

  /** The same for a live reading: its data comes back exactly when the command does not occur in the reply. */
  lemma PayloadSurvivesCommandIff(raw: string, cmd: Query, pid: byte, data: seq<byte>)
    requires |cmd| >= 2 && AllHex(cmd) && data != [] && Prints(Body(raw, cmd), [REPLY, pid] + data)
    ensures Payload(Cleaned(raw, cmd)) == data <==> !Contains(Body(raw, cmd), cmd)
  {
    hide Prints, HexChars, HexBytes, Without, Contains, Cleaned, Body;
    var body := Body(raw, cmd);
    CleanedDigits(raw, cmd);
    PrintedBytesReadBack(body, [REPLY, pid] + data);
    if Contains(body, cmd) {
      DigitsOnlyVanish(body, cmd);
      HexCharsAreHex(Without(body, cmd));
      BytesWorthDigits(HexChars(Without(body, cmd)));
      PayloadIsShorter(HexBytes(HexChars(Without(body, cmd))), 0);
    } else {
      NothingToTakeOut(body, cmd);
      PayloadRoundTrip(body, pid, data);
    }
  }

  /** With spaces off an airflow of 43.67 g/s is lost: the command occurs across the header and the data. */
  lemma AirflowReadingIsLost()
    ensures Decode(AirFlow, "4110110F") == Some(43.67) && Decode(AirFlow, Cleaned("4110110F", "0110")) == None
  {
    hide Prints, HexChars, Without, Contains, Cleaned, HexBytes;
    AirflowPrint();
    ReadingRoundTrip(AirFlow, "4110110F", 0x10, 4367, []);
    PrintedBytesReadBack("4110110F", [0x41, 0x10, 0x11, 0x0F]);
    CleanedDigits("4110110F", "0110");
    DigitsOnlyVanish("4110110F", "0110");
  }

  lemma AirflowPrint()
    ensures Prints("4110110F", [REPLY, 0x10] + (BigEndian(AirFlow, 4367) + []))
    ensures [REPLY, 0x10] + (BigEndian(AirFlow, 4367) + []) == [0x41, 0x10, 0x11, 0x0F]
    ensures Body("4110110F", "0110") == "4110110F" && Contains("4110110F", "0110") && AllHex("0110")
  {
    hide Prints;
    var raw := "4110110F";
    PrintedPlainly(raw, [0x41, 0x10, 0x11, 0x0F]);
    assert [REPLY, 0x10] + (BigEndian(AirFlow, 4367) + []) == [0x41, 0x10, 0x11, 0x0F];
    assert raw[0] != "0110"[0];
    assert raw[1..][1..][1..] == "0110F" && "0110F"[..4] == "0110";
  }

  lemma {:induction false} PayloadIsShorter(raw: seq<byte>, i: nat)
    requires i <= |raw|
    ensures |raw| >= 3 ==> |PayloadOf(raw, i)| <= |raw| - 2
    decreases |raw| - i
  {
    if i + 2 < |raw| && raw[i] != REPLY { PayloadIsShorter(raw, i + 1); }
  }
}
