/** Codes read by Modes 03, 07 and 0A, merged to one status per code. */
module StatusMerge {
  import opened Common
  import opened EchoStrip

  datatype Status = Confirmed | Pending | Permanent

  /** Commands in the order they are sent, with the status each one stands for. */
  const SOURCES: seq<(Query, Status)> := [("03", Confirmed), ("07", Pending), ("0A", Permanent)]

  type Seen = map<string, Status>

  function Noted(seen: Seen, code: string, status: Status): Seen {
    if code in seen && seen[code] == Confirmed then seen else seen[code := status]
  }

  function Merged(seen: Seen, codes: seq<string>, status: Status): Seen
    decreases |codes|
  {
    if codes == [] then seen else Merged(Noted(seen, codes[0], status), codes[1..], status)
  }

  /** A source that gave no reply is skipped. */
  function Heard(reply: Option<string>): seq<string> {
    if reply.None? then [] else Codes.DTCs(reply.value)
  }

  lemma {:induction false} MergedAppend(seen: Seen, codes: seq<string>, code: string, status: Status)
    ensures Merged(seen, codes + [code], status) == Noted(Merged(seen, codes, status), code, status)
    decreases |codes|
  {
    if codes == [] {
      assert codes + [code] == [code];
      assert Merged(seen, [code], status) == Merged(Noted(seen, code, status), [], status);
    } else {
      MergedAppend(Noted(seen, codes[0], status), codes[1..], code, status);
      assert (codes + [code])[1..] == codes[1..] + [code];
    }
  }

  /** The inner loop of ReadDTCs. */
  method MergeReply(before: Seen, reply: string, status: Status) returns (seen: Seen)
    ensures seen == Merged(before, Codes.DTCs(reply), status)
  {
    hide *;
    var codes := Codes.DecodeDTCs(reply);
    seen := MergeCodes(before, codes, status);
  }

  method MergeCodes(before: Seen, codes: seq<string>, status: Status) returns (seen: Seen)
    ensures seen == Merged(before, codes, status)
  {
    seen := before;
    for i := 0 to |codes|
      invariant seen == Merged(before, codes[..i], status)
    {
      var code := codes[i];
      MergedAppend(before, codes[..i], code, status);
      assert codes[..i + 1] == codes[..i] + [code];
      if code in seen && seen[code] == Confirmed { continue; }
      seen := seen[code := status];
    }
    assert codes[..|codes|] == codes;
  }

  /** One source: its codes join the keys; it overrides every status but confirmed. */
  lemma {:induction false} MergedMeans(seen: Seen, codes: seq<string>, status: Status, code: string)
    ensures code in Merged(seen, codes, status) <==> code in seen || code in codes
    ensures code in Merged(seen, codes, status) ==>
              Merged(seen, codes, status)[code]
              == if code in codes && !(code in seen && seen[code] == Confirmed) then status else seen[code]
    decreases |codes|
  {
    if codes != [] { MergedMeans(Noted(seen, codes[0], status), codes[1..], status, code); }
  }

  /** What the loop has seen after the sources that answered so far. */
  function After(replies: seq<Option<string>>): Seen
    requires |replies| <= 3
  {
    if replies == [] then map[]
    else
      var k := |replies| - 1;
      Merged(After(replies[..k]), Heard(replies[k]), SOURCES[k].1)
  }

  lemma AfterOneMore(replies: seq<Option<string>>, reply: Option<string>)
    requires |replies| < 3
    ensures After(replies + [reply]) == Merged(After(replies), Heard(reply), SOURCES[|replies|].1)
  {
    hide Merged, Heard;
    assert (replies + [reply])[..|replies|] == replies;
  }

  /** Confirmed beats permanent beats pending, whatever repeats and whichever commands failed. */
  lemma MergeIsPriorityUnion(replies: seq<Option<string>>, code: string)
    requires |replies| == 3
    ensures var seen := After(replies);
            && (code in seen <==> exists k | 0 <= k < 3 :: code in Heard(replies[k]))
            && (code in seen ==>
                  seen[code] == if code in Heard(replies[0]) then Confirmed
                                else if code in Heard(replies[2]) then Permanent else Pending)
  {
    hide Heard, Merged, Noted;
    var s1 := After([replies[0]]);
    var s2 := After([replies[0], replies[1]]);
    AfterOneMore([], replies[0]);
    AfterOneMore([replies[0]], replies[1]);
    AfterOneMore([replies[0], replies[1]], replies[2]);
    assert [] + [replies[0]] == [replies[0]] && [replies[0]] + [replies[1]] == [replies[0], replies[1]];
    assert replies == [replies[0], replies[1]] + [replies[2]];
    MergedMeans(map[], Heard(replies[0]), Confirmed, code);
    MergedMeans(s1, Heard(replies[1]), Pending, code);
    MergedMeans(s2, Heard(replies[2]), Permanent, code);
  }

  /** The service byte each source answers with. */
  const SERVICES: seq<HexText.byte> := [0x43, 0x47, 0x4A]

  lemma EncodedHasPair(pairs: seq<Codes.Pair>, p: Codes.Pair)
    requires p != (0, 0)
    ensures Codes.EncodeDTC(p) in Codes.Encoded(Codes.NonZero(pairs)) <==> p in pairs
  {
    hide Codes.EncodeDTC;
    NonZeroHasPair(pairs, p);
    var ps := Codes.NonZero(pairs);
    if p in ps {
      var i :| 0 <= i < |ps| && ps[i] == p;
      assert Codes.Encoded(ps)[i] == Codes.EncodeDTC(p);
    }
    if Codes.EncodeDTC(p) in Codes.Encoded(ps) {
      var i :| 0 <= i < |ps| && Codes.Encoded(ps)[i] == Codes.EncodeDTC(p);
      Codes.EncodeIsInjective(ps[i]);
      Codes.EncodeIsInjective(p);
    }
  }

  lemma {:induction false} NonZeroHasPair(pairs: seq<Codes.Pair>, p: Codes.Pair)
    requires p != (0, 0)
    ensures p in Codes.NonZero(pairs) <==> p in pairs
  {
    if pairs != [] { NonZeroHasPair(pairs[1..], p); }
  }

  /** A raw reply tells what a memory holds: nothing when the command failed or was answered with fewer than six hex
      digits, as NO DATA is; else it prints the stored pairs behind the service byte, in any spacing and padding, and
      the query does not occur in it. */
  ghost predicate Tells(raw: Option<string>, cmd: Query, service: HexText.byte, memory: seq<Codes.Pair>) {
    if Answer(raw, cmd).None? || |HexText.HexChars(Body(raw.value, cmd))| < 6 then memory == []
    else HexText.Prints(Body(raw.value, cmd), [service] + Codes.Flat(memory))
         && !Text.Contains(Body(raw.value, cmd), cmd)
  }

  lemma ToldPairsAreHeard(raw: Option<string>, k: nat, memory: seq<Codes.Pair>, p: Codes.Pair)
    requires k < 3 && Tells(raw, SOURCES[k].0, SERVICES[k], memory) && p != (0, 0)
    ensures Codes.EncodeDTC(p) in Heard(Answer(raw, SOURCES[k].0)) <==> p in memory
  {
    hide Codes.EncodeDTC, HexText.Prints, HexText.HexChars, HexText.HexBytes, Cleaned, Complaint, Body, Codes.PairCodes,
      Codes.Flat, Text.Contains, Text.Without;
    var cmd := SOURCES[k].0;
    if Answer(raw, cmd).Some? {
      if |HexText.HexChars(Body(raw.value, cmd))| < 6 {
        CleanedDigits(raw.value, cmd);
        assert HexText.AllHex(cmd);
        DigitsOnlyVanish(Body(raw.value, cmd), cmd);
        HexText.UpperKeepsDigits(Cleaned(raw.value, cmd));
      } else {
        CodesSurviveCommandIff(raw.value, cmd, SERVICES[k], memory);
        EncodedHasPair(memory, p);
      }
    }
  }

  /** From the car's memories to the merged list, through the raw replies: the code of a pair is listed exactly when
      some memory that told has the pair, with the status of the memory that counts most. */
  lemma MergedListShowsStoredPairs(raws: seq<Option<string>>, memories: seq<seq<Codes.Pair>>, p: Codes.Pair)
    requires |raws| == |memories| == 3 && p != (0, 0)
    requires forall k | 0 <= k < 3 :: Tells(raws[k], SOURCES[k].0, SERVICES[k], memories[k])
    ensures var replies := [Answer(raws[0], "03"), Answer(raws[1], "07"), Answer(raws[2], "0A")];
            var seen, code := After(replies), Codes.EncodeDTC(p);
            && (code in seen <==> p in memories[0] || p in memories[1] || p in memories[2])
            && (code in seen ==>
                  seen[code] == if p in memories[0] then Confirmed else if p in memories[2] then Permanent else Pending)
  {
    hide Codes.EncodeDTC, After, Tells, Heard, Answer;
    var replies := [Answer(raws[0], "03"), Answer(raws[1], "07"), Answer(raws[2], "0A")];
    MergeIsPriorityUnion(replies, Codes.EncodeDTC(p));
    forall k | 0 <= k < 3 ensures Codes.EncodeDTC(p) in Heard(replies[k]) <==> p in memories[k] {
      ToldPairsAreHeard(raws[k], k, memories[k], p);
    }
  }
}
