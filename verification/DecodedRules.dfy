/** Rules meet decoders: exactly when each rule fires, on the raw counts of Mode 01 replies where it reads a sample, and
    what follows for whole analyses. */
module DecodedRules {
  import opened Common
  import opened Diagnosis
  import opened Link
  import opened Pids
  import opened Text

  /** A sample whose readings were decoded from replies; engine speed and road speed may be missing, which the trim rule
      reads as zero counts. */
  predicate DecodedFrom(live: LiveSnapshot, rpm: nat, speed: nat, st: nat, lt: nat) {
    && Or(live.rpm, 0.0) == Value(Rpm, rpm) && Or(live.speed, 0.0) == Value(Whole, speed)
    && live.stft1 == Some(Value(Trim, st)) && live.ltft1 == Some(Value(Trim, lt))
  }

  lemma TrimThresholds(raw: nat)
    ensures Value(Trim, raw) > 12.0 <==> raw >= 144
    ensures Value(Trim, raw) > 10.0 <==> raw >= 141
    ensures Value(Trim, raw) < -12.0 <==> raw <= 112
    ensures Value(Trim, raw) < -8.0 <==> raw <= 117
  {
    var v := raw as real / 1.28;
    assert v * 1.28 == raw as real;
  }

  /** The trim rule on decoded readings: idle is 1..4399 quarter-revolutions below 3 km/h; lean and rich are byte
      ranges; between them no sample gets two findings. */
  lemma TrimRuleInCounts(focus: string, codes: CodeMap, live: LiveSnapshot, rpm: nat, speed: nat, st: nat, lt: nat)
    requires DecodedFrom(live, rpm, speed, st, lt)
    ensures var fs := TrimIdleVsCruise(focus, codes, Some(live));
            var lean := "P0171" in codes || "P0174" in codes || focus == "P0171" || focus == "P0174";
            var idle := 1 <= rpm < 4400 && speed < 3;
            && (Found(fs, IdleLean) <==> lean && idle && st >= 144 && lt >= 141)
            && (Found(fs, CruiseLean) <==> lean && !idle && rpm > 7200 && st >= 141 && lt >= 141)
            && (Found(fs, RichBias) <==> ("P0172" in codes || focus == "P0172") && st <= 112 && lt <= 117)
  {
    hide Related;
    TrimThresholds(st);
    TrimThresholds(lt);
    assert HasAny(codes, LEAN) <==> "P0171" in codes || "P0174" in codes by { HasAnyLean(codes); }
    var fs := TrimIdleVsCruise(focus, codes, Some(live));
    hide TrimIdleVsCruise, Value;
    if fs != [] {
      assert Found(fs, fs[0].rule);
    }
    assert TrimCases(focus, codes, live, fs) by { TrimCasesHold(focus, codes, live); }
  }

  lemma HasAnyLean(codes: CodeMap)
    ensures HasAny(codes, LEAN) <==> "P0171" in codes || "P0174" in codes
  {
    assert LEAN[0] in LEAN && LEAN[1] in LEAN;
  }

  /** The three guards, on real readings. */
  ghost predicate TrimCases(focus: string, codes: CodeMap, live: LiveSnapshot, fs: seq<Finding>) {
    live.stft1.Some? && live.ltft1.Some? ==>
      var rpm, speed, st, lt := Or(live.rpm, 0.0), Or(live.speed, 0.0), live.stft1.value, live.ltft1.value;
      var lean := HasAny(codes, LEAN) || focus in LEAN;
      var idle := rpm > 0.0 && rpm < 1100.0 && speed < 3.0;
      && (Found(fs, IdleLean) <==> lean && idle && st > 12.0 && lt > 10.0)
      && (Found(fs, CruiseLean) <==> lean && !idle && rpm > 1800.0 && st > 10.0 && lt > 10.0)
      && (Found(fs, RichBias) <==> ("P0172" in codes || focus == "P0172") && st < -12.0 && lt < -8.0)
  }

  lemma TrimCasesHold(focus: string, codes: CodeMap, live: LiveSnapshot)
    ensures TrimCases(focus, codes, live, TrimIdleVsCruise(focus, codes, Some(live)))
  {
    hide Related, HasAny;
    var fs := TrimIdleVsCruise(focus, codes, Some(live));
    if fs != [] { assert fs == [fs[0]] && Found(fs, fs[0].rule); }
  }

  /** The airflow rule on decoded readings.  Below 600 rpm it is silent, so its divisor never reaches the 0.5 floor,
      and the ratio test is a comparison of counts. */
  lemma AirflowRuleInCounts(focus: string, codes: CodeMap, live: LiveSnapshot, rpm: nat, maf: nat)
    requires live.rpm == Some(Value(Rpm, rpm)) && live.maf == Some(Value(AirFlow, maf))
    ensures var fs := MafPlausibility(focus, codes, Some(live));
            var leanish := HasAny(codes, LEAN) || focus == "P0171";
            var loaded := Or(live.load, 0.0) > 40.0;
            && (Found(fs, MafLow)
                <==> leanish && rpm >= 2400 && if loaded then 80 * maf < 11 * rpm else 1280 * maf < 77 * rpm)
            && (Found(fs, MafHigh)
                <==> leanish && rpm >= 2400 && if loaded then 20 * maf > 9 * rpm else 320 * maf > 63 * rpm)
  {
    hide Related, HasAny;
    var fs := MafPlausibility(focus, codes, Some(live));
    if fs != [] { assert fs == [fs[0]] && Found(fs, fs[0].rule); }
    var expected := if Or(live.load, 0.0) > 40.0 then 8.0 else 3.5;
    var divisor := expected * (Value(Rpm, rpm) / 800.0);
    if rpm >= 2400 {
      assert divisor == expected * rpm as real / 3200.0 && divisor > 0.5;
      QuotientBelow(Value(AirFlow, maf), divisor, 0.55);
      QuotientBelow(Value(AirFlow, maf), divisor, 1.8);
    }
  }

  lemma VoltageRuleInCounts(live: LiveSnapshot, volts: nat)
    requires live.volts == Some(Value(Voltage, volts))
    ensures Found(ModuleVoltage(Some(live)), LowVoltage) <==> 1 <= volts < 11800
  {
    var fs := ModuleVoltage(Some(live));
    if fs != [] { assert fs[0].rule == LowVoltage; }
  }

  /** The catalyst rule on decoded readings, in two-hundredths of a volt. */
  lemma CatalystRuleInCounts(focus: string, codes: CodeMap, live: LiveSnapshot, front: nat, rear: nat)
    requires live.o2s1 == Some(Value(Oxygen, front)) && live.o2s2 == Some(Value(Oxygen, rear))
    ensures Found(O2CatalystProxy(focus, codes, Some(live)), RearTracksFront)
            <==> (focus == "P0420" || "P0420" in codes) && -10 < front - rear < 10 && 80 < rear < 140
  {
    hide Related;
    var fs := O2CatalystProxy(focus, codes, Some(live));
    if fs != [] { assert fs[0].rule == RearTracksFront; }
    assert (Value(Oxygen, front) - Value(Oxygen, rear)) * 200.0 == (front - rear) as real;
  }

  /** The misfire rule: one cylinder code points at the cylinder, none at the mixture, several at nothing. */
  lemma MisfireRuleIff(focus: string, codes: CodeMap, live: Option<LiveSnapshot>)
    ensures var fs := MisfireFingerprint(focus, codes, live);
            var random := focus == "P0300" || "P0300" in codes;
            && (Found(fs, SingleCylinder)
                <==> random
                     && exists c | c in CYLINDERS :: c in codes && forall d | d in CYLINDERS && d in codes :: d == c)
            && (Found(fs, LeanMisfire) <==> random && (forall c | c in CYLINDERS :: c !in codes)
                                            && live.Some? && live.value.stft1.Some? && live.value.stft1.value > 12.0)
  {
    var fs := MisfireFingerprint(focus, codes, live);
    RelatedMeans(codes, CYLINDERS);
    hide Related;
    if fs != [] { assert fs == [fs[0]] && Found(fs, fs[0].rule); }
  }

  /** Which codes of a list are present, when the list names each once: none, one or more. */
  lemma {:induction false} RelatedMeans(codes: CodeMap, list: seq<string>)
    requires forall i, j | 0 <= i < j < |list| :: list[i] != list[j]
    ensures |Related(codes, list)| == 0 <==> forall c | c in list :: c !in codes
    ensures |Related(codes, list)| == 1
            <==> exists c | c in list :: c in codes && forall d | d in list && d in codes :: d == c
  {
    if list != [] {
      RelatedMeans(codes, list[1..]);
      assert forall c :: c in list <==> c == list[0] || c in list[1..];
      assert list[0] !in list[1..];
    }
  }

  /** The condition rule: frame and live sample are more than 800 rpm apart. */
  lemma ConditionRuleIff(focus: string, codes: CodeMap, obs: Observations, live: LiveSnapshot, frame: Frame)
    requires obs.live == Some(live) && live.rpm.Some?
    requires FrameFor(focus, codes, obs) == Some(frame) && frame.rpm.Some?
    ensures Found(FreezeFrameMismatch(focus, codes, Some(obs)), ConditionMismatch)
            <==> Abs(frame.rpm.value - live.rpm.value) > 800.0
  {
    var fs := FreezeFrameMismatch(focus, codes, Some(obs));
    if fs != [] { assert fs[0].rule == ConditionMismatch; }
  }

  /** The condition rule on a decoded reading: 800 rpm are 3200 counts. */
  lemma ConditionRuleInCounts(focus: string, codes: CodeMap, obs: Observations, rpm: nat, frame: Frame)
    requires obs.live.Some? && obs.live.value.rpm == Some(Value(Rpm, rpm))
    requires FrameFor(focus, codes, obs) == Some(frame) && frame.rpm.Some?
    ensures Found(FreezeFrameMismatch(focus, codes, Some(obs)), ConditionMismatch)
            <==> Abs(4.0 * frame.rpm.value - rpm as real) > 3200.0
  {
    var fs := FreezeFrameMismatch(focus, codes, Some(obs));
    if fs != [] { assert fs[0].rule == ConditionMismatch; }
    assert (frame.rpm.value - Value(Rpm, rpm)) * 4.0 == 4.0 * frame.rpm.value - rpm as real;
  }

  /** The fleet rule: one of the first three partners was seen at least twice and in a quarter of the scans. */
  lemma FleetRuleIff(focus: string, stats: seq<CoOccurStat>)
    ensures Found(CoOccurrenceFindings(focus, stats), CoOccurrence)
            <==> focus != ""
                 && exists i :: 0 <= i < |stats| && i < 3 && stats[i].rate >= 0.25 && stats[i].withCount >= 2
  {
    hide Frequent, FleetEvidence, CodesIn;
    var fs := CoOccurrenceFindings(focus, stats);
    if fs != [] { assert fs[0].rule == CoOccurrence; }
    FrequentIff(if |stats| > 3 then stats[..3] else stats);
  }

  lemma {:induction false} FrequentIff(stats: seq<CoOccurStat>)
    ensures Frequent(stats) != [] <==> exists i :: 0 <= i < |stats| && stats[i].rate >= 0.25 && stats[i].withCount >= 2
  {
    if stats != [] {
      FrequentIff(stats[1..]);
      if i :| 0 <= i < |stats| && stats[i].rate >= 0.25 && stats[i].withCount >= 2 {
        if i > 0 { assert stats[1..][i - 1] == stats[i]; }
      }
    }
  }

  /** A frame as the USB adapter returns it: the raw Mode 02 reply, and no "rpm". */
  ghost predicate RawFramesOnly(in_: Input) {
    && (forall i | 0 <= i < |in_.dtcs| :: in_.dtcs[i].frame.Some? ==> in_.dtcs[i].frame.value.rpm.None?)
    && (in_.obs.Some? ==> forall code | code in in_.obs.value.frames :: in_.obs.value.frames[code].rpm.None?)
  }

  /** The condition-mismatch rule never fires on what the USB adapter's scans record, whatever the live sample. */
  lemma RawFramesNeverMismatch(in_: Input)
    requires RawFramesOnly(in_)
    ensures !Found(RuleOutputs(in_), ConditionMismatch)
  {
    hide TrimIdleVsCruise, MafPlausibility, O2CatalystProxy, MisfireFingerprint, LinkFragility, ModuleVoltage,
      CoOccurrenceFindings, CodesOf, Upper, Found;
    var live := if in_.obs.Some? then in_.obs.value.live else None;
    var link := if in_.obs.Some? then in_.obs.value.link else None;
    var codes, focus := CodesOf(in_.dtcs), Upper(in_.focus);
    var before := TrimIdleVsCruise(focus, codes, live) + MafPlausibility(focus, codes, live)
                  + O2CatalystProxy(focus, codes, live);
    var after := MisfireFingerprint(focus, codes, live) + LinkFragility(link) + ModuleVoltage(live)
                 + CoOccurrenceFindings(focus, in_.coOccur);
    var mine := FreezeFrameMismatch(focus, codes, in_.obs);
    assert RuleOutputs(in_) == before + mine + after;
    var last := CodesHoldLastEntry(in_.dtcs, focus);
    assert mine == [];
    FoundInOwnPart(before, mine, after, ConditionMismatch);
  }

  // ---------------------------------------------------------------- the idle-lean pattern

  lemma FoundInConcat(a: seq<Finding>, b: seq<Finding>, r: Rule)
    ensures Found(a + b, r) <==> Found(a, r) || Found(b, r)
  {
    if i :| 0 <= i < |a| && a[i].rule == r { assert (a + b)[i].rule == r; }
    if i :| 0 <= i < |b| && b[i].rule == r { assert (a + b)[|a| + i].rule == r; }
  }

  /** What fires among the trim, condition and fleet rules is in the result. */
  lemma ThreeRulesReachResult(in_: Input, out: seq<Finding>, r: Rule)
    requires Analysis(in_, out) && in_.obs.Some?
    requires var codes, focus := CodesOf(in_.dtcs), Upper(in_.focus);
             || Found(TrimIdleVsCruise(focus, codes, in_.obs.value.live), r)
             || Found(FreezeFrameMismatch(focus, codes, in_.obs), r)
             || Found(CoOccurrenceFindings(focus, in_.coOccur), r)
    ensures Found(out, r)
  {
    hide TrimIdleVsCruise, MafPlausibility, O2CatalystProxy, FreezeFrameMismatch, MisfireFingerprint, LinkFragility,
      ModuleVoltage, CoOccurrenceFindings, CodesOf, Upper, Found, Analysis;
    var obs, codes, focus := in_.obs.value, CodesOf(in_.dtcs), Upper(in_.focus);
    var f1 := TrimIdleVsCruise(focus, codes, obs.live);
    var f2 := MafPlausibility(focus, codes, obs.live) + O2CatalystProxy(focus, codes, obs.live);
    var f3 := FreezeFrameMismatch(focus, codes, in_.obs);
    var f4 := MisfireFingerprint(focus, codes, obs.live) + LinkFragility(obs.link) + ModuleVoltage(obs.live);
    var f5 := CoOccurrenceFindings(focus, in_.coOccur);
    assert RuleOutputs(in_) == f1 + f2 + f3 + f4 + f5;
    FoundInConcat(f1, f2, r);
    FoundInConcat(f1 + f2, f3, r);
    FoundInConcat(f1 + f2 + f3, f4, r);
    FoundInConcat(f1 + f2 + f3 + f4, f5, r);
    ResultIsFiredRules(in_, out);
  }

  /** For all inputs: a lean focus code, an idling sample with high trims, a frame from other revolutions and a frequent
      partner give their three findings, surest first. */
  lemma IdleLeanPattern(in_: Input, out: seq<Finding>, live: LiveSnapshot, frame: Frame, partner: nat)
      returns (i: nat, j: nat, k: nat)
    requires Analysis(in_, out) && Upper(in_.focus) in LEAN && in_.obs.Some? && in_.obs.value.live == Some(live)
    requires live.rpm.Some? && 0.0 < live.rpm.value < 1100.0 && Or(live.speed, 0.0) < 3.0
    requires live.stft1.Some? && live.stft1.value > 12.0 && live.ltft1.Some? && live.ltft1.value > 10.0
    requires FrameFor(Upper(in_.focus), CodesOf(in_.dtcs), in_.obs.value) == Some(frame)
    requires frame.rpm.Some? && Abs(frame.rpm.value - live.rpm.value) > 800.0
    requires partner < 3 && partner < |in_.coOccur|
    requires in_.coOccur[partner].rate >= 0.25 && in_.coOccur[partner].withCount >= 2
    ensures i < j < k < |out|
    ensures out[i].rule == IdleLean && out[j].rule == ConditionMismatch && out[k].rule == CoOccurrence
  {
    hide TrimIdleVsCruise, FreezeFrameMismatch, CoOccurrenceFindings, CodesOf, FrameFor, Analysis, Upper, RuleOutputs,
      HasAny;
    var obs, codes, focus := in_.obs.value, CodesOf(in_.dtcs), Upper(in_.focus);
    assert focus != "" by { assert LEAN[0] != "" && LEAN[1] != ""; }
    TrimCasesHold(focus, codes, live);
    ConditionRuleIff(focus, codes, obs, live, frame);
    FleetRuleIff(focus, in_.coOccur);
    ThreeRulesReachResult(in_, out, IdleLean);
    ThreeRulesReachResult(in_, out, ConditionMismatch);
    ThreeRulesReachResult(in_, out, CoOccurrence);
    ResultIsFiredRules(in_, out);
    i :| 0 <= i < |out| && out[i].rule == IdleLean;
    j :| 0 <= j < |out| && out[j].rule == ConditionMismatch;
    k :| 0 <= k < |out| && out[k].rule == CoOccurrence;
  }

  /** The engine's own test case is one of them. */
  lemma TestCaseIsIdleLean(in_: Input, out: seq<Finding>)
    requires Analysis(in_, out) && in_.focus == "P0171" && in_.dtcs == [Dtc("P0171", None), Dtc("P0300", None)]
    requires in_.obs == Some(Observations(
               Some(LiveSnapshot(Some(820.0), Some(0.0), None, Some(2.0), Some(18.0), Some(15.0), None, None, None)),
               map["P0171" := Frame(Some(2100.0))], Some(LinkMetrics(10, 1, 0, 90.0))))
    requires in_.coOccur == [CoOccurStat("P0300", 8, 10, 0.8)]
    ensures Found(out, IdleLean) && Found(out, ConditionMismatch) && Found(out, CoOccurrence)
  {
    hide Analysis, CodesOf, Upper;
    var live, frame := in_.obs.value.live.value, Frame(Some(2100.0));
    assert Upper("P0171") == "P0171" by { UpperLeaves("P0171"); }
    var last := CodesHoldLastEntry(in_.dtcs, "P0171");
    assert "P0171" in LEAN by { assert LEAN[0] == "P0171"; }
    var i, j, k := IdleLeanPattern(in_, out, live, frame, 0);
  }

  lemma UpperLeaves(code: string)
    requires forall i | 0 <= i < |code| :: !('a' <= code[i] <= 'z')
    ensures Upper(code) == code
  {}
}
