/** The rule engine: eight rules over one scan, and the stable ranking of what they find.
    Readings are exact rationals; titles and summaries are left out, evidence keeps the numbers it quotes. */
module Diagnosis {
  import opened Common
  import opened Link
  import opened Text

  datatype Rule =
    | IdleLean | CruiseLean | RichBias | MafLow | MafHigh | RearTracksFront | ConditionMismatch
    | SingleCylinder | LeanMisfire | FragileLink | LowVoltage | CoOccurrence

  datatype Severity = Info | Watch | Likely

  datatype Evidence =
    | Trims(st: real, lt: real, rpm: real) | IdleSample | TrimsOnly(st: real, lt: real)
    | Airflow(maf: real, rpm: real, ratio: real) | Sensors(s1: real, s2: real, delta: real)
    | FrameVersusLive(frame: real, live: real) | Cylinder(codes: seq<string>) | MisfireTrim(st: real)
    | LinkCounts(m: LinkMetrics) | Volts(v: real) | Fleet(code: string, percent: real, focus: string, n: int)

  datatype Finding = Finding(rule: Rule, confidence: real, severity: Severity, related: seq<string>,
                             evidence: seq<Evidence>)

  datatype LiveSnapshot = LiveSnapshot(
    rpm: Option<real>, speed: Option<real>, load: Option<real>, maf: Option<real>, stft1: Option<real>,
    ltft1: Option<real>, o2s1: Option<real>, o2s2: Option<real>, volts: Option<real>)

  /** A freeze frame, by the number its "rpm" entry converts to, if it does. */
  datatype Frame = Frame(rpm: Option<real>)

  datatype Dtc = Dtc(code: string, frame: Option<Frame>)

  datatype Observations = Observations(live: Option<LiveSnapshot>, frames: map<string, Frame>,
                                       link: Option<LinkMetrics>)

  datatype CoOccurStat = CoOccurStat(code: string, withCount: int, focusCount: int, rate: real)

  datatype Input = Input(focus: string, dtcs: seq<Dtc>, obs: Option<Observations>, coOccur: seq<CoOccurStat>)

  type CodeMap = map<string, Dtc>

  /** Keyed by upper-cased code; a later entry replaces an earlier one. */
  function CodesOf(dtcs: seq<Dtc>): CodeMap {
    if dtcs == [] then map[]
    else var n := |dtcs| - 1; CodesOf(dtcs[..n])[Upper(dtcs[n].code) := dtcs[n]]
  }

  ghost predicate IsLastEntry(dtcs: seq<Dtc>, i: nat, code: string) {
    i < |dtcs| && Upper(dtcs[i].code) == code && forall j | i < j < |dtcs| :: Upper(dtcs[j].code) != code
  }

  /** The code map has exactly the upper-cased codes listed, each with its last entry. */
  lemma {:induction false} CodesHoldLastEntry(dtcs: seq<Dtc>, code: string) returns (i: nat)
    ensures if code in CodesOf(dtcs) then IsLastEntry(dtcs, i, code) && CodesOf(dtcs)[code] == dtcs[i]
            else forall j | 0 <= j < |dtcs| :: Upper(dtcs[j].code) != code
  {
    hide Upper;
    i := 0;
    if dtcs != [] {
      var n := |dtcs| - 1;
      if Upper(dtcs[n].code) == code { i := n; } else { i := CodesHoldLastEntry(dtcs[..n], code); }
    }
  }

  predicate HasAny(codes: CodeMap, list: seq<string>) {
    exists c | c in list :: c in codes
  }

  function Related(codes: CodeMap, list: seq<string>): seq<string> {
    if list == [] then [] else (if list[0] in codes then [list[0]] else []) + Related(codes, list[1..])
  }

  function Or(x: Option<real>, default: real): real {
    if x.Some? then x.value else default
  }

  function Abs(x: real): real {
    if x < 0.0 then -x else x
  }

  function Max(x: real, y: real): real {
    if x < y then y else x
  }

  // ---------------------------------------------------------------- the rules

  const LEAN: seq<string> := ["P0171", "P0174"]

  function TrimIdleVsCruise(focus: string, codes: CodeMap, live: Option<LiveSnapshot>): (fs: seq<Finding>)
    ensures OneOf(fs, 0)
  {
    if live.None? || live.value.stft1.None? || live.value.ltft1.None? then []
    else
      var st, lt := live.value.stft1.value, live.value.ltft1.value;
      var rpm, speed := Or(live.value.rpm, 0.0), Or(live.value.speed, 0.0);
      var idle := rpm > 0.0 && rpm < 1100.0 && speed < 3.0;
      var lean := HasAny(codes, LEAN) || focus in LEAN;
      (if lean && idle && st > 12.0 && lt > 10.0
       then [Finding(IdleLean, 78.0, Likely, Related(codes, LEAN), [Trims(st, lt, rpm), IdleSample])] else [])
      + (if lean && !idle && rpm > 1800.0 && st > 10.0 && lt > 10.0
         then [Finding(CruiseLean, 72.0, Likely, Related(codes, LEAN), [Trims(st, lt, rpm)])] else [])
      + (if (focus == "P0172" || "P0172" in codes) && st < -12.0 && lt < -8.0
         then [Finding(RichBias, 70.0, Likely, Related(codes, ["P0172"]), [TrimsOnly(st, lt)])] else [])
  }

  function MafPlausibility(focus: string, codes: CodeMap, live: Option<LiveSnapshot>): (fs: seq<Finding>)
    ensures OneOf(fs, 1)
  {
    if live.None? || live.value.maf.None? || live.value.rpm.None? then []
    else
      var rpm, maf := live.value.rpm.value, live.value.maf.value;
      if rpm < 600.0 then []
      else
        var expectedIdle := if Or(live.value.load, 0.0) > 40.0 then 8.0 else 3.5;
        var ratio := maf / Max(expectedIdle * (rpm / 800.0), 0.5);
        var leanish := HasAny(codes, LEAN) || focus == "P0171";
        if leanish && ratio < 0.55 then [Finding(MafLow, 68.0, Watch, Related(codes, LEAN), [Airflow(maf, rpm, ratio)])]
        else if leanish && ratio > 1.8
        then [Finding(MafHigh, 60.0, Watch, Related(codes, LEAN), [Airflow(maf, rpm, ratio)])]
        else []
  }

  function O2CatalystProxy(focus: string, codes: CodeMap, live: Option<LiveSnapshot>): (fs: seq<Finding>)
    ensures OneOf(fs, 2)
  {
    if live.None? || live.value.o2s1.None? || live.value.o2s2.None? then []
    else if focus != "P0420" && "P0420" !in codes then []
    else
      var s1, s2 := live.value.o2s1.value, live.value.o2s2.value;
      var delta := Abs(s1 - s2);
      if delta < 0.05 && s2 > 0.4 && s2 < 0.7
      then [Finding(RearTracksFront, 55.0, Watch, Related(codes, ["P0420"]), [Sensors(s1, s2, delta)])] else []
  }

  /** The code's own freeze frame, else the one the observations keep for it. */
  function FrameFor(focus: string, codes: CodeMap, obs: Observations): Option<Frame> {
    if focus in codes && codes[focus].frame.Some? then codes[focus].frame
    else if focus in obs.frames then Some(obs.frames[focus])
    else None
  }

  function FreezeFrameMismatch(focus: string, codes: CodeMap, obs: Option<Observations>): (fs: seq<Finding>)
    ensures OneOf(fs, 3)
  {
    if obs.None? || obs.value.live.None? then []
    else
      var frame := FrameFor(focus, codes, obs.value);
      if frame.None? || frame.value.rpm.None? || obs.value.live.value.rpm.None? then []
      else
        var ff, now := frame.value.rpm.value, obs.value.live.value.rpm.value;
        if Abs(ff - now) > 800.0
        then [Finding(ConditionMismatch, 74.0, Likely, [focus], [FrameVersusLive(ff, now)])] else []
  }

  const CYLINDERS: seq<string> := ["P0301", "P0302", "P0303", "P0304", "P0305", "P0306"]

  function MisfireFingerprint(focus: string, codes: CodeMap, live: Option<LiveSnapshot>): (fs: seq<Finding>)
    ensures OneOf(fs, 4)
  {
    if focus != "P0300" && "P0300" !in codes then []
    else
      var cyl := Related(codes, CYLINDERS);
      if |cyl| == 1 then [Finding(SingleCylinder, 80.0, Likely, ["P0300"] + cyl, [Cylinder(cyl)])]
      else if |cyl| == 0 && live.Some? && live.value.stft1.Some? && live.value.stft1.value > 12.0
      then [Finding(LeanMisfire, 66.0, Watch, Related(codes, ["P0300", "P0171"]),
                    [MisfireTrim(live.value.stft1.value)])]
      else []
  }

  function LinkFragility(link: Option<LinkMetrics>): (fs: seq<Finding>)
    ensures OneOf(fs, 5)
  {
    if link.Some? && link.value.confidence > 0.0 && link.value.confidence < 55.0
    then [Finding(FragileLink, 62.0, Watch, [], [LinkCounts(link.value)])] else []
  }

  function ModuleVoltage(live: Option<LiveSnapshot>): (fs: seq<Finding>)
    ensures OneOf(fs, 6)
  {
    if live.Some? && live.value.volts.Some? && live.value.volts.value > 0.0 && live.value.volts.value < 11.8
    then [Finding(LowVoltage, 76.0, Likely, [], [Volts(live.value.volts.value)])] else []
  }

  function Frequent(stats: seq<CoOccurStat>): seq<CoOccurStat> {
    if stats == [] then []
    else (if stats[0].rate < 0.25 || stats[0].withCount < 2 then [] else [stats[0]]) + Frequent(stats[1..])
  }

  function FleetEvidence(focus: string, top: seq<CoOccurStat>): (e: seq<Evidence>)
    ensures |e| == |top|
  {
    seq(|top|, i requires 0 <= i < |top| => Fleet(top[i].code, top[i].rate * 100.0, focus, top[i].withCount))
  }

  function CodesIn(top: seq<CoOccurStat>): (e: seq<string>)
    ensures |e| == |top|
  {
    seq(|top|, i requires 0 <= i < |top| => top[i].code)
  }

  /** The first three partners, those seen at least twice and in a quarter of the scans. */
  function CoOccurrenceFindings(focus: string, stats: seq<CoOccurStat>): (fs: seq<Finding>)
    ensures OneOf(fs, 7)
  {
    var top := Frequent(if |stats| > 3 then stats[..3] else stats);
    if focus == "" || top == [] then []
    else [Finding(CoOccurrence, 58.0, Info, [focus] + CodesIn(top), FleetEvidence(focus, top))]
  }

  lemma {:induction false} FrequentAppend(stats: seq<CoOccurStat>, s: CoOccurStat)
    ensures Frequent(stats + [s]) == Frequent(stats) + if s.rate < 0.25 || s.withCount < 2 then [] else [s]
  {
    if stats != [] {
      FrequentAppend(stats[1..], s);
      assert (stats + [s])[1..] == stats[1..] + [s];
    }
  }

  /** One more partner kept is one more code and one more line of evidence. */
  lemma KeptOneMore(focus: string, kept: seq<CoOccurStat>, s: CoOccurStat)
    ensures CodesIn([]) == [] && FleetEvidence(focus, []) == [] && Frequent([]) == []
    ensures CodesIn(kept + [s]) == CodesIn(kept) + [s.code]
    ensures FleetEvidence(focus, kept + [s])
            == FleetEvidence(focus, kept) + [Fleet(s.code, s.rate * 100.0, focus, s.withCount)]
  {}

  method CoOccurrenceRule(focus: string, stats: seq<CoOccurStat>) returns (out: seq<Finding>)
    ensures out == CoOccurrenceFindings(focus, stats)
  {
    hide CodesIn, FleetEvidence, Frequent;
    if focus == "" || |stats| == 0 {
      KeptOneMore(focus, [], CoOccurStat("", 0, 0, 0.0));
      return [];
    }
    var top: seq<string>, evidence: seq<Evidence> := [], [];
    ghost var kept: seq<CoOccurStat> := [];
    var i := 0;
    KeptOneMore(focus, kept, stats[0]);
    while i < |stats|
      invariant 0 <= i <= |stats| && i <= 3
      invariant kept == Frequent(stats[..i]) && top == CodesIn(kept) && evidence == FleetEvidence(focus, kept)
    {
      if i >= 3 { break; }
      var s := stats[i];
      FrequentAppend(stats[..i], s);
      KeptOneMore(focus, kept, s);
      assert stats[..i + 1] == stats[..i] + [s];
      i := i + 1;
      if s.rate < 0.25 || s.withCount < 2 { continue; }
      top := top + [s.code];
      evidence := evidence + [Fleet(s.code, s.rate * 100.0, focus, s.withCount)];
      kept := kept + [s];
    }
    assert stats[..i] == if |stats| > 3 then stats[..3] else stats;
    if |top| == 0 { return []; }
    out := [Finding(CoOccurrence, 58.0, Info, [focus] + top, evidence)];
  }

  // ---------------------------------------------------------------- all rules

  /** The findings in rule order, before ranking. */
  function RuleOutputs(in_: Input): seq<Finding> {
    var live := if in_.obs.Some? then in_.obs.value.live else None;
    var link := if in_.obs.Some? then in_.obs.value.link else None;
    var codes := CodesOf(in_.dtcs);
    var focus := Upper(in_.focus);
    TrimIdleVsCruise(focus, codes, live) + MafPlausibility(focus, codes, live) + O2CatalystProxy(focus, codes, live)
    + FreezeFrameMismatch(focus, codes, in_.obs) + MisfireFingerprint(focus, codes, live) + LinkFragility(link)
    + ModuleVoltage(live) + CoOccurrenceFindings(focus, in_.coOccur)
  }

  /** Which of the eight rules a finding comes from. */
  function Group(r: Rule): nat {
    match r
    case IdleLean => 0 case CruiseLean => 0 case RichBias => 0
    case MafLow => 1 case MafHigh => 1
    case RearTracksFront => 2 case ConditionMismatch => 3
    case SingleCylinder => 4 case LeanMisfire => 4
    case FragileLink => 5 case LowVoltage => 6 case CoOccurrence => 7
  }

  /** How confident each kind of finding is: the same in every finding, never as much as 85, and never the same for
      two kinds. */
  function Sureness(r: Rule): (c: real)
    ensures 0.0 < c <= 80.0
  {
    match r
    case SingleCylinder => 80.0
    case IdleLean => 78.0
    case LowVoltage => 76.0
    case ConditionMismatch => 74.0
    case CruiseLean => 72.0
    case RichBias => 70.0
    case MafLow => 68.0
    case LeanMisfire => 66.0
    case FragileLink => 62.0
    case MafHigh => 60.0
    case CoOccurrence => 58.0
    case RearTracksFront => 55.0
  }

  /** One rule's output: at most one finding, of its own group, as confident as its kind. */
  ghost predicate OneOf(fs: seq<Finding>, g: nat) {
    |fs| <= 1 && forall i | 0 <= i < |fs| :: Group(fs[i].rule) == g && fs[i].confidence == Sureness(fs[i].rule)
  }

  /** Findings of strictly increasing groups below g. */
  ghost predicate Grouped(fs: seq<Finding>, g: nat) {
    && |fs| <= g
    && (forall i | 0 <= i < |fs| :: Group(fs[i].rule) < g && fs[i].confidence == Sureness(fs[i].rule))
    && (forall i, j | 0 <= i < j < |fs| :: Group(fs[i].rule) < Group(fs[j].rule))
  }

  lemma GroupedAppend(fs: seq<Finding>, g: nat, more: seq<Finding>)
    requires Grouped(fs, g) && OneOf(more, g)
    ensures Grouped(fs + more, g + 1)
  {
  }

  /** At most eight findings, with pairwise distinct rules, each as confident as its kind. */
  lemma RuleOutputsGrouped(in_: Input)
    ensures Grouped(RuleOutputs(in_), 8)
  {
    hide TrimIdleVsCruise, MafPlausibility, O2CatalystProxy, FreezeFrameMismatch, MisfireFingerprint, LinkFragility,
      ModuleVoltage, CoOccurrenceFindings, OneOf, Grouped, CodesOf;
    var live := if in_.obs.Some? then in_.obs.value.live else None;
    var link := if in_.obs.Some? then in_.obs.value.link else None;
    var codes, focus := CodesOf(in_.dtcs), Upper(in_.focus);
    var f1 := TrimIdleVsCruise(focus, codes, live);
    OneIsGrouped(f1);
    var f2 := f1 + MafPlausibility(focus, codes, live);
    GroupedAppend(f1, 1, MafPlausibility(focus, codes, live));
    var f3 := f2 + O2CatalystProxy(focus, codes, live);
    GroupedAppend(f2, 2, O2CatalystProxy(focus, codes, live));
    var f4 := f3 + FreezeFrameMismatch(focus, codes, in_.obs);
    GroupedAppend(f3, 3, FreezeFrameMismatch(focus, codes, in_.obs));
    var f5 := f4 + MisfireFingerprint(focus, codes, live);
    GroupedAppend(f4, 4, MisfireFingerprint(focus, codes, live));
    var f6 := f5 + LinkFragility(link);
    GroupedAppend(f5, 5, LinkFragility(link));
    var f7 := f6 + ModuleVoltage(live);
    GroupedAppend(f6, 6, ModuleVoltage(live));
    GroupedAppend(f7, 7, CoOccurrenceFindings(focus, in_.coOccur));
  }

  lemma OneIsGrouped(fs: seq<Finding>)
    requires OneOf(fs, 0)
    ensures Grouped(fs, 1)
  {}

  /** A rule of its own group is found in the middle part or nowhere. */
  lemma FoundInOwnPart(before: seq<Finding>, mine: seq<Finding>, after: seq<Finding>, rule: Rule)
    requires forall i | 0 <= i < |before| :: before[i].rule != rule
    requires forall i | 0 <= i < |after| :: after[i].rule != rule
    requires forall i | 0 <= i < |mine| :: mine[i].rule == rule
    ensures Found(before + mine + after, rule) <==> mine != []
  {
    if mine != [] { assert (before + mine + after)[|before|] == mine[0]; }
  }

  ghost predicate Found(fs: seq<Finding>, rule: Rule) {
    exists i :: 0 <= i < |fs| && fs[i].rule == rule
  }

  /** The link rule speaks up exactly when the scan failed more than nine of every twenty commands. */
  lemma FragileFindingIff(in_: Input, dtcs: nat, live: bool)
    requires in_.obs.Some? && in_.obs.value.link.Some? && OfFinishedScan(in_.obs.value.link.value, dtcs, live)
    ensures var m := in_.obs.value.link.value;
            Found(RuleOutputs(in_), FragileLink) <==> 20 * m.failures > 9 * m.attempts
  {
    hide TrimIdleVsCruise, MafPlausibility, O2CatalystProxy, FreezeFrameMismatch, MisfireFingerprint,
      ModuleVoltage, CoOccurrenceFindings, CodesOf, LinkConfidence, Upper, Found;
    var m := in_.obs.value.link.value;
    var sample := in_.obs.value.live;
    var codes, focus := CodesOf(in_.dtcs), Upper(in_.focus);
    var before := TrimIdleVsCruise(focus, codes, sample) + MafPlausibility(focus, codes, sample)
                  + O2CatalystProxy(focus, codes, sample) + FreezeFrameMismatch(focus, codes, in_.obs)
                  + MisfireFingerprint(focus, codes, sample);
    var volts, fleet := ModuleVoltage(sample), CoOccurrenceFindings(focus, in_.coOccur);
    assert RuleOutputs(in_) == before + LinkFragility(Some(m)) + (volts + fleet);
    FragileIff(m, dtcs, live);
    FoundInOwnPart(before, LinkFragility(Some(m)), volts + fleet, FragileLink);
  }

  // ---------------------------------------------------------------- ranking

  function WithConfidence(fs: seq<Finding>, c: real): seq<Finding> {
    if fs == [] then []
    else WithConfidence(fs[..|fs| - 1], c) + if fs[|fs| - 1].confidence == c then [fs[|fs| - 1]] else []
  }

  ghost predicate Descending(fs: seq<Finding>) {
    forall i, j | 0 <= i < j < |fs| :: fs[i].confidence >= fs[j].confidence
  }

  /** Equally confident findings keep their order, and nothing is added or lost. */
  ghost predicate SameOrderPerConfidence(fs: seq<Finding>, gs: seq<Finding>) {
    forall c :: WithConfidence(fs, c) == WithConfidence(gs, c)
  }

  lemma {:induction false} WithConfidenceAppend(fs: seq<Finding>, gs: seq<Finding>, c: real)
    ensures WithConfidence(fs + gs, c) == WithConfidence(fs, c) + WithConfidence(gs, c)
  {
    if gs == [] {
      assert fs + gs == fs;
    } else {
      var n := |gs| - 1;
      WithConfidenceAppend(fs, gs[..n], c);
      assert (fs + gs)[..|fs| + n] == fs + gs[..n];
    }
  }

  lemma PairByConfidence(x: Finding, y: Finding, c: real)
    ensures WithConfidence([x, y], c)
            == (if x.confidence == c then [x] else []) + (if y.confidence == c then [y] else [])
  {
    assert [x, y][..1] == [x];
    assert WithConfidence([x], c) == if x.confidence == c then [x] else [];
  }

  /** Swapping two neighbours of different confidence disturbs no group. */
  lemma SwapKeepsOrder(fs: seq<Finding>, j: nat)
    requires 0 < j < |fs| && fs[j - 1].confidence < fs[j].confidence
    ensures SameOrderPerConfidence(fs, fs[j - 1 := fs[j]][j := fs[j - 1]])
  {
    var x, y := fs[j - 1], fs[j];
    var gs := fs[j - 1 := y][j := x];
    var before, after := fs[..j - 1], fs[j + 1..];
    assert fs == before + [x, y] + after && gs == before + [y, x] + after;
    forall c ensures WithConfidence(fs, c) == WithConfidence(gs, c) {
      WithConfidenceAppend(before + [x, y], after, c);
      WithConfidenceAppend(before, [x, y], c);
      WithConfidenceAppend(before + [y, x], after, c);
      WithConfidenceAppend(before, [y, x], c);
      PairByConfidence(x, y, c);
      PairByConfidence(y, x, c);
    }
  }

  /** rank's inner loop: the i-th finding moves left past everything less confident. */
  method Insert(out: array<Finding>, i: nat, ghost in_: seq<Finding>)
    requires i < out.Length && Descending(out[..i]) && SameOrderPerConfidence(in_, out[..])
    modifies out
    ensures Descending(out[..i + 1]) && SameOrderPerConfidence(in_, out[..])
  {
    hide SameOrderPerConfidence, WithConfidence;
    var j := i;
    while j > 0 && out[j - 1].confidence < out[j].confidence
      invariant 0 <= j <= i && SameOrderPerConfidence(in_, out[..])
      invariant forall p, q | 0 <= p < q <= i && q != j && p != j :: out[p].confidence >= out[q].confidence
      invariant forall q | j < q <= i :: out[j].confidence >= out[q].confidence
    {
      ghost var swapped := out[..][j - 1 := out[j]][j := out[j - 1]];
      SwapKeepsOrder(out[..], j);
      SameOrderTransitive(in_, out[..], swapped);
      out[j - 1], out[j] := out[j], out[j - 1];
      assert out[..] == swapped;
      j := j - 1;
    }
  }

  /** rank: a copy, insertion-sorted in place by swapping neighbours. */
  method RankFindings(in_: seq<Finding>) returns (ranked: seq<Finding>)
    ensures Descending(ranked) && SameOrderPerConfidence(in_, ranked)
  {
    hide SameOrderPerConfidence;
    var out := new Finding[|in_|](i requires 0 <= i < |in_| => in_[i]);
    assert out[..] == in_;
    SameOrderReflexive(in_);
    var i := 1;
    while i < out.Length
      invariant 1 <= i && (i <= out.Length || out.Length == 0)
      invariant SameOrderPerConfidence(in_, out[..])
      invariant out.Length > 0 ==> Descending(out[..i])
    {
      Insert(out, i, in_);
      i := i + 1;
    }
    ranked := out[..];
    assert out.Length > 0 ==> out[..i] == out[..];
  }

  lemma SameOrderReflexive(fs: seq<Finding>)
    ensures SameOrderPerConfidence(fs, fs)
  {}

  lemma SameOrderTransitive(fs: seq<Finding>, gs: seq<Finding>, hs: seq<Finding>)
    requires SameOrderPerConfidence(fs, gs) && SameOrderPerConfidence(gs, hs)
    ensures SameOrderPerConfidence(fs, hs)
  {}

  lemma {:induction false} CountWithinConfidence(fs: seq<Finding>, f: Finding)
    ensures multiset(fs)[f] == multiset(WithConfidence(fs, f.confidence))[f]
  {
    if fs != [] {
      var n := |fs| - 1;
      CountWithinConfidence(fs[..n], f);
      assert fs == fs[..n] + [fs[n]];
    }
  }

  /** Same order per confidence makes it a permutation. */
  lemma SameOrderIsPermutation(fs: seq<Finding>, gs: seq<Finding>)
    requires SameOrderPerConfidence(fs, gs)
    ensures multiset(fs) == multiset(gs) && |fs| == |gs|
  {
    forall f ensures multiset(fs)[f] == multiset(gs)[f] {
      CountWithinConfidence(fs, f);
      CountWithinConfidence(gs, f);
    }
    assert multiset(fs) == multiset(gs);
    assert |fs| == |multiset(fs)| == |multiset(gs)| == |gs|;
  }

  /** The last, least confident finding of a descending list is the last of its confidence group. */
  lemma LastFindingsAgree(fs: seq<Finding>, gs: seq<Finding>)
    requires Descending(fs) && Descending(gs) && SameOrderPerConfidence(fs, gs) && fs != [] && |fs| == |gs|
    requires multiset(fs) == multiset(gs)
    ensures fs[|fs| - 1] == gs[|gs| - 1] && SameOrderPerConfidence(fs[..|fs| - 1], gs[..|gs| - 1])
  {
    var n := |fs| - 1;
    var x, y := fs[n], gs[n];
    assert x in multiset(gs) && y in multiset(fs);
    assert x in gs && y in fs;
    assert x.confidence == y.confidence;
    hide WithConfidence;
    forall c ensures WithConfidence(fs[..n], c) == WithConfidence(gs[..n], c) && (c == x.confidence ==> x == y) {
      GroupWithoutLast(fs, c);
      GroupWithoutLast(gs, c);
    }
    assert WithConfidence(fs[..n], x.confidence) == WithConfidence(gs[..n], x.confidence);
  }

  lemma GroupWithoutLast(fs: seq<Finding>, c: real)
    requires fs != []
    ensures var n, w := |fs| - 1, WithConfidence(fs, c);
            if fs[n].confidence == c then w != [] && w[|w| - 1] == fs[n] && w[..|w| - 1] == WithConfidence(fs[..n], c)
            else w == WithConfidence(fs[..n], c)
  {}

  /** A descending, order-keeping list is unique: ranking leaves no choice. */
  lemma {:induction false} RankingIsUnique(fs: seq<Finding>, gs: seq<Finding>)
    requires Descending(fs) && Descending(gs) && SameOrderPerConfidence(fs, gs)
    ensures fs == gs
    decreases |fs|
  {
    SameOrderIsPermutation(fs, gs);
    hide SameOrderPerConfidence;
    if fs != [] {
      LastFindingsAgree(fs, gs);
      RankingIsUnique(fs[..|fs| - 1], gs[..|gs| - 1]);
      assert fs == fs[..|fs| - 1] + [fs[|fs| - 1]] && gs == gs[..|gs| - 1] + [gs[|gs| - 1]];
    }
  }

  ghost predicate DistinctRules(fs: seq<Finding>) {
    forall i, j | 0 <= i < j < |fs| :: fs[i].rule != fs[j].rule
  }

  lemma {:induction false} OnceInDistinct(fs: seq<Finding>, f: Finding)
    requires DistinctRules(fs)
    ensures multiset(fs)[f] <= 1
  {
    if fs != [] {
      var n := |fs| - 1;
      OnceInDistinct(fs[..n], f);
      assert fs == fs[..n] + [fs[n]];
      if f == fs[n] { assert f !in fs[..n]; }
    }
  }

  lemma {:induction false} TwiceAtTwoPlaces(fs: seq<Finding>, i: nat, j: nat)
    requires i < j < |fs| && fs[i] == fs[j]
    ensures multiset(fs)[fs[i]] >= 2
  {
    var n := |fs| - 1;
    assert fs == fs[..n] + [fs[n]];
    if j < n { TwiceAtTwoPlaces(fs[..n], i, j); } else { assert fs[..n][i] == fs[i]; }
  }

  lemma PermutationKeepsDistinctRules(fs: seq<Finding>, gs: seq<Finding>)
    requires DistinctRules(fs) && multiset(fs) == multiset(gs)
    ensures DistinctRules(gs)
  {
    forall i, j | 0 <= i < j < |gs| ensures gs[i].rule != gs[j].rule {
      if gs[i].rule == gs[j].rule {
        assert gs[i] in multiset(fs) && gs[j] in multiset(fs);
        assert gs[i] in fs && gs[j] in fs;
        assert gs[i] == gs[j];
        TwiceAtTwoPlaces(gs, i, j);
        OnceInDistinct(fs, gs[i]);
      }
    }
  }

  /** What Analyze promises for every input. */
  ghost predicate Analysis(in_: Input, out: seq<Finding>) {
    && Descending(out) && SameOrderPerConfidence(RuleOutputs(in_), out)
    && |out| <= 8 && DistinctRules(out)
    && forall i | 0 <= i < |out| :: out[i].confidence == Sureness(out[i].rule)
  }

  lemma RankedOutputsAreAnalysis(in_: Input, out: seq<Finding>)
    requires Descending(out) && SameOrderPerConfidence(RuleOutputs(in_), out)
    ensures Analysis(in_, out)
  {
    hide RuleOutputs, SameOrderPerConfidence;
    var fs := RuleOutputs(in_);
    RuleOutputsGrouped(in_);
    SameOrderIsPermutation(fs, out);
    PermutationKeepsDistinctRules(fs, out);
    forall i | 0 <= i < |out| ensures out[i].confidence == Sureness(out[i].rule) {
      assert out[i] in multiset(fs);
      assert out[i] in fs;
    }
  }

  /** Ties never happen, so stability is never called upon: results are strictly descending, and any two kinds of
      finding come in the same order in every analysis that has both. */
  lemma RankingOrderIsFixed(in1: Input, out1: seq<Finding>, in2: Input, out2: seq<Finding>, i: nat, j: nat, k: nat,
                            l: nat)
    requires Analysis(in1, out1) && Analysis(in2, out2)
    requires i < j < |out1| && k < |out2| && l < |out2| && out1[i].rule == out2[k].rule && out1[j].rule == out2[l].rule
    ensures out1[i].confidence > out1[j].confidence && k < l
  {
    SurenessDiffers(out1[i].rule, out1[j].rule);
    hide Sureness, SameOrderPerConfidence, RuleOutputs;
  }

  /** The result names exactly the rules that fired, surest first. */
  lemma ResultIsFiredRules(in_: Input, out: seq<Finding>)
    requires Analysis(in_, out)
    ensures forall r :: Found(out, r) <==> Found(RuleOutputs(in_), r)
    ensures forall i, j | 0 <= i < j < |out| :: Sureness(out[i].rule) > Sureness(out[j].rule)
  {
    hide RuleOutputs, SameOrderPerConfidence, Sureness;
    var fs := RuleOutputs(in_);
    SameOrderIsPermutation(fs, out);
    forall r ensures Found(out, r) <==> Found(fs, r) {
      if i :| 0 <= i < |out| && out[i].rule == r { assert out[i] in multiset(fs); assert out[i] in fs; }
      if i :| 0 <= i < |fs| && fs[i].rule == r { assert fs[i] in multiset(out); assert fs[i] in out; }
    }
    forall i, j | 0 <= i < j < |out| ensures Sureness(out[i].rule) > Sureness(out[j].rule) {
      SurenessDiffers(out[i].rule, out[j].rule);
    }
  }

  lemma SurenessDiffers(r1: Rule, r2: Rule)
    ensures Sureness(r1) == Sureness(r2) ==> r1 == r2
  {}

  method Analyze(in_: Input) returns (out: seq<Finding>)
    ensures Analysis(in_, out)
  {
    hide *;
    var codes := MapCodes(in_.dtcs);
    var outputs := RunRules(in_, codes);
    out := RankFindings(outputs);
    RankedOutputsAreAnalysis(in_, out);
  }

  method MapCodes(dtcs: seq<Dtc>) returns (codes: CodeMap)
    ensures codes == CodesOf(dtcs)
  {
    codes := map[];
    for i := 0 to |dtcs|
      invariant codes == CodesOf(dtcs[..i])
    {
      assert dtcs[..i + 1][..i] == dtcs[..i];
      codes := codes[Upper(dtcs[i].code) := dtcs[i]];
    }
    assert dtcs[..|dtcs|] == dtcs;
  }

  method RunRules(in_: Input, codes: CodeMap) returns (out: seq<Finding>)
    requires codes == CodesOf(in_.dtcs)
    ensures out == RuleOutputs(in_)
  {
    hide TrimIdleVsCruise, MafPlausibility, O2CatalystProxy, FreezeFrameMismatch, MisfireFingerprint, LinkFragility,
      ModuleVoltage, CoOccurrenceFindings, CodesOf, Upper;
    var live: Option<LiveSnapshot>, link: Option<LinkMetrics> := None, None;
    if in_.obs.Some? { live, link := in_.obs.value.live, in_.obs.value.link; }
    var focus := Upper(in_.focus);
    out := [];
    out := out + TrimIdleVsCruise(focus, codes, live);
    out := out + MafPlausibility(focus, codes, live);
    out := out + O2CatalystProxy(focus, codes, live);
    out := out + FreezeFrameMismatch(focus, codes, in_.obs);
    out := out + MisfireFingerprint(focus, codes, live);
    out := out + LinkFragility(link);
    out := out + ModuleVoltage(live);
    var fleet := CoOccurrenceRule(focus, in_.coOccur);
    out := out + fleet;
  }
}
