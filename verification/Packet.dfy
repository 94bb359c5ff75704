/** The lean packet for a narrative: rank, cut, gate.  The vehicle line and the clipped article summary come in
    as they are; rates are exact rationals. */
module Packet {
  import opened Common
  import opened Diagnosis
  import opened Text

  datatype PacketFinding = PacketFinding(rule: Rule, confidence: real, evidence: seq<Evidence>)
  datatype Article = Article(title: string, summary: string, causes: seq<string>, tests: seq<string>,
                             parts: seq<string>)
  datatype Partner = Partner(code: string, rate: real)

  datatype Packet = Packet(
    code: string, vehicle: string, findings: seq<PacketFinding>, kb: Option<Article>, coOccur: seq<Partner>,
    history: seq<string>)

  datatype BuildInput = BuildInput(
    code: string, findings: seq<Finding>, article: Option<Article>, vehicle: string, coOccur: seq<CoOccurStat>,
    history: seq<string>)

  function Take<T>(s: seq<T>, n: nat): seq<T> {
    if |s| <= n then s else s[..n]
  }

  /** Rounds half up to hundredths; rates are never negative. */
  function Round2(v: real): real {
    (v * 100.0 + 0.5).Floor as real / 100.0
  }

  function Slim(f: Finding): PacketFinding {
    PacketFinding(f.rule, f.confidence, Take(f.evidence, 2))
  }

  function SlimAll(fs: seq<Finding>): (ps: seq<PacketFinding>)
    ensures |ps| == |fs|
  {
    seq(|fs|, i requires 0 <= i < |fs| => Slim(fs[i]))
  }

  /** Partners seen in a quarter of the scans, rounded, in order. */
  function Frequents(stats: seq<CoOccurStat>): seq<Partner> {
    if stats == [] then []
    else var n := |stats| - 1;
         Frequents(stats[..n]) + if stats[n].rate < 0.25 then [] else [Partner(stats[n].code, Round2(stats[n].rate))]
  }

  /** The packet BuildPacket returns, by what it keeps. */
  ghost predicate Built(in_: BuildInput, p: Packet) {
    && p.code == Upper(TrimSpace(in_.code)) && p.vehicle == in_.vehicle
    && p.findings == SlimAll(Take(in_.findings, 3))
    && (p.kb == if in_.article.None? then None else
          var a := in_.article.value;
          Some(Article(a.title, a.summary, Take(a.causes, 3), Take(a.tests, 3), Take(a.parts, 3))))
    && p.coOccur == Take(Frequents(in_.coOccur), 2)
    && p.history == Take(in_.history, 2)
  }

  method BuildPacket(in_: BuildInput) returns (p: Packet)
    ensures Built(in_, p)
  {
    p := Packet(Upper(TrimSpace(in_.code)), in_.vehicle, [], None, [], []);
    var i := 0;
    while i < |in_.findings|
      invariant 0 <= i <= |in_.findings| && i <= 3
      invariant p == Packet(Upper(TrimSpace(in_.code)), in_.vehicle, SlimAll(in_.findings[..i]), None, [], [])
    {
      if i >= 3 { break; }
      var f := in_.findings[i];
      var ev := f.evidence;
      if |ev| > 2 { ev := ev[..2]; }
      assert in_.findings[..i + 1] == in_.findings[..i] + [f];
      p := p.(findings := p.findings + [PacketFinding(f.rule, f.confidence, ev)]);
      i := i + 1;
    }
    assert in_.findings[..i] == Take(in_.findings, 3);
    if in_.article.Some? {
      var a := in_.article.value;
      p := p.(kb := Some(Article(a.title, a.summary, Take(a.causes, 3), Take(a.tests, 3), Take(a.parts, 3))));
    }
    var partners := KeepPartners(in_.coOccur);
    p := p.(coOccur := partners);
    p := p.(history := Take(in_.history, 2));
  }

  method KeepPartners(stats: seq<CoOccurStat>) returns (out: seq<Partner>)
    ensures out == Take(Frequents(stats), 2)
  {
    hide Round2;
    out := [];
    for i := 0 to |stats|
      invariant out == Frequents(stats[..i]) && |out| < 2
    {
      assert stats[..i + 1][..i] == stats[..i];
      if stats[i].rate < 0.25 { continue; }
      out := out + [Partner(stats[i].code, Round2(stats[i].rate))];
      if |out| >= 2 {
        FrequentsPrefix(stats, i + 1);
        return;
      }
    }
    assert stats[..|stats|] == stats;
  }

  lemma {:induction false} FrequentsPrefix(stats: seq<CoOccurStat>, k: nat)
    requires k <= |stats|
    ensures Frequents(stats[..k]) <= Frequents(stats)
    decreases |stats|
  {
    hide Round2;
    if k < |stats| {
      FrequentsPrefix(stats[..|stats| - 1], k);
      assert stats[..|stats| - 1][..k] == stats[..k];
    } else {
      assert stats[..k] == stats;
    }
  }

  lemma Round2IsClose(v: real)
    requires v >= 0.0
    ensures -0.005 <= Round2(v) - v <= 0.005
  {
  }

  // ---------------------------------------------------------------- the gate

  datatype Reason = Forced | NoFindingsOrKb | StructuredSufficient | KbOnly | Fine

  function WorthNarrating(p: Packet, force: bool): (bool, Reason) {
    if force then (true, Forced)
    else if p.findings == [] && p.kb.None? then (false, NoFindingsOrKb)
    else if |p.findings| == 1 && p.findings[0].confidence >= 85.0 && p.kb.Some? then (false, StructuredSufficient)
    else if p.findings == [] && p.kb.Some? then (false, KbOnly)
    else (true, Fine)
  }

  /** The cut keeps a prefix, and nothing dropped outranks anything kept. */
  lemma CutKeepsTheBest(in_: BuildInput, p: Packet, kept: nat, dropped: nat)
    requires Built(in_, p) && Descending(in_.findings)
    requires kept < |p.findings| <= dropped < |in_.findings|
    ensures |p.findings| == 3 && p.findings[kept] == Slim(in_.findings[kept])
    ensures p.findings[kept].confidence >= in_.findings[dropped].confidence
    ensures |p.findings[kept].evidence| <= 2 && p.findings[kept].evidence <= in_.findings[kept].evidence
  {
  }

  /** Rules, ranking, cut and gate together: for every input the unforced gate opens exactly when some rule fired.
      No rule is confident enough for "structured_sufficient", so that answer is never given. */
  lemma NarratedIffSomethingFound(in_: Input, out: seq<Finding>, b: BuildInput, p: Packet)
    requires Analysis(in_, out) && b.findings == out && Built(b, p)
    ensures WorthNarrating(p, false).0 <==> RuleOutputs(in_) != []
    ensures WorthNarrating(p, false).1 != StructuredSufficient
    ensures !WorthNarrating(p, false).0 ==>
              WorthNarrating(p, false).1 == if b.article.Some? then KbOnly else NoFindingsOrKb
  {
    hide RuleOutputs, SameOrderPerConfidence;
    SameOrderIsPermutation(RuleOutputs(in_), out);
  }
}
