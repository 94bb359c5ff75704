/** Link health of one scan; confidence is an exact percentage. */
module Link {
  datatype LinkMetrics = LinkMetrics(attempts: nat, failures: nat, timeouts: nat, confidence: real)

  function LinkConfidence(m: LinkMetrics): real {
    if m.attempts == 0 then 0.0
    else
      var ok := (m.attempts - m.failures) as real / m.attempts as real;
      var c := ok * 100.0 - if m.timeouts > 0 then m.timeouts as real * 8.0 else 0.0;
      if c < 0.0 then 0.0 else if c > 100.0 then 100.0 else c
  }

  /** Metrics as every finished scan returns them: Identify and ReadDTCs were attempted and did not fail. */
  predicate OfFinishedScan(m: LinkMetrics, dtcs: nat, live: bool) {
    && m.attempts == 2 + dtcs + (if live then 1 else 0)
    && m.failures <= m.attempts - 2
    && m.timeouts == 0
    && m.confidence == LinkConfidence(m)
  }

  lemma QuotientBelow(n: real, d: real, k: real)
    requires d > 0.0
    ensures n / d < k <==> n < k * d
    ensures n / d <= k <==> n <= k * d
  {
    assert n == (n / d) * d;
  }

  /** The fragile-link rule's guard, read back as a count: 20 failures for every 9 attempts. */
  lemma FragileIff(m: LinkMetrics, dtcs: nat, live: bool)
    requires OfFinishedScan(m, dtcs, live)
    ensures 0.0 < m.confidence <= 100.0
    ensures m.confidence < 55.0 <==> 20 * m.failures > 9 * m.attempts
  {
    var n, a := (m.attempts - m.failures) as real, m.attempts as real;
    QuotientBelow(n, a, 0.55);
    QuotientBelow(n, a, 1.0);
    QuotientBelow(n, a, 0.0);
    Percentage(m, n / a);
  }

  lemma Percentage(m: LinkMetrics, ok: real)
    requires m.attempts > 0 && m.timeouts == 0 && ok == (m.attempts - m.failures) as real / m.attempts as real
    requires 0.0 < ok <= 1.0
    ensures LinkConfidence(m) == ok * 100.0
  {}

  /** Only freeze frames and the live sample can fail in a finished scan, and at least two of them must have been
      tried before a link is called fragile. */
  lemma FragileNeedsTwoOptionalReads(m: LinkMetrics, dtcs: nat, live: bool)
    requires OfFinishedScan(m, dtcs, live)
    ensures m.confidence < 55.0 ==> dtcs + (if live then 1 else 0) >= 2
  {
    FragileIff(m, dtcs, live);
  }
}
