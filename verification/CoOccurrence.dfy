/** Fleet co-occurrence: the query over one row per (scan, code) observation, as counts on a bag of rows. */
module CoOccurrence {
  import opened Common
  import opened Text

  datatype Row = Row(scan: nat, org: nat, code: string)

  /** focus_scans: one entry per matching observation, so a scan that repeats the focus code appears twice. */
  function FocusScans(rows: seq<Row>, focus: string, org: Option<nat>): seq<nat> {
    if rows == [] then []
    else
      var r := rows[0];
      (if Upper(r.code) == Upper(focus) && (org.Some? ==> r.org == org.value) then [r.scan] else [])
      + FocusScans(rows[1..], focus, org)
  }

  function CountIn(rows: seq<Row>, scan: nat, code: string): nat {
    if rows == [] then 0
    else (if rows[0].scan == scan && rows[0].code == code then 1 else 0) + CountIn(rows[1..], scan, code)
  }

  /** count(*) of the join, for one group. */
  function WithCount(rows: seq<Row>, scans: seq<nat>, code: string): nat {
    if scans == [] then 0 else CountIn(rows, scans[0], code) + WithCount(rows, scans[1..], code)
  }

  datatype Stat = Stat(code: string, withCount: nat, focusCount: nat, rate: real)

  /** The result row of one code; none for the focus code itself and for codes that never join. */
  function Query(rows: seq<Row>, focus: string, org: Option<nat>, code: string): Option<Stat> {
    var scans := FocusScans(rows, focus, org);
    var n := WithCount(rows, scans, code);
    if Upper(code) == Upper(focus) || n < 1 then None
    else Some(Stat(code, n, |scans|, if |scans| == 0 then 0.0 else n as real / |scans| as real))
  }

  /** Focus entries whose scan lacks the code. */
  function Missing(rows: seq<Row>, scans: seq<nat>, code: string): nat {
    if scans == [] then 0
    else (if CountIn(rows, scans[0], code) == 0 then 1 else 0) + Missing(rows, scans[1..], code)
  }

  /** Repeats of the code beyond the first, over the focus entries. */
  function Extra(rows: seq<Row>, scans: seq<nat>, code: string): nat {
    if scans == [] then 0
    else
      var n := CountIn(rows, scans[0], code);
      (if n == 0 then 0 else n - 1) + Extra(rows, scans[1..], code)
  }

  lemma {:induction false} JoinBalance(rows: seq<Row>, scans: seq<nat>, code: string)
    ensures WithCount(rows, scans, code) + Missing(rows, scans, code) == |scans| + Extra(rows, scans, code)
  {
    if scans != [] { JoinBalance(rows, scans[1..], code); }
  }

  lemma QuotientAtMostOne(n: nat, d: nat)
    requires n >= 1 && d >= 1
    ensures 0.0 < n as real / d as real
    ensures n as real / d as real <= 1.0 <==> n <= d
  {
    var q := n as real / d as real;
    assert q * d as real == n as real;
  }

  /** The rate is a fraction exactly when the code's repeats within focus scans are no more than the focus scans
      without it. */
  lemma RateIsFractionIff(rows: seq<Row>, focus: string, org: Option<nat>, code: string)
    requires Query(rows, focus, org, code).Some?
    ensures var scans := FocusScans(rows, focus, org);
            var rate := Query(rows, focus, org, code).value.rate;
            0.0 < rate && (rate <= 1.0 <==> Extra(rows, scans, code) <= Missing(rows, scans, code))
  {
    var scans := FocusScans(rows, focus, org);
    JoinBalance(rows, scans, code);
    QuotientAtMostOne(WithCount(rows, scans, code), |scans|);
  }

  ghost predicate NoRepeats(rows: seq<Row>) {
    forall scan, code :: CountIn(rows, scan, code) <= 1
  }

  lemma {:induction false} NoExtra(rows: seq<Row>, scans: seq<nat>, code: string)
    requires NoRepeats(rows)
    ensures Extra(rows, scans, code) == 0
  {
    if scans != [] { NoExtra(rows, scans[1..], code); }
  }

  /** When no scan repeats a code -- as ReadDTCs guarantees for its own scans -- every rate is in (0, 1]. */
  lemma RateIsFraction(rows: seq<Row>, focus: string, org: Option<nat>, code: string)
    requires NoRepeats(rows) && Query(rows, focus, org, code).Some?
    ensures 0.0 < Query(rows, focus, org, code).value.rate <= 1.0
    ensures var scans := FocusScans(rows, focus, org);
            Query(rows, focus, org, code).value.withCount == |scans| - Missing(rows, scans, code)
  {
    JoinBalance(rows, FocusScans(rows, focus, org), code);
    NoExtra(rows, FocusScans(rows, focus, org), code);
    RateIsFractionIff(rows, focus, org, code);
  }

  /** Nothing in the tables enforces that: a scan that lists a code twice gives it rate 2. */
  lemma RepeatedCodeExceedsOne()
    ensures var rows := [Row(1, 1, "P0171"), Row(1, 1, "P0300"), Row(1, 1, "P0300")];
            Query(rows, "P0171", None, "P0300") == Some(Stat("P0300", 2, 1, 2.0))
  {
    var rows := [Row(1, 1, "P0171"), Row(1, 1, "P0300"), Row(1, 1, "P0300")];
    assert Upper("P0171")[1] != Upper("P0300")[1] || Upper("P0171")[2] != Upper("P0300")[2];
    assert rows[1..] == [rows[1], rows[2]] && rows[1..][1..] == [rows[2]];
    assert FocusScans([rows[2]], "P0171", None) == [];
    assert FocusScans(rows[1..], "P0171", None) == [];
    assert FocusScans(rows, "P0171", None) == [1];
    assert CountIn([rows[2]], 1, "P0300") == 1;
    assert CountIn(rows[1..], 1, "P0300") == 2;
    assert CountIn(rows, 1, "P0300") == 2;
  }
}
