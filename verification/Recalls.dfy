/** The recall catalog and the recalls attached to vehicles, as the two upsert statements change them. */
module Recalls {
  import opened Common
  import opened Market
  import opened Text

  datatype Details = Details(component: string, summary: string, consequence: string, remedy: string,
                             reportDate: string)

  datatype Row = Row(make: string, model: string, year: int, campaign: string, details: Details, source: string)

  type Key = (string, string, int, string)

  function KeyOf(r: Row): Key {
    (r.make, r.model, r.year, r.campaign)
  }

  /** UNIQUE (make, model, year, campaign_number) */
  ghost predicate Unique(catalog: seq<Row>) {
    forall i, j | 0 <= i < j < |catalog| :: KeyOf(catalog[i]) != KeyOf(catalog[j])
  }

  /** INSERT ... ON CONFLICT DO UPDATE: the details are replaced, the source is kept. */
  function Upserted(catalog: seq<Row>, r: Row): seq<Row> {
    if catalog == [] then [r.(source := if r.source == "" then "nhtsa" else r.source)]
    else if KeyOf(catalog[0]) == KeyOf(r) then [catalog[0].(details := r.details)] + catalog[1..]
    else [catalog[0]] + Upserted(catalog[1..], r)
  }

  predicate Matches(r: Row, make: string, model: string, year: int) {
    Lower(r.make) == Lower(make) && Lower(r.model) == Lower(model) && r.year == year
  }

  type Attachments = map<(string, string), Row>  // (vehicle, campaign number) -> recall

  /** INSERT ... SELECT ... ON CONFLICT (vehicle_id, campaign_number) DO NOTHING, row by row. */
  function Attached(catalog: seq<Row>, attached: Attachments, vehicle: string, make: string, model: string,
                    year: int): Attachments {
    if catalog == [] then attached
    else
      var r := catalog[0];
      var key := (vehicle, r.campaign);
      var attached1 := if Matches(r, make, model, year) && key !in attached then attached[key := r] else attached;
      Attached(catalog[1..], attached1, vehicle, make, model, year)
  }

  /** The campaigns the catalog lists for a model year, in any spelling of its make and model. */
  ghost predicate Lists(catalog: seq<Row>, make: string, model: string, year: int, campaign: string) {
    exists i :: 0 <= i < |catalog| && Matches(catalog[i], make, model, year) && catalog[i].campaign == campaign
  }

  // ---------------------------------------------------------------- the catalog upsert

  /** After an upsert the catalog has the row's key exactly once, with the new details, and nothing else changed. */
  lemma {:induction false} UpsertReplacesOneRow(catalog: seq<Row>, r: Row) returns (at: nat)
    requires Unique(catalog)
    ensures var after := Upserted(catalog, r);
            && Unique(after) && at < |after| && KeyOf(after[at]) == KeyOf(r) && after[at].details == r.details
            && (if at < |catalog|
                then |after| == |catalog| && after == catalog[at := catalog[at].(details := r.details)]
                else at == |catalog| && after == catalog + [after[at]]
                     && forall i | 0 <= i < |catalog| :: KeyOf(catalog[i]) != KeyOf(r))
    decreases |catalog|
  {
    if catalog == [] || KeyOf(catalog[0]) == KeyOf(r) {
      at := 0;
    } else {
      at := UpsertReplacesOneRow(catalog[1..], r);
      at := at + 1;
    }
  }

  /** An upsert adds its own campaign to what the catalog lists for a model year and takes none away. */
  lemma UpsertKeepsCampaigns(catalog: seq<Row>, r: Row, make: string, model: string, year: int, campaign: string)
    requires Unique(catalog)
    ensures Lists(Upserted(catalog, r), make, model, year, campaign)
            <==> Lists(catalog, make, model, year, campaign)
                 || (Matches(r, make, model, year) && r.campaign == campaign)
  {
    hide Upserted, Matches, Unique, Lists;
    if Lists(catalog, make, model, year, campaign) { UpsertLosesNone(catalog, r, make, model, year, campaign); }
    if Matches(r, make, model, year) && r.campaign == campaign {
      UpsertListsOwn(catalog, r, make, model, year, campaign);
    }
    if Lists(Upserted(catalog, r), make, model, year, campaign) {
      UpsertAddsOnlyOwn(catalog, r, make, model, year, campaign);
    }
  }

  lemma UpsertLosesNone(catalog: seq<Row>, r: Row, make: string, model: string, year: int, campaign: string)
    requires Unique(catalog) && Lists(catalog, make, model, year, campaign)
    ensures Lists(Upserted(catalog, r), make, model, year, campaign)
  {
    hide Upserted, Matches, Unique;
    var at := UpsertReplacesOneRow(catalog, r);
    var i :| 0 <= i < |catalog| && Matches(catalog[i], make, model, year) && catalog[i].campaign == campaign;
    SameKeyMatchesAlike(catalog[i], Upserted(catalog, r)[i], make, model, year);
  }

  lemma UpsertListsOwn(catalog: seq<Row>, r: Row, make: string, model: string, year: int, campaign: string)
    requires Unique(catalog) && Matches(r, make, model, year) && r.campaign == campaign
    ensures Lists(Upserted(catalog, r), make, model, year, campaign)
  {
    hide Upserted, Matches, Unique;
    var at := UpsertReplacesOneRow(catalog, r);
    SameKeyMatchesAlike(r, Upserted(catalog, r)[at], make, model, year);
  }

  lemma UpsertAddsOnlyOwn(catalog: seq<Row>, r: Row, make: string, model: string, year: int, campaign: string)
    requires Unique(catalog) && Lists(Upserted(catalog, r), make, model, year, campaign)
    ensures Lists(catalog, make, model, year, campaign) || (Matches(r, make, model, year) && r.campaign == campaign)
  {
    hide Upserted, Matches, Unique;
    var at := UpsertReplacesOneRow(catalog, r);
    var after := Upserted(catalog, r);
    var i :| 0 <= i < |after| && Matches(after[i], make, model, year) && after[i].campaign == campaign;
    if i == at { SameKeyMatchesAlike(after[i], r, make, model, year); }
    else { SameKeyMatchesAlike(after[i], catalog[i], make, model, year); }
  }

  lemma SameKeyMatchesAlike(r: Row, r1: Row, make: string, model: string, year: int)
    requires KeyOf(r) == KeyOf(r1)
    ensures Matches(r, make, model, year) == Matches(r1, make, model, year) && r.campaign == r1.campaign
  {}

  // ---------------------------------------------------------------- the attach statement

  /** Attaching leaves earlier attachments as they are and adds, for this vehicle only, exactly the campaigns
      the catalog lists for the model year that it did not have yet. */
  lemma {:induction false} AttachCoversListed(catalog: seq<Row>, attached: Attachments, vehicle: string, make: string,
                                              model: string, year: int)
    ensures var after := Attached(catalog, attached, vehicle, make, model, year);
            && (forall key | key in attached :: key in after && after[key] == attached[key])
            && (forall key | key in after && key !in attached :: key.0 == vehicle && after[key] in catalog
                  && Matches(after[key], make, model, year) && after[key].campaign == key.1)
            && (forall campaign :: Lists(catalog, make, model, year, campaign) ==> (vehicle, campaign) in after)
    decreases |catalog|
  {
    if catalog != [] {
      var r := catalog[0];
      var key := (vehicle, r.campaign);
      var attached1 := if Matches(r, make, model, year) && key !in attached then attached[key := r] else attached;
      AttachCoversListed(catalog[1..], attached1, vehicle, make, model, year);
      forall campaign | Lists(catalog, make, model, year, campaign)
        ensures (vehicle, campaign) in Attached(catalog, attached, vehicle, make, model, year)
      {
        var i :| 0 <= i < |catalog| && Matches(catalog[i], make, model, year) && catalog[i].campaign == campaign;
        if i > 0 { assert catalog[1..][i - 1] == catalog[i]; assert Lists(catalog[1..], make, model, year, campaign); }
      }
    }
  }

  /** Rows affected. */
  function NewlyAttached(before: Attachments, after: Attachments): nat {
    |after.Keys - before.Keys|
  }

  /** No row is added exactly when the vehicle already has every listed campaign -- not only when the catalog
      lists none.  That is when vin_decode queues a recall fetch. */
  lemma NothingAttachedIff(catalog: seq<Row>, attached: Attachments, vehicle: string, make: string, model: string,
                           year: int)
    ensures var after := Attached(catalog, attached, vehicle, make, model, year);
            (NewlyAttached(attached, after) == 0)
            <==> forall campaign :: Lists(catalog, make, model, year, campaign) ==> (vehicle, campaign) in attached
  {
    AttachCoversListed(catalog, attached, vehicle, make, model, year);
    var after := Attached(catalog, attached, vehicle, make, model, year);
    var added := after.Keys - attached.Keys;
    forall key | key in added ensures Lists(catalog, make, model, year, key.1) {
      var i :| 0 <= i < |catalog| && catalog[i] == after[key];
    }
    if added != {} {
      var key :| key in added;
    }
    if campaign :| Lists(catalog, make, model, year, campaign) && (vehicle, campaign) !in attached {
      assert (vehicle, campaign) in added;
    }
  }

  lemma NoneAdded(before: Attachments, after: Attachments)
    requires NewlyAttached(before, after) == 0
    ensures forall key | key in after :: key in before
  {
    assert forall key | key in after :: key in before || key in after.Keys - before.Keys;
  }

  /** A second attach adds nothing and changes nothing. */
  lemma AttachIdempotent(catalog: seq<Row>, attached: Attachments, vehicle: string, make: string, model: string,
                         year: int)
    ensures var once := Attached(catalog, attached, vehicle, make, model, year);
            Attached(catalog, once, vehicle, make, model, year) == once
  {
    var once := Attached(catalog, attached, vehicle, make, model, year);
    AttachCoversListed(catalog, attached, vehicle, make, model, year);
    AttachCoversListed(catalog, once, vehicle, make, model, year);
    NothingAttachedIff(catalog, once, vehicle, make, model, year);
    var twice := Attached(catalog, once, vehicle, make, model, year);
    hide *;
    assert NewlyAttached(once, twice) == 0;
    NoneAdded(once, twice);
    assert forall key | key in twice :: key in once;
    assert twice == once;
  }

  // ---------------------------------------------------------------- a whole fetch

  /** The upserts of one NHTSA reply, in reply order. */
  function AfterUpserts(catalog: seq<Row>, batch: seq<Row>): seq<Row>
    decreases |batch|
  {
    if batch == [] then catalog else AfterUpserts(Upserted(catalog, batch[0]), batch[1..])
  }

  function Batch(make: string, model: string, year: int, fetched: seq<(string, Details)>): (batch: seq<Row>)
    ensures |batch| == |fetched|
  {
    seq(|fetched|, i requires 0 <= i < |fetched| => Row(make, model, year, fetched[i].0, fetched[i].1, "nhtsa"))
  }

  lemma {:induction false} AfterUpsertsAppend(catalog: seq<Row>, a: seq<Row>, b: seq<Row>)
    ensures AfterUpserts(catalog, a + b) == AfterUpserts(AfterUpserts(catalog, a), b)
    decreases |a|
  {
    if a == [] {
      assert a + b == b;
    } else {
      AfterUpsertsAppend(Upserted(catalog, a[0]), a[1..], b);
      assert (a + b)[1..] == a[1..] + b;
    }
  }

  /** The details the batch leaves for a key: those of its last row with that key. */
  function LastDetails(batch: seq<Row>, key: Key, otherwise: Details): Details {
    if batch == [] then otherwise
    else LastDetails(batch[1..], key, if KeyOf(batch[0]) == key then batch[0].details else otherwise)
  }

  ghost predicate HasKey(rows: seq<Row>, key: Key) {
    exists i :: 0 <= i < |rows| && KeyOf(rows[i]) == key
  }

  lemma {:induction false} LastDetailsFixed(batch: seq<Row>, key: Key, d1: Details, d2: Details)
    requires HasKey(batch, key)
    ensures LastDetails(batch, key, d1) == LastDetails(batch, key, d2)
    decreases |batch|
  {
    var i :| 0 <= i < |batch| && KeyOf(batch[i]) == key;
    if KeyOf(batch[0]) != key {
      assert KeyOf(batch[1..][i - 1]) == key;
      LastDetailsFixed(batch[1..], key, d1, d2);
    }
  }

  lemma {:induction false} LastDetailsAbsent(batch: seq<Row>, key: Key, d: Details)
    requires !HasKey(batch, key)
    ensures LastDetails(batch, key, d) == d
    decreases |batch|
  {
    if batch != [] {
      assert KeyOf(batch[0]) != key;
      assert forall i | 0 <= i < |batch[1..]| :: KeyOf(batch[1..][i]) == KeyOf(batch[i + 1]);
      LastDetailsAbsent(batch[1..], key, d);
    }
  }

  /** Rows keep their places, their keys and their sources, and take the last details the batch has for them. */
  lemma {:induction false} UpsertsKeepRows(catalog: seq<Row>, batch: seq<Row>)
    requires Unique(catalog)
    ensures var after := AfterUpserts(catalog, batch);
            && Unique(after) && |after| >= |catalog|
            && forall i | 0 <= i < |catalog| ::
                 after[i] == catalog[i].(details := LastDetails(batch, KeyOf(catalog[i]), catalog[i].details))
    decreases |batch|
  {
    if batch != [] {
      var at := UpsertReplacesOneRow(catalog, batch[0]);
      UpsertsKeepRows(Upserted(catalog, batch[0]), batch[1..]);
    }
  }

  /** Every key of the batch is in the catalog afterwards. */
  lemma {:induction false} UpsertsCoverBatch(catalog: seq<Row>, batch: seq<Row>, k: nat)
    requires Unique(catalog) && k < |batch|
    ensures HasKey(AfterUpserts(catalog, batch), KeyOf(batch[k]))
    decreases |batch|
  {
    var at := UpsertReplacesOneRow(catalog, batch[0]);
    var mid := Upserted(catalog, batch[0]);
    if k == 0 {
      UpsertsKeepRows(mid, batch[1..]);
      assert KeyOf(AfterUpserts(catalog, batch)[at]) == KeyOf(batch[0]);
    } else {
      UpsertsCoverBatch(mid, batch[1..], k - 1);
    }
  }

  /** A row the upserts added has a key of the batch, and the last details the batch has for it. */
  lemma {:induction false} AddedRowIsFromBatch(catalog: seq<Row>, batch: seq<Row>, i: nat)
    requires Unique(catalog) && |catalog| <= i < |AfterUpserts(catalog, batch)|
    ensures var row := AfterUpserts(catalog, batch)[i];
            HasKey(batch, KeyOf(row)) && row.details == LastDetails(batch, KeyOf(row), row.details)
    decreases |batch|
  {
    var at := UpsertReplacesOneRow(catalog, batch[0]);
    var mid := Upserted(catalog, batch[0]);
    var row := AfterUpserts(catalog, batch)[i];
    if i < |mid| {
      UpsertsKeepRows(mid, batch[1..]);
      assert KeyOf(batch[0]) == KeyOf(row);
      LastDetailsFixed(batch, KeyOf(row), row.details, mid[i].details);
    } else {
      AddedRowIsFromBatch(mid, batch[1..], i);
      var j :| 0 <= j < |batch[1..]| && KeyOf(batch[1..][j]) == KeyOf(row);
      assert KeyOf(batch[j + 1]) == KeyOf(row);
      LastDetailsFixed(batch[1..], KeyOf(row), row.details, batch[0].details);
    }
  }

  lemma {:induction false} KnownKeysAddNothing(catalog: seq<Row>, batch: seq<Row>)
    requires Unique(catalog) && forall k | 0 <= k < |batch| :: HasKey(catalog, KeyOf(batch[k]))
    ensures |AfterUpserts(catalog, batch)| == |catalog|
    decreases |batch|
  {
    if batch != [] {
      var at := UpsertReplacesOneRow(catalog, batch[0]);
      var mid := Upserted(catalog, batch[0]);
      assert HasKey(catalog, KeyOf(batch[0]));
      forall k | 0 <= k < |batch[1..]| ensures HasKey(mid, KeyOf(batch[1..][k])) {
        var i :| 0 <= i < |catalog| && KeyOf(catalog[i]) == KeyOf(batch[k + 1]);
        assert KeyOf(mid[i]) == KeyOf(batch[k + 1]);
      }
      KnownKeysAddNothing(mid, batch[1..]);
    }
  }

  /** Repeating a fetch with the same reply changes nothing. */
  lemma UpsertsIdempotent(catalog: seq<Row>, batch: seq<Row>)
    requires Unique(catalog)
    ensures AfterUpserts(AfterUpserts(catalog, batch), batch) == AfterUpserts(catalog, batch)
  {
    var once := AfterUpserts(catalog, batch);
    var twice := AfterUpserts(once, batch);
    UpsertsKeepRows(catalog, batch);
    UpsertsKeepRows(once, batch);
    forall k | 0 <= k < |batch| ensures HasKey(once, KeyOf(batch[k])) { UpsertsCoverBatch(catalog, batch, k); }
    KnownKeysAddNothing(once, batch);
    forall i | 0 <= i < |once| ensures twice[i] == once[i] {
      var key := KeyOf(once[i]);
      if !HasKey(batch, key) {
        LastDetailsAbsent(batch, key, once[i].details);
      } else if i < |catalog| {
        LastDetailsFixed(batch, key, once[i].details, catalog[i].details);
      } else {
        AddedRowIsFromBatch(catalog, batch, i);
      }
    }
  }

  /** A fetch that broke off after any number of its upserts and is retried with the same reply ends in the catalog
      that one unbroken fetch would have made. */
  lemma RetryConverges(catalog: seq<Row>, batch: seq<Row>, done: nat)
    requires Unique(catalog) && done <= |batch|
    ensures AfterUpserts(AfterUpserts(catalog, batch[..done]), batch) == AfterUpserts(catalog, batch)
  {
    var first, rest := batch[..done], batch[done..];
    assert batch == first + rest;
    AfterUpsertsAppend(catalog, first, rest);
    AfterUpsertsAppend(AfterUpserts(catalog, first), first, rest);
    UpsertsIdempotent(catalog, first);
  }

  // ---------------------------------------------------------------- a fetch among others

  datatype Tables = Tables(catalog: seq<Row>, attached: Attachments)

  datatype Statement = Upsert(row: Row) | Attach(vehicle: string, make: string, model: string, year: int)

  /** A statement of this fetch, or of another session. */
  datatype Op = Op(mine: bool, statement: Statement)

  function Did(t: Tables, st: Statement): Tables {
    match st
    case Upsert(row) => t.(catalog := Upserted(t.catalog, row))
    case Attach(vehicle, make, model, year) =>
      t.(attached := Attached(t.catalog, t.attached, vehicle, make, model, year))
  }

  function Run(t: Tables, ops: seq<Op>): Tables {
    if ops == [] then t else Did(Run(t, ops[..|ops| - 1]), ops[|ops| - 1].statement)
  }

  /** The statements of this fetch, or those of the others. */
  function Of(mine: bool, ops: seq<Op>): seq<Statement> {
    if ops == [] then []
    else
      var last := ops[|ops| - 1];
      Of(mine, ops[..|ops| - 1]) + if last.mine == mine then [last.statement] else []
  }

  /** Nothing is taken away: keys stay unique, every campaign stays listed, every attachment stays as it is. */
  ghost predicate Grown(t: Tables, t1: Tables) {
    && Unique(t1.catalog)
    && (forall make, model, year, campaign ::
          Lists(t.catalog, make, model, year, campaign) ==> Lists(t1.catalog, make, model, year, campaign))
    && (forall key | key in t.attached :: key in t1.attached && t1.attached[key] == t.attached[key])
  }

  lemma StatementGrows(t: Tables, st: Statement)
    requires Unique(t.catalog)
    ensures Grown(t, Did(t, st))
  {
    hide Upserted, Attached, Unique, Lists;
    match st
    case Upsert(row) =>
      var at := UpsertReplacesOneRow(t.catalog, row);
      forall make, model, year, campaign | Lists(t.catalog, make, model, year, campaign)
        ensures Lists(Upserted(t.catalog, row), make, model, year, campaign)
      {
        UpsertLosesNone(t.catalog, row, make, model, year, campaign);
      }
    case Attach(vehicle, make, model, year) => AttachCoversListed(t.catalog, t.attached, vehicle, make, model, year);
  }

  lemma {:induction false} RunAppend(t: Tables, a: seq<Op>, b: seq<Op>)
    ensures Run(t, a + b) == Run(Run(t, a), b)
    ensures forall mine :: Of(mine, a + b) == Of(mine, a) + Of(mine, b)
  {
    hide Did;
    if b == [] {
      assert a + b == a;
    } else {
      var n := |b| - 1;
      RunAppend(t, a, b[..n]);
      assert (a + b)[..|a| + n] == a + b[..n];
      var last := b[n];
      forall mine ensures Of(mine, a + b) == Of(mine, a) + Of(mine, b) {
        assert Of(mine, a) + (Of(mine, b[..n]) + if last.mine == mine then [last.statement] else [])
               == Of(mine, a) + Of(mine, b[..n]) + if last.mine == mine then [last.statement] else [];
      }
    }
  }

  lemma RunOne(t: Tables, op: Op)
    ensures Run(t, [op]) == Did(t, op.statement) && Of(op.mine, [op]) == [op.statement] && Of(!op.mine, [op]) == []
  {
    assert [op][..0] == [];
  }

  lemma {:induction false} RunGrows(t: Tables, ops: seq<Op>)
    requires Unique(t.catalog)
    ensures Grown(t, Run(t, ops))
  {
    hide Did, Unique, Lists;
    if ops != [] {
      RunGrows(t, ops[..|ops| - 1]);
      StatementGrows(Run(t, ops[..|ops| - 1]), ops[|ops| - 1].statement);
    }
  }

  /** Where this fetch's last statement stands among the others'. */
  lemma {:induction false} LastOfMine(ops: seq<Op>) returns (before: seq<Op>, after: seq<Op>)
    requires Of(true, ops) != []
    ensures var mine := Of(true, ops); var n := |mine| - 1;
            ops == before + [Op(true, mine[n])] + after && Of(true, before) == mine[..n] && Of(true, after) == []
  {
    var n := |ops| - 1;
    if ops[n].mine {
      before, after := ops[..n], [];
    } else {
      before, after := LastOfMine(ops[..n]);
      RunAppend(Tables([], map[]), after, [ops[n]]);
      RunOne(Tables([], map[]), ops[n]);
      after := after + [ops[n]];
    }
  }

  /** A row this fetch has upserted stays listed, whatever others do. */
  lemma {:induction false} UpsertedStaysListed(t: Tables, ops: seq<Op>, r: Row)
    requires Unique(t.catalog) && Upsert(r) in Of(true, ops)
    ensures Lists(Run(t, ops).catalog, r.make, r.model, r.year, r.campaign)
  {
    hide Unique, Lists, Upserted, Attached;
    var n := |ops| - 1;
    var before := Run(t, ops[..n]);
    RunGrows(t, ops[..n]);
    if ops[n] == Op(true, Upsert(r)) {
      assert Matches(r, r.make, r.model, r.year);
      UpsertListsOwn(before.catalog, r, r.make, r.model, r.year, r.campaign);
    } else {
      UpsertedStaysListed(t, ops[..n], r);
      StatementGrows(before, ops[n].statement);
    }
  }

  function Upserts(batch: seq<Row>): (sts: seq<Statement>)
    ensures |sts| == |batch| && forall i | 0 <= i < |batch| :: sts[i] == Upsert(batch[i])
  {
    seq(|batch|, i requires 0 <= i < |batch| => Upsert(batch[i]))
  }

  /** Among any statements of other sessions: when the upserts and then the attach of a fetch have been applied, the
      vehicle has every campaign NHTSA returned. */
  lemma FetchCoversAmongOthers(t: Tables, ops: seq<Op>, vehicle: string, make: string, model: string, year: int,
                               fetched: seq<(string, Details)>, i: nat)
    requires Unique(t.catalog) && i < |fetched|
    requires Of(true, ops) == Upserts(Batch(make, model, year, fetched)) + [Attach(vehicle, make, model, year)]
    ensures (vehicle, fetched[i].0) in Run(t, ops).attached
  {
    hide Unique, Lists, Upserted, Attached, Run, Of;
    var batch := Batch(make, model, year, fetched);
    var before, after := LastOfMine(ops);
    var attach := Op(true, Attach(vehicle, make, model, year));
    assert Of(true, ops)[..|batch|] == Upserts(batch) && Upserts(batch)[i] == Upsert(batch[i]);
    var t1 := Run(t, before);
    var t2 := Did(t1, attach.statement);
    RunAppend(t, before + [attach], after);
    RunAppend(t, before, [attach]);
    RunOne(t1, attach);
    UpsertedStaysListed(t, before, batch[i]);
    AttachCoversListed(t1.catalog, t1.attached, vehicle, make, model, year);
    RunGrows(t, before);
    StatementGrows(t1, attach.statement);
    RunGrows(t2, after);
  }

  /** With nobody else at work the upserts of a batch leave what the whole batch leaves. */
  lemma {:induction false} UndisturbedUpserts(t: Tables, ops: seq<Op>, batch: seq<Row>)
    requires Of(false, ops) == [] && Of(true, ops) == Upserts(batch)
    ensures Run(t, ops) == Tables(AfterUpserts(t.catalog, batch), t.attached)
    decreases |ops|
  {
    if ops != [] {
      var n := |batch| - 1;
      assert Upserts(batch)[..n] == Upserts(batch[..n]);
      assert Of(true, ops)[..n] == Of(true, ops[..|ops| - 1]) && Of(true, ops)[n] == ops[|ops| - 1].statement;
      UndisturbedUpserts(t, ops[..|ops| - 1], batch[..n]);
      AfterUpsertsAppend(t.catalog, batch[..n], [batch[n]]);
      assert batch == batch[..n] + [batch[n]];
    } else {
      assert |Upserts(batch)| == 0;
    }
  }

  function Theirs(others: seq<Statement>): (ops: seq<Op>)
    ensures |ops| == |others| && forall i | 0 <= i < |others| :: ops[i] == Op(false, others[i])
  {
    seq(|others|, i requires 0 <= i < |others| => Op(false, others[i]))
  }

  /** What was attempted by others before each of the first n statements. */
  function Gathered(others: nat -> seq<Statement>, n: nat): seq<Statement> {
    if n == 0 then [] else Gathered(others, n - 1) + others(n - 1)
  }

  /** After the upserts and the attach the vehicle has every campaign NHTSA returned. */
  lemma FetchCoversReply(catalog: seq<Row>, attached: Attachments, vehicle: string, make: string, model: string,
                         year: int, fetched: seq<(string, Details)>, i: nat)
    requires Unique(catalog) && i < |fetched|
    ensures var after := AfterUpserts(catalog, Batch(make, model, year, fetched));
            (vehicle, fetched[i].0) in Attached(after, attached, vehicle, make, model, year)
  {
    var batch := Batch(make, model, year, fetched);
    var after := AfterUpserts(catalog, batch);
    UpsertsCoverBatch(catalog, batch, i);
    AttachCoversListed(after, attached, vehicle, make, model, year);
    assert Lists(after, make, model, year, fetched[i].0);
  }

  class RecallTables {
    var catalog: seq<Row>
    var attached: Attachments

    ghost predicate Valid()
      reads this
    {
      Unique(catalog)
    }

    function View(): Tables
      reads this
    {
      Tables(catalog, attached)
    }

    /** The other sessions take their turn. */
    method LetOthersWork(others: seq<Statement>) returns (ghost ops: seq<Op>)
      requires Valid()
      modifies this
      ensures Valid() && View() == Run(old(View()), ops) && Of(true, ops) == [] && Of(false, ops) == others
      ensures ops == Theirs(others)
    {
      hide Upserted, Attached, Unique;
      ops := [];
      for i := 0 to |others|
        invariant Valid() && View() == Run(old(View()), ops) && Of(true, ops) == [] && Of(false, ops) == others[..i]
        invariant ops == Theirs(others[..i])
      {
        ghost var op := Op(false, others[i]);
        StatementGrows(View(), others[i]);
        RunAppend(old(View()), ops, [op]);
        RunOne(View(), op);
        ops := ops + [op];
        match others[i] {
          case Upsert(row) => catalog := Upserted(catalog, row);
          case Attach(vehicle, make, model, year) =>
            attached := Attached(catalog, attached, vehicle, make, model, year);
        }
        assert others[..i + 1] == others[..i] + [others[i]];
      }
      assert others[..|others|] == others;
    }

    method UpsertRecallCatalog(r: Row, reply: Reply) returns (err: bool)
      requires Valid()
      modifies this`catalog
      ensures Valid() && err == !reply.Acked?
      ensures catalog == if reply.NoEffect? then old(catalog) else Upserted(old(catalog), r)
    {
      if !reply.NoEffect? {
        ghost var at := UpsertReplacesOneRow(catalog, r);
        catalog := Upserted(catalog, r);
      }
      err := !reply.Acked?;
    }

    method AttachCatalogRecallsToVehicle(vehicle: string, make: string, model: string, year: int, reply: Reply)
      returns (n: nat, err: bool)
      modifies this`attached
      ensures err == !reply.Acked?
      ensures attached == if reply.NoEffect? then old(attached)
              else Attached(catalog, old(attached), vehicle, make, model, year)
      ensures n == if err then 0 else NewlyAttached(old(attached), attached)
    {
      var before := attached;
      if !reply.NoEffect? { attached := Attached(catalog, attached, vehicle, make, model, year); }
      err := !reply.Acked?;
      n := if err then 0 else NewlyAttached(before, attached);
    }

    /** One turn: the others work, then one upsert of this fetch. */
    method UpsertAmongOthers(r: Row, reply: Reply, others: seq<Statement>) returns (err: bool, ghost ops: seq<Op>)
      requires Valid()
      modifies this
      ensures Valid() && err == !reply.Acked? && View() == Run(old(View()), ops)
      ensures Of(false, ops) == others && Of(true, ops) == if reply.NoEffect? then [] else [Upsert(r)]
    {
      hide Upserted, Attached, Unique, Run, Of;
      ops := LetOthersWork(others);
      ghost var between := View();
      err := UpsertRecallCatalog(r, reply);
      if !reply.NoEffect? {
        ghost var op := Op(true, Upsert(r));
        RunAppend(old(View()), ops, [op]);
        RunOne(between, op);
        assert others + [] == others && [] + [Upsert(r)] == [Upsert(r)];
        ops := ops + [op];
      }
    }

    /** The upserts of recalls_mmy, up to the first that is not acknowledged, with others at work before each. */
    method UpsertAll(batch: seq<Row>, db: nat -> Reply, others: nat -> seq<Statement>)
      returns (err: bool, ghost ops: seq<Op>)
      requires Valid()
      modifies this
      ensures Valid() && err == (Acks(db, |batch|) < |batch|) && View() == Run(old(View()), ops)
      ensures var k := Acks(db, |batch|);
              && Of(true, ops) == Upserts(batch[..if err && !db(k).NoEffect? then k + 1 else k])
              && Of(false, ops) == Gathered(others, if err then k + 1 else k)
    {
      hide Upserted, Attached, Unique, Run, Of, Upserts;
      ops := [];
      NothingRun(View());
      assert batch[..0] == [];
      for i: nat := 0 to |batch|
        invariant Valid() && Acks(db, i) == i && View() == Run(old(View()), ops)
        invariant Of(true, ops) == Upserts(batch[..i]) && Of(false, ops) == Gathered(others, i)
      {
        ghost var before, more := View(), [];
        err, more := UpsertAmongOthers(batch[i], db(i), others(i));
        RunAppend(old(View()), ops, more);
        OneMoreUpsert(batch, i);
        ops := ops + more;
        if err {
          AcksStopAt(db, i, |batch|);
          return;
        }
      }
      assert batch[..|batch|] == batch;
      err := false;
    }

    /** recalls_mmy: put what NHTSA returned into the catalog, then attach it to the job's vehicle, if it names one,
        with others at work before each statement.  The attach error is dropped; the pause at the end may be cut
        short. */
    method RecallsMMY(vehicle: string, make: string, model: string, year: int, fetched: Option<seq<(string, Details)>>,
                      db: nat -> Reply, cut: bool, others: nat -> seq<Statement>)
      returns (err: bool, ghost ops: seq<Op>)
      requires Valid()
      modifies this
      ensures Valid() && err == FetchFails(make, year, fetched, db, cut) && View() == Run(old(View()), ops)
      ensures Of(true, ops) == OwnStatements(vehicle, make, model, year, fetched, db)
      ensures !InMarketScope(make, year) || fetched.None? ==> ops == []
      ensures InMarketScope(make, year) && fetched.Some? ==> exists n: nat :: Of(false, ops) == Gathered(others, n)
      ensures InMarketScope(make, year) && fetched.Some? && vehicle != ""
              && Acks(db, |fetched.value| + 1) == |fetched.value| + 1 ==>
                forall i | 0 <= i < |fetched.value| :: (vehicle, fetched.value[i].0) in attached
    {
      hide Upserted, Attached, Unique, Run, Of, Batch, Upserts, IsTopMake;
      ops := [];
      NothingRun(View());
      if !InMarketScope(make, year) { return false, ops; }
      if fetched.None? { return true, ops; }
      var batch := Batch(make, model, year, fetched.value);
      err, ops := UpsertAll(batch, db, others);
      if err {
        AcksBelow(db, |batch|, |batch| + 1);
        return;
      }
      assert batch[..|batch|] == batch;
      if vehicle != "" {
        ghost var more := AttachAmongOthers(vehicle, make, model, year, db(|batch|), others(|batch|));
        RunAppend(old(View()), ops, more);
        assert Gathered(others, |batch| + 1) == Gathered(others, |batch|) + others(|batch|);
        ops := ops + more;
      }
      assert Upserts(batch) + [] == Upserts(batch);
      FetchCoverage(old(View()), ops, vehicle, make, model, year, fetched.value, db);
      err := cut;
    }

    method AttachAmongOthers(vehicle: string, make: string, model: string, year: int, reply: Reply,
                             others: seq<Statement>)
      returns (ghost ops: seq<Op>)
      requires Valid()
      modifies this
      ensures Valid() && View() == Run(old(View()), ops) && Of(false, ops) == others
      ensures Of(true, ops) == if reply.NoEffect? then [] else [Attach(vehicle, make, model, year)]
    {
      hide Upserted, Attached, Unique, Run, Of;
      ops := LetOthersWork(others);
      ghost var between := View();
      var _, _ := AttachCatalogRecallsToVehicle(vehicle, make, model, year, reply);
      if !reply.NoEffect? {
        ghost var op := Op(true, Attach(vehicle, make, model, year));
        RunAppend(old(View()), ops, [op]);
        RunOne(between, op);
        assert others + [] == others && [] + [op.statement] == [op.statement];
        ops := ops + [op];
      }
    }
  }

  lemma OneMoreUpsert(batch: seq<Row>, i: nat)
    requires i < |batch|
    ensures Upserts(batch[..i]) + [Upsert(batch[i])] == Upserts(batch[..i + 1])
            && Upserts(batch[..i]) + [] == Upserts(batch[..i])
    ensures Upserts([]) == []
  {}

  /** An acknowledged fetch, from its own statements and the others'. */
  lemma FetchCoverage(t: Tables, ops: seq<Op>, vehicle: string, make: string, model: string, year: int,
                      fetched: seq<(string, Details)>, db: nat -> Reply)
    requires Unique(t.catalog) && InMarketScope(make, year)
    requires Of(true, ops) == OwnStatements(vehicle, make, model, year, Some(fetched), db)
    ensures vehicle != "" && Acks(db, |fetched| + 1) == |fetched| + 1 ==>
              forall i | 0 <= i < |fetched| :: (vehicle, fetched[i].0) in Run(t, ops).attached
  {
    hide Unique, Run, Of;
    if vehicle != "" && Acks(db, |fetched| + 1) == |fetched| + 1 {
      forall i | 0 <= i < |fetched| ensures (vehicle, fetched[i].0) in Run(t, ops).attached {
        FetchCoversAmongOthers(t, ops, vehicle, make, model, year, fetched, i);
      }
    }
  }

  lemma NothingRun(t: Tables)
    ensures Run(t, []) == t && forall mine :: Of(mine, []) == []
  {}

  /** The statements of one fetch that take effect. */
  function OwnStatements(vehicle: string, make: string, model: string, year: int,
                         fetched: Option<seq<(string, Details)>>, db: nat -> Reply): seq<Statement>
  {
    if !InMarketScope(make, year) || fetched.None? then []
    else
      var batch := Batch(make, model, year, fetched.value);
      var k := Acks(db, |batch|);
      if k < |batch| then Upserts(batch[..if db(k).NoEffect? then k else k + 1])
      else Upserts(batch) + if vehicle == "" || db(k).NoEffect? then [] else [Attach(vehicle, make, model, year)]
  }

  /** When a recall fetch returns an error, so that it will be retried. */
  predicate FetchFails(make: string, year: int, fetched: Option<seq<(string, Details)>>, db: nat -> Reply, cut: bool) {
    InMarketScope(make, year) && (fetched.None? || Acks(db, |fetched.value|) < |fetched.value| || cut)
  }
}
