/** The job table as the database keeps it, changed in place by the store's statements, and the worker programs that
    run against it.  Each program is proved to be a run of the steps of JobQueue in which other sessions may take any
    steps of theirs between any two of its statements, so the theorems over interleavings hold of it.
    What the outside answers -- NHTSA, the database, the clocks of client and server -- and what the other sessions
    attempt comes in as parameters. */
module EnrichmentWorker {
  import opened Common
  import opened Interference
  import opened JobQueue
  import opened JobQueueProofs
  import opened JobQueueTheorems
  import opened Market
  import Recalls

  /** What the NHTSA decoder says about a VIN. */
  datatype Decoded = Decoded(make: string, model: string, year: int)

  /** What other sessions attempt around the statements of one round, on the jobs and on the recall tables. */
  datatype Others = Others(beforeClaim: seq<Step>, inClaim: seq<Step>, beforeInsert: nat -> seq<Step>,
                           beforeClosing: seq<Step>, onRecalls: nat -> seq<Recalls.Statement>)

  /** How the closing update ends for the worker: answered one way or another, or given up on, in which case a slot of
      its own keeps it until the database applies it, at any later time or never. */
  datatype Ending = Answered(reply: Reply) | GivenUp(slot: nat)

  /** Everything the outside answers while one job is claimed and processed: the k-th statement of Process ends
      as db(k), and its k-th clock reading is clock(k). */
  datatype Round = Round(dbNow: int, claim: Reply, idParses: bool, decoded: Option<Decoded>,
                         fetched: Option<seq<(string, Recalls.Details)>>, db: nat -> Reply, clock: nat -> int,
                         cut: bool, failedAt: int, closing: Ending, others: Others)

  /** A payload read as vin_decode reads it: fields that are not there are empty. */
  function VehicleOf(payload: Payload): string {
    match payload
    case Vehicle(id, _) => id
    case Mmy(id, _, _, _) => id
    case Region => ""
  }

  /** A payload read as recalls_mmy reads it. */
  function AsModelYear(payload: Payload): (p: Payload)
    ensures p.Mmy? && p.forVehicle == VehicleOf(payload) && (!payload.Mmy? ==> !InMarketScope(p.make, p.year))
  {
    if payload.Mmy? then payload else Mmy(VehicleOf(payload), "", "", 0)
  }

  predicate VinFails(r: Round) {
    || !r.idParses || r.decoded.None? || !r.db(0).Acked? || !r.db(1).Acked?
    || (InMarketScope(r.decoded.value.make, r.decoded.value.year) && !r.db(2).Acked?)
  }

  /** When Process returns an error. */
  predicate ProcessFails(models: seq<MarketModel>, kind: Kind, payload: Payload, r: Round) {
    match kind
    case VinDecode => VinFails(r)
    case RecallsMMY => Recalls.FetchFails(AsModelYear(payload).make, AsModelYear(payload).year, r.fetched, r.db, r.cut)
    case SeedCatalog => Acks(r.db, 1 + SEED_YEARS * |models|) < 1 + SEED_YEARS * |models|
  }

  /** Some row is pending, due and not locked by another session. */
  ghost predicate SomeDue(s: State, now: int) {
    exists id: nat :: Claimable(s.jobs, Locked(s), now, id)
  }

  datatype ClaimReply = NoJob | DbError | Job(id: nat, kind: Kind, payload: Payload)

  /** The vehicle of a recall fetch has every campaign the catalog lists for its model year. */
  ghost predicate AlreadyAttached(t: Recalls.Tables, fetch: Payload)
    requires fetch.Mmy?
  {
    forall campaign ::
      Recalls.Lists(t.catalog, fetch.make, fetch.model, fetch.year, campaign) ==>
          (fetch.forVehicle, campaign) in t.attached
  }

  /** The recall tables after the attach for that vehicle and model year. */
  function Attaching(t: Recalls.Tables, fetch: Payload): Recalls.Tables
    requires fetch.Mmy?
  {
    Recalls.Did(t, Recalls.Attach(fetch.forVehicle, fetch.make, fetch.model, fetch.year))
  }

  /** The recall fetch a decoded VIN may queue. */
  function FetchFor(payload: Payload, d: Decoded): Payload
    requires d.year >= MIN_MODEL_YEAR
  {
    Mmy(VehicleOf(payload), d.make, d.model, d.year)
  }

  // ---------------------------------------------------------------- runs of one worker among others

  /** A run from s to s1 in which worker w took exactly the steps `own`, and others any of theirs. */
  ghost predicate Interleaved(models: seq<MarketModel>, s: State, w: nat, own: seq<Step>, steps: seq<Step>, s1: State) {
    Inv(models, s1) && Runs(models, s, steps, s1) && Own(steps, w) == own
  }

  lemma NothingHappened(models: seq<MarketModel>, s: State, w: nat)
    requires Inv(models, s)
    ensures Interleaved(models, s, w, [], [], s)
  {}

  lemma InSequence(models: seq<MarketModel>, s: State, w: nat, own1: seq<Step>, steps1: seq<Step>, s1: State,
                   own2: seq<Step>, steps2: seq<Step>, s2: State)
    requires Interleaved(models, s, w, own1, steps1, s1) && Interleaved(models, s1, w, own2, steps2, s2)
    ensures Interleaved(models, s, w, own1 + own2, steps1 + steps2, s2)
  {
    hide Inv, Runs, Own;
    RunsAppend(models, s, steps1, s1, steps2, s2);
    OwnAppend(steps1, steps2, w);
  }

  /** One statement of worker w, after a run. */
  lemma ThenOwn(models: seq<MarketModel>, s: State, w: nat, own: seq<Step>, steps: seq<Step>, s1: State, step: Step)
    requires Interleaved(models, s, w, own, steps, s1)
    requires Inv(models, s1) && Enabled(models, s1, step) && !step.Enqueue? && step.w == w
    ensures Interleaved(models, s, w, own + [step], steps + [step], Apply(models, s1, step))
  {
    hide Inv, Runs, Apply, Enabled;
    StepKeepsInv(models, s1, step);
    RunsSnoc(models, s, steps, s1, step);
    OwnAppend(steps, [step], w);
    OwnStep(step, w);
  }

  /** The two steps of a claim: the next due row is locked, and the transaction ends as the database says. */
  ghost predicate Transaction(s: State, w: nat, now: int, reply: Reply, own: seq<Step>) {
    && |own| == 2 && own[0].Select? && own[0] == Select(w, own[0].id, now) && IsNext(s.jobs, Locked(s), now, own[0].id)
    && own[1] == if reply.NoEffect? then Rollback(w) else Commit(w, reply.Acked?)
  }

  lemma ClaimRun(models: seq<MarketModel>, s: State, w: nat, select: Step, others: seq<Step>, s2: State, last: Step)
    requires Inv(models, s) && Enabled(models, s, select) && select.Select? && select.w == w
    requires Interleaved(models, Apply(models, s, select), w, [], others, s2)
    requires Enabled(models, s2, last) && !last.Enqueue? && last.w == w
    ensures Interleaved(models, s, w, [select, last], [select] + others + [last], Apply(models, s2, last))
  {
    hide Inv, Runs, Apply, Enabled, Interleaved;
    NothingHappened(models, s, w);
    ThenOwn(models, s, w, [], [], s, select);
    assert [] + [select] == [select] && [select] + [] == [select] && [select] + [last] == [select, last];
    InSequence(models, s, w, [select], [select], Apply(models, s, select), [], others, s2);
    InterleavedKeepsInv(models, s, w, [select], [select] + others, s2);
    ThenOwn(models, s, w, [select], [select] + others, s2, last);
  }

  /** What a Process call promises its caller: its own steps are inserts, its claim is still its own, and the verdict
      fits the error. */
  ghost predicate Processed(models: seq<MarketModel>, s: State, w: nat, err: bool, own: seq<Step>, steps: seq<Step>,
                            s1: State) {
    && Interleaved(models, s, w, own, steps, s1) && (forall i | 0 <= i < |own| :: own[i].Spawn?)
    && Holds(s, w) && Holds(s1, w)
    && s1.workers[w] == s.workers[w] && s1.log[s1.workers[w].claim].job == s.log[s.workers[w].claim].job
    && var c := s1.log[s1.workers[w].claim];
       if err then MayFail(c) else MayFinish(models, c)
  }

  /** The first n inserts of a seed run, in order, all acknowledged. */
  function SeedInserts(models: seq<MarketModel>, w: nat, r: Round, n: nat): (own: seq<Step>)
    requires n <= SEED_YEARS * |models|
    ensures |own| == n && forall i | 0 <= i < n :: own[i] == Spawn(w, SeedEntry(models, i), r.clock(i), Acked)
  {
    seq(n, k requires 0 <= k < n => Spawn(w, SeedEntry(models, k), r.clock(k), Acked))
  }

  /** Worker w's seed run, started in s, has inserted its first `enqueued` rows by s1. */
  ghost predicate SeedProgress(models: seq<MarketModel>, s: State, w: nat, r: Round, enqueued: nat, steps: seq<Step>,
                               s1: State) {
    && enqueued <= SEED_YEARS * |models|
    && Interleaved(models, s, w, SeedInserts(models, w, r, enqueued), steps, s1)
    && Holds(s, w) && Holds(s1, w)
    && s1.workers[w] == s.workers[w] && s1.log[s1.workers[w].claim].job == s.log[s.workers[w].claim].job
    && var c := s1.log[s1.workers[w].claim];
    && c.kind.SeedCatalog? && |c.children| == enqueued
    && c.verdict == (if 0 < enqueued == SEED_YEARS * |models| then WillSucceed else Undecided)
  }

  /** Others work, then the next row is inserted: acknowledged, it carries the run on; otherwise the run may only
      fail. */
  lemma SeedAdvances(models: seq<MarketModel>, s: State, w: nat, r: Round, enqueued: nat, before: seq<Step>, s1: State,
                     others: seq<Step>, s2: State, step: Step)
    requires SeedProgress(models, s, w, r, enqueued, before, s1) && enqueued < SEED_YEARS * |models|
    requires Interleaved(models, s1, w, [], others, s2) && Unmoved(s1, s2, w)
    requires Enabled(models, s2, step) && step.Spawn?
    requires step.w == w && step.payload == SeedEntry(models, enqueued) && step.now == r.clock(enqueued)
    ensures var s3, steps := Apply(models, s2, step), before + others + [step];
            if step.reply.Acked? then SeedProgress(models, s, w, r, enqueued + 1, steps, s3)
            else Processed(models, s, w, true, SeedInserts(models, w, r, enqueued) + [step], steps, s3)
  {
    hide Inv, Runs, Interleaved, SeedInserts, Locked;
    var own := SeedInserts(models, w, r, enqueued);
    InSequence(models, s, w, own, before, s1, [], others, s2);
    assert own + [] == own;
    InterleavedKeepsInv(models, s1, w, [], others, s2);
    ThenOwn(models, s, w, own, before + others, s2, step);
    if step.reply.Acked? { assert own + [step] == SeedInserts(models, w, r, enqueued + 1); }
  }

  lemma InterleavedKeepsInv(models: seq<MarketModel>, s: State, w: nat, own: seq<Step>, steps: seq<Step>, s1: State)
    requires Interleaved(models, s, w, own, steps, s1)
    ensures Inv(models, s1)
  {}

  lemma SeedFinished(models: seq<MarketModel>, s: State, w: nat, r: Round, steps: seq<Step>, s1: State)
    requires SeedProgress(models, s, w, r, SEED_YEARS * |models|, steps, s1)
    ensures Processed(models, s, w, false, SeedInserts(models, w, r, SEED_YEARS * |models|), steps, s1)
  {
    hide Interleaved;
  }

  /** A vin_decode that has inserted nothing may still end either way. */
  lemma VinUndecided(models: seq<MarketModel>, s: State, w: nat, err: bool)
    requires Inv(models, s) && Holds(s, w)
    requires var c := s.log[s.workers[w].claim]; c.kind.VinDecode? && c.children == [] && c.verdict.Undecided?
    ensures Processed(models, s, w, err, [], [], s)
  {
    hide Inv;
  }

  /** Once it has asked for its fetch, however that statement ended, it returns nil. */
  lemma VinQueued(models: seq<MarketModel>, s: State, w: nat, others: seq<Step>, s1: State, step: Step)
    requires Inv(models, s) && Holds(s, w) && s.log[s.workers[w].claim].kind.VinDecode?
    requires Interleaved(models, s, w, [], others, s1) && Unmoved(s, s1, w)
    requires Enabled(models, s1, step) && step.Spawn? && step.w == w
    ensures Processed(models, s, w, false, [step], others + [step], Apply(models, s1, step))
  {
    hide Inv, Runs, Interleaved, Locked;
    InterleavedKeepsInv(models, s, w, [], others, s1);
    ThenOwn(models, s, w, [], others, s1, step);
    assert [] + [step] == [step];
  }

  /** The attach for that vehicle and model year, after what others send to the recall tables. */
  method AttachFetch(fetch: Payload, tables: Recalls.RecallTables, attach: Reply, onRecalls: seq<Recalls.Statement>)
    returns (n: nat, err: bool)
    requires tables.Valid() && fetch.Mmy?
    modifies tables
    ensures tables.Valid() && err == !attach.Acked?
    ensures var met := Recalls.Run(old(tables.View()), Recalls.Theirs(onRecalls));
            && tables.View() == (if attach.NoEffect? then met else Attaching(met, fetch))
            && (!err ==> (n == 0 <==> AlreadyAttached(met, fetch)))
  {
    hide Recalls.Attached, Recalls.Lists, Recalls.Run, Recalls.Of, Recalls.Unique;
    ghost var ops := tables.LetOthersWork(onRecalls);
    Recalls.NothingAttachedIff(tables.catalog, tables.attached, fetch.forVehicle, fetch.make, fetch.model, fetch.year);
    n, err := tables.AttachCatalogRecallsToVehicle(fetch.forVehicle, fetch.make, fetch.model, fetch.year, attach);
  }

  class JobTable {
    const models: seq<MarketModel>
    var jobs: seq<JobQueue.Job>

    // which session is at what, and what happened: no worker program reads these
    var workers: map<nat, Phase>
    var log: seq<Claim>
    var origin: seq<Origin>

    function View(): State
      reads this
    {
      State(jobs, workers, log, origin)
    }

    ghost predicate Valid()
      reads this
    {
      Inv(models, View())
    }

    constructor (models: seq<MarketModel>)
      ensures Valid() && View() == Empty() && this.models == models
    {
      this.models := models;
      jobs, workers, log, origin := [], map[], [], [];
    }

    /** The claim the worker's Process call runs for. */
    ghost function Current(w: nat): Claim
      requires Holds(View(), w)
      reads this
    {
      log[workers[w].claim]
    }

    /** The other sessions take their turn: whatever they attempt that is theirs and possible happens, in order. */
    method LetOthersWork(w: nat, others: seq<Step>) returns (ghost steps: seq<Step>)
      requires Valid()
      modifies this
      ensures Valid() && Interleaved(models, old(View()), w, [], steps, View()) && Unmoved(old(View()), View(), w)
      ensures steps == Played(models, old(View()), w, others)
    {
      hide Inv, Enabled, Apply, Foreign, Unmoved, Playing, Played;
      ghost var s := View();
      steps := [];
      PlayStarts(models, s, w, others);
      for i := 0 to |others|
        invariant Playing(models, s, w, others, i, steps, View())
      {
        var step, now := others[i], View();
        PlayGoesOn(models, s, w, others, i, steps, now);
        if Foreign(step, w) && Enabled(models, now, step) {
          var next := Apply(models, now, step);
          jobs, workers, log, origin := next.jobs, next.workers, next.log, next.origin;
          steps := steps + [step];
        }
      }
      PlayEnds(models, s, w, others, steps, View());
    }

    /** A new row from outside the workers. */
    method EnqueueEnrichmentJob(kind: Kind, payload: Payload, runAfter: int, reply: Reply)
      returns (err: bool, ghost steps: seq<Step>)
      requires Valid()
      modifies this`jobs, this`origin
      ensures Valid() && Runs(models, old(View()), steps, View()) && err == !reply.Acked?
      ensures steps == if reply.NoEffect? then [] else [Enqueue(kind, payload, runAfter)]
      ensures jobs == if reply.NoEffect? then old(jobs) else old(jobs) + [Inserted(kind, payload, runAfter)]
    {
      err, steps := !reply.Acked?, [];
      if reply.NoEffect? { return; }
      ghost var s := View();
      jobs := jobs + [Inserted(kind, payload, runAfter)];
      origin := origin + [Outside];
      steps := [Enqueue(kind, payload, runAfter)];
      EnqueueKeepsInv(models, s, steps[0]);
    }

    /** The same statement issued by worker w while it processes a job. */
    method EnqueueForClaim(w: nat, payload: Payload, now: int, runAfter: int, reply: Reply)
      returns (err: bool, ghost step: Step)
      requires Valid() && Holds(View(), w) && Current(w).verdict.Undecided? && SpawnFits(models, Current(w), payload)
      requires runAfter == Due(Current(w), now)
      modifies this`jobs, this`origin, this`log
      ensures Valid() && step == Spawn(w, payload, now, reply) && err == !reply.Acked?
      ensures Enabled(models, old(View()), step) && View() == Apply(models, old(View()), step)
    {
      hide Inv, Locked;
      ghost var s := View();
      var c := workers[w].claim;
      if !reply.NoEffect? {
        jobs := jobs + [Inserted(RecallsMMY, payload, runAfter)];
        origin := origin + [SpawnedBy(c, |log[c].children|)];
      }
      err := !reply.Acked?;
      step := Spawn(w, payload, now, reply);
      log := log[c := AfterSpawn(models, log[c], if reply.NoEffect? then |jobs| else |jobs| - 1, now, reply)];
      SpawnKeepsInv(models, s, step);
    }

    /** One transaction: lock the next due row, mark it running, commit.  Others may work between the statements.  It
        can fail at either statement or at the commit, and a commit whose reply is lost leaves the row running with
        nobody at work on it. */
    method ClaimEnrichmentJob(w: nat, now: int, reply: Reply, others: seq<Step>)
      returns (out: ClaimReply, ghost own: seq<Step>, ghost steps: seq<Step>)
      requires Valid() && w !in workers
      modifies this
      ensures Valid() && Interleaved(models, old(View()), w, own, steps, View())
      ensures if reply.Acked? then !out.DbError? && (out.NoJob? <==> !SomeDue(old(View()), now)) else out.DbError?
      ensures out.NoJob? ==> View() == old(View())
      ensures if SomeDue(old(View()), now) then Transaction(old(View()), w, now, reply, own) else own == []
      ensures out.Job? ==> own != [] && own[0].Select? && own[0].id == out.id && Holds(View(), w)
                           && Current(w) == Claim(out.id, out.kind, [], Undecided, 0, true)
                           && out.payload == jobs[out.id].payload
      ensures !out.Job? ==> w !in workers
    {
      hide Inv, Runs, Own, Played;
      own, steps := [], [];
      NothingHappened(models, View(), w);
      if id: nat :| id < |jobs| && IsNext(jobs, Locked(View()), now, id) {
        out, own, steps := ClaimNext(w, id, now, reply, others);
      } else {
        forall id: nat ensures !Claimable(jobs, Locked(View()), now, id) {
          if Claimable(jobs, Locked(View()), now, id) {
            var next := QueryFindsDueRow(jobs, Locked(View()), now, id);
          }
        }
        out := if reply.Acked? then NoJob else DbError;
      }
    }

    /** The transaction on the row the query found. */
    method ClaimNext(w: nat, id: nat, now: int, reply: Reply, others: seq<Step>)
      returns (out: ClaimReply, ghost own: seq<Step>, ghost steps: seq<Step>)
      requires Valid() && w !in workers && id < |jobs| && IsNext(jobs, Locked(View()), now, id)
      modifies this
      ensures Valid() && Interleaved(models, old(View()), w, own, steps, View())
      ensures Transaction(old(View()), w, now, reply, own) && own[0].id == id
      ensures if reply.Acked? then out.Job? && out.id == id else out.DbError?
      ensures out.Job? ==> Holds(View(), w) && Current(w) == Claim(id, out.kind, [], Undecided, 0, true)
                           && out.payload == jobs[id].payload
      ensures !out.Job? ==> w !in workers
    {
      hide Inv, Runs, Own, Played, Interleaved, IsNext;
      ghost var s := View();
      ghost var select := Select(w, id, now);
      var job := jobs[id];
      workers := workers[w := Selected(id)];
      SelectKeepsInv(models, s, select);
      ghost var s1 := View();
      ghost var between := LetOthersWork(w, others);
      ghost var s2 := View();
      ghost var last := if reply.NoEffect? then Rollback(w) else Commit(w, reply.Acked?);
      ClaimRun(models, s, w, select, between, s2, last);
      InterleavedKeepsInv(models, s, w, [select, last], [select] + between + [last], Apply(models, s2, last));
      own, steps := [select, last], [select] + between + [last];
      if reply.NoEffect? {  // the deferred rollback gives the lock back
        workers := workers - {w};
        return DbError, own, steps;
      }
      jobs := jobs[id := Claimed(jobs[id])];
      log := log + [Claim(id, job.kind, [], if reply.Acked? then Undecided else Closed, 0, true)];
      workers := if reply.Acked? then workers[w := Holding(|log| - 1)] else workers - {w};
      assert View() == Apply(models, s2, last);
      if reply.LostReply? { return DbError, own, steps; }
      out := ClaimReply.Job(id, job.kind, job.payload);
    }

    /** UPDATE ... SET status = 'done' WHERE id = $1; the caller drops the error. */
    method CompleteEnrichmentJob(w: nat, id: nat, reply: Reply) returns (ghost step: Step)
      requires Valid() && Holds(View(), w) && id == Current(w).job && MayFinish(models, Current(w))
      modifies this
      ensures Valid() && step == Finish(w, !reply.NoEffect?) && w !in workers
      ensures Enabled(models, old(View()), step) && View() == Apply(models, old(View()), step)
    {
      ghost var s := View();
      if !reply.NoEffect? { jobs := jobs[id := Completed(jobs[id])]; }
      log := Close(log, workers[w].claim);
      workers := workers - {w};
      step := Finish(w, !reply.NoEffect?);
      ClosingKeepsInv(models, s, step);
    }

    /** UPDATE ... SET status = CASE WHEN attempts >= 5 ... WHERE id = $1; the caller drops the error. */
    method FailEnrichmentJob(w: nat, id: nat, retryAt: int, reply: Reply) returns (ghost step: Step)
      requires Valid() && Holds(View(), w) && id == Current(w).job && MayFail(Current(w))
      modifies this
      ensures Valid() && step == Fail(w, retryAt, !reply.NoEffect?) && w !in workers
      ensures Enabled(models, old(View()), step) && View() == Apply(models, old(View()), step)
    {
      ghost var s := View();
      if !reply.NoEffect? { jobs := jobs[id := GivenBack(jobs[id], retryAt)]; }
      log := Close(log, workers[w].claim);
      workers := workers - {w};
      step := Fail(w, retryAt, !reply.NoEffect?);
      ClosingKeepsInv(models, s, step);
    }

    /** The worker stops waiting for its closing update. */
    method GiveUpClosing(w: nat, slot: nat, failing: bool) returns (ghost step: Step)
      requires Valid() && Holds(View(), w) && slot !in workers
      requires if failing then MayFail(Current(w)) else MayFinish(models, Current(w))
      modifies this`workers, this`log
      ensures Valid() && step == GiveUp(w, slot, failing) && w !in workers
      ensures Enabled(models, old(View()), step) && View() == Apply(models, old(View()), step)
    {
      ghost var s := View();
      var c := workers[w].claim;
      log := log[c := log[c].(verdict := if failing then WillFail else WillSucceed)];
      workers := (workers - {w})[slot := Holding(c)];
      step := GiveUp(w, slot, failing);
      GiveUpKeepsInv(models, s, step);
    }

    /** The end of vinDecode, for a vehicle in scope: attach, and if that added nothing queue a recall fetch.  Others
        may work on the recall tables before the attach, and on the jobs before the insert. */
    method AttachOrQueue(w: nat, fetch: Payload, tables: Recalls.RecallTables, now: int, attach: Reply, enqueue: Reply,
                         others: seq<Step>, onRecalls: seq<Recalls.Statement>)
      returns (err: bool, ghost own: seq<Step>, ghost steps: seq<Step>)
      requires Valid() && tables.Valid() && Holds(View(), w)
      requires Current(w).kind.VinDecode? && Current(w).children == [] && Current(w).verdict.Undecided?
      requires fetch.Mmy?
      modifies this, tables
      ensures Valid() && tables.Valid() && Processed(models, old(View()), w, err, own, steps, View())
              && err == !attach.Acked?
      ensures var met := Recalls.Run(old(tables.View()), Recalls.Theirs(onRecalls));
              && tables.View() == (if attach.NoEffect? then met else Attaching(met, fetch))
              && own == if !err && AlreadyAttached(met, fetch) then [Spawn(w, fetch, now, enqueue)] else []
    {
      hide Recalls.Run, Recalls.Unique, AlreadyAttached, Attaching;
      hide Inv, Processed, Runs, Apply, Enabled, Played, Interleaved;
      ghost var s := View();
      own, steps := [], [];
      var n;
      n, err := AttachFetch(fetch, tables, attach, onRecalls);
      VinUndecided(models, s, w, err);
      if err || n > 0 { return; }
      ghost var between := LetOthersWork(w, others);
      ghost var s1 := View();
      var _, step := EnqueueForClaim(w, fetch, now, now, enqueue);
      own, steps := [step], between + [step];
      VinQueued(models, s, w, between, s1, step);
    }

    /** Everything before the enqueue may fail; the enqueue is the last effect and its error is dropped.  A recall
        fetch is queued exactly when the vehicle, in scope, already had every campaign the catalog lists for it when
        the attach came -- also when the catalog does list some. */
    method VinDecode(w: nat, payload: Payload, tables: Recalls.RecallTables, r: Round)
      returns (err: bool, ghost own: seq<Step>, ghost steps: seq<Step>)
      requires Valid() && tables.Valid() && Holds(View(), w)
      requires Current(w).kind.VinDecode? && Current(w).children == [] && Current(w).verdict.Undecided?
      modifies this, tables
      ensures Valid() && tables.Valid() && Processed(models, old(View()), w, err, own, steps, View())
              && err == VinFails(r)
      ensures !err && InMarketScope(r.decoded.value.make, r.decoded.value.year) ==>
                var met := Recalls.Run(old(tables.View()), Recalls.Theirs(r.others.onRecalls(0)));
                var fetch := FetchFor(payload, r.decoded.value);
                && tables.View() == Attaching(met, fetch)
                && own == if AlreadyAttached(met, fetch) then [Spawn(w, fetch, r.clock(0), r.db(3))] else []
      ensures !err && !InMarketScope(r.decoded.value.make, r.decoded.value.year) ==> tables.View() == old(tables.View())
      ensures err || !InMarketScope(r.decoded.value.make, r.decoded.value.year) ==> own == []
    {
      hide Recalls.Run, AlreadyAttached, Attaching, Inv, Processed;
      own, steps := [], [];
      VinUndecided(models, View(), w, true);
      VinUndecided(models, View(), w, false);
      if !r.idParses { return true, own, steps; }
      if r.decoded.None? { return true, own, steps; }
      if !r.db(0).Acked? { return true, own, steps; }  // the vehicle's identity
      if !r.db(1).Acked? { return true, own, steps; }  // its enrichment row
      if !InMarketScope(r.decoded.value.make, r.decoded.value.year) { return false, own, steps; }
      err, own, steps := AttachOrQueue(w, FetchFor(payload, r.decoded.value), tables, r.clock(0), r.db(2), r.db(3),
                                       r.others.beforeInsert(0), r.others.onRecalls(0));
    }

    /** Upserts and attaches recalls only; no rows.  A vehicle id that does not parse is passed over. */
    method RecallsForModelYear(w: nat, payload: Payload, tables: Recalls.RecallTables, r: Round)
      returns (err: bool, ghost own: seq<Step>, ghost steps: seq<Step>)
      requires Valid() && tables.Valid() && Holds(View(), w) && Current(w).kind.RecallsMMY?
               && Current(w).verdict.Undecided?
      modifies tables
      ensures Valid() && tables.Valid() && Processed(models, old(View()), w, err, own, steps, View()) && own == []
      ensures err == ProcessFails(models, RecallsMMY, payload, r)
      ensures var p := AsModelYear(payload);
              InMarketScope(p.make, p.year) && r.fetched.Some? && r.idParses && p.forVehicle != ""
              && Acks(r.db, |r.fetched.value| + 1) == |r.fetched.value| + 1 ==>
                forall i | 0 <= i < |r.fetched.value| :: (p.forVehicle, r.fetched.value[i].0) in tables.attached
    {
      hide Inv;
      own, steps := [], [];
      var p := AsModelYear(payload);
      ghost var ops;
      var vehicle := if r.idParses then p.forVehicle else "";
      err, ops := tables.RecallsMMY(vehicle, p.make, p.model, p.year, r.fetched, r.db, r.cut, r.others.onRecalls);
    }

    /** One row of a seed run, due `enqueued * 500ms` from now; others may work before it. */
    method EnqueueSeedRow(ghost s: State, w: nat, m: nat, year: nat, enqueued: nat, r: Round, ghost before: seq<Step>)
      returns (err: bool, ghost own: seq<Step>, ghost steps: seq<Step>)
      requires Valid() && SeedProgress(models, s, w, r, enqueued, before, View())
      requires m < |models| && SeedYear(year) && enqueued == Slot(m, year)
      modifies this
      ensures Valid() && enqueued < SEED_YEARS * |models| && err == !r.db(1 + enqueued).Acked?
      ensures if err then Processed(models, s, w, true, own, steps, View())
              else SeedProgress(models, s, w, r, enqueued + 1, steps, View())
    {
      hide Inv, Processed, Runs, Apply, Played, Interleaved;
      ghost var s1 := View();
      SlotsAreModelYears(models, m, year, enqueued);
      ghost var between := LetOthersWork(w, r.others.beforeInsert(enqueued));
      ghost var s2 := View();
      var now := r.clock(enqueued);
      ghost var step;
      err, step := EnqueueForClaim(w, Mmy("", models[m].nhtsaName, models[m].nhtsaModel, year), now,
                                   now + enqueued * SEED_SPACING, r.db(1 + enqueued));
      SeedAdvances(models, s, w, r, enqueued, before, s1, between, s2, step);
      own, steps := SeedInserts(models, w, r, enqueued) + [step], before + between + [step];
    }

    /** The inner loop: the rows of one model. */
    method SeedModel(ghost s: State, w: nat, m: nat, r: Round, ghost before: seq<Step>)
      returns (err: bool, ghost own: seq<Step>, ghost steps: seq<Step>)
      requires Valid() && m < |models| && SeedProgress(models, s, w, r, SEED_YEARS * m, before, View())
      requires Acks(r.db, 1 + SEED_YEARS * m) == 1 + SEED_YEARS * m
      modifies this
      ensures Valid() && err == (Acks(r.db, 1 + SEED_YEARS * (m + 1)) < 1 + SEED_YEARS * (m + 1))
      ensures if err then Processed(models, s, w, true, own, steps, View())
              else SeedProgress(models, s, w, r, SEED_YEARS * (m + 1), steps, View())
    {
      hide SeedProgress, Processed, Inv, Slot, Acks;
      err, own, steps := false, [], before;
      SlotsOfModel(m, MIN_MODEL_YEAR);
      var enqueued, year := SEED_YEARS * m, MIN_MODEL_YEAR;
      while year <= MAX_SEED_YEAR
        invariant MIN_MODEL_YEAR <= year <= MAX_SEED_YEAR + SEED_YEAR_STEP && year % SEED_YEAR_STEP == 0
        invariant enqueued == Slot(m, year) && !err && Acks(r.db, 1 + enqueued) == 1 + enqueued
        invariant Valid() && SeedProgress(models, s, w, r, enqueued, steps, View())
        decreases MAX_SEED_YEAR + SEED_YEAR_STEP - year
      {
        SlotsOfModel(m, year);
        err, own, steps := EnqueueSeedRow(s, w, m, year, enqueued, r, steps);
        if err {
          AcksStopAt(r.db, 1 + enqueued, 1 + SEED_YEARS * (m + 1));
          return;
        }
        AcksGoOn(r.db, 1 + enqueued);
        enqueued := enqueued + 1;
        year := year + SEED_YEAR_STEP;
      }
    }

    /** One row per (model, even year from 2010 to 2024), each due 500ms after the one before, unless a statement
        fails. */
    method SeedCatalog(w: nat, r: Round) returns (err: bool, ghost own: seq<Step>, ghost steps: seq<Step>)
      requires Valid() && Holds(View(), w) && Current(w).kind.SeedCatalog? && Current(w).children == []
               && Current(w).verdict.Undecided?
      modifies this
      ensures Valid() && Processed(models, old(View()), w, err, own, steps, View())
      ensures err == ProcessFails(models, JobQueue.SeedCatalog, Region, r)
      ensures !err ==> own == SeedInserts(models, w, r, SEED_YEARS * |models|)
    {
      own, steps := [], [];
      ghost var s := View();
      NothingHappened(models, s, w);
      err := !r.db(0).Acked?;  // listing the market models
      if err {
        AcksStopAt(r.db, 0, 1 + SEED_YEARS * |models|);
        return;
      }
      err, own, steps := SeedRows(s, w, r);
    }

    method SeedRows(ghost s: State, w: nat, r: Round) returns (err: bool, ghost own: seq<Step>, ghost steps: seq<Step>)
      requires Valid() && View() == s && r.db(0).Acked?
      requires Holds(View(), w) && Current(w).kind.SeedCatalog? && Current(w).children == []
               && Current(w).verdict.Undecided?
      modifies this
      ensures Valid() && Processed(models, s, w, err, own, steps, View())
      ensures err == (Acks(r.db, 1 + SEED_YEARS * |models|) < 1 + SEED_YEARS * |models|)
      ensures !err ==> own == SeedInserts(models, w, r, SEED_YEARS * |models|)
    {
      hide SeedProgress, Processed, Inv;
      err, own, steps := false, [], [];
      SeedStarts(models, s, w, r);
      for m := 0 to |models|
        invariant Valid() && SeedProgress(models, s, w, r, SEED_YEARS * m, steps, View()) && !err
        invariant Acks(r.db, 1 + SEED_YEARS * m) == 1 + SEED_YEARS * m
      {
        err, own, steps := SeedModel(s, w, m, r, steps);
        if err {
          AcksBelow(r.db, 1 + SEED_YEARS * (m + 1), 1 + SEED_YEARS * |models|);
          return;
        }
      }
      own := SeedInserts(models, w, r, SEED_YEARS * |models|);
      SeedFinished(models, s, w, r, steps, View());
    }

    method Process(w: nat, kind: Kind, payload: Payload, tables: Recalls.RecallTables, r: Round)
      returns (err: bool, ghost own: seq<Step>, ghost steps: seq<Step>)
      requires Valid() && tables.Valid()
      requires Holds(View(), w) && Current(w).kind == kind && Current(w).children == [] && Current(w).verdict.Undecided?
      modifies this, tables
      ensures Valid() && tables.Valid() && Processed(models, old(View()), w, err, own, steps, View())
      ensures err == ProcessFails(models, kind, payload, r)
    {
      hide Inv, Processed;
      match kind
      case VinDecode => err, own, steps := VinDecode(w, payload, tables, r);
      case RecallsMMY => err, own, steps := RecallsForModelYear(w, payload, tables, r);
      case SeedCatalog => err, own, steps := SeedCatalog(w, r);
    }

    /** See a claimed job through: process it, then close it, with others at work in between. */
    method Work(tables: Recalls.RecallTables, w: nat, id: nat, kind: Kind, payload: Payload, r: Round, retryDelay: int)
      returns (failed: bool, ghost own: seq<Step>, ghost steps: seq<Step>)
      requires Valid() && tables.Valid()
      requires Holds(View(), w) && Current(w) == Claim(id, kind, [], Undecided, 0, true)
      modifies this, tables
      ensures Valid() && tables.Valid() && w !in workers && failed == ProcessFails(models, kind, payload, r)
      ensures Interleaved(models, old(View()), w, own, steps, View())
      ensures own != [] && Closes(own[|own| - 1], w, failed, r, retryDelay)
              && forall i | 0 <= i < |own| - 1 :: own[i].Spawn?
    {
      hide Inv, Runs, Apply, Enabled, Played, Interleaved, ProcessFails;
      ghost var s := View();
      failed, own, steps := Process(w, kind, payload, tables, r);
      ghost var s1 := View();
      ghost var between := LetOthersWork(w, r.others.beforeClosing);
      InSequence(models, s, w, own, steps, s1, [], between, View());
      assert own + [] == own;
      ghost var s2 := View();
      ghost var step;
      if r.closing.GivenUp? && r.closing.slot !in workers {
        step := GiveUpClosing(w, r.closing.slot, failed);
      } else {
        var reply := if r.closing.Answered? then r.closing.reply else NoEffect;
        if failed {
          step := FailEnrichmentJob(w, id, r.failedAt + retryDelay, reply);
        } else {
          step := CompleteEnrichmentJob(w, id, reply);
        }
      }
      ThenOwn(models, s, w, own, steps + between, s2, step);
      own, steps := own + [step], steps + between + [step];
    }

    /** Claim one job and see it through; `retryDelay` is two minutes in the worker, one in the drain loop. */
    method ClaimAndProcess(tables: Recalls.RecallTables, w: nat, r: Round, retryDelay: int)
      returns (out: ClaimReply, failed: bool, ghost own: seq<Step>, ghost steps: seq<Step>)
      requires Valid() && tables.Valid() && w !in workers
      modifies this, tables
      ensures Valid() && tables.Valid() && w !in workers && Interleaved(models, old(View()), w, own, steps, View())
      ensures if r.claim.Acked? then !out.DbError? else out.DbError?
      ensures out.NoJob? ==> own == [] && !SomeDue(View(), r.dbNow)
      ensures out.Job? ==> failed == ProcessFails(models, out.kind, out.payload, r) && |own| >= 3
                           && own[0] == Select(w, out.id, r.dbNow) && own[1] == Commit(w, true)
                           && Closes(own[|own| - 1], w, failed, r, retryDelay)
                           && forall i | 2 <= i < |own| - 1 :: own[i].Spawn?
      ensures Commits(own) <= 1 && (out.Job? ==> Commits(own) == 1)
      ensures Finishes(own) == if out.Job? && !failed then 1 else 0
    {
      hide Inv, Runs, IsNext, Enabled, Apply, Played, Interleaved, ProcessFails, Unmoved;
      ghost var s := View();
      failed := false;
      ghost var before := LetOthersWork(w, r.others.beforeClaim);
      IdleStaysIdle(s, View(), w);
      ghost var s1 := View();
      out, own, steps := ClaimEnrichmentJob(w, r.dbNow, r.claim, r.others.inClaim);
      ghost var s2 := View();
      InSequence(models, s, w, [], before, s1, own, steps, s2);
      assert [] + own == own;
      steps := before + steps;
      TwoStepsCount(own);
      if !out.Job? { return; }
      ghost var own1, steps1 := own, steps;
      ghost var more, moreSteps;
      failed, more, moreSteps := Work(tables, w, out.id, out.kind, out.payload, r, retryDelay);
      InSequence(models, s, w, own1, steps1, s2, more, moreSteps, View());
      own, steps := own1 + more, steps1 + moreSteps;
      CommitsAppend(own1, more);
      FinishesAppend(own1, more);
      SpawnsThenClosing(more);
    }

    /** One timer tick of the API worker: up to five jobs, and fewer only when a claim fails or nothing is due; none
        while enrichment is switched off. */
    method Tick(tables: Recalls.RecallTables, w: nat, enabled: bool, rounds: nat -> Round)
      returns (ghost own: seq<Step>, ghost steps: seq<Step>, ghost claimed: nat)
      requires Valid() && tables.Valid() && w !in workers
      modifies this, tables
      ensures Valid() && tables.Valid() && w !in workers && Interleaved(models, old(View()), w, own, steps, View())
      ensures claimed <= Commits(own) <= 5 && (!enabled ==> View() == old(View()) && own == [])
      ensures forall i: nat | i < claimed :: rounds(i).claim.Acked?
      ensures enabled && claimed < 5 && rounds(claimed).claim.Acked? ==> !SomeDue(View(), rounds(claimed).dbNow)
    {
      hide Inv, Runs, Own, Interleaved, SomeDue, ProcessFails;
      ghost var s := View();
      own, steps, claimed := [], [], 0;
      NothingHappened(models, s, w);
      if !enabled { return; }
      var i: nat := 0;
      while i < 5
        invariant i <= 5 && Valid() && tables.Valid() && w !in workers && Interleaved(models, s, w, own, steps, View())
        invariant claimed == i == Commits(own)
        invariant forall k: nat | k < i :: rounds(k).claim.Acked?
      {
        ghost var s1 := View();
        var out, failed, more, moreSteps := ClaimAndProcess(tables, w, rounds(i), 120_000);
        InSequence(models, s, w, own, steps, s1, more, moreSteps, View());
        CommitsAppend(own, more);
        own, steps := own + more, steps + moreSteps;
        if !out.Job? { break; }
        i, claimed := i + 1, claimed + 1;
      }
    }

    /** `enrichctl --drain`, whose deadline falls in round number `deadline`.  "queue empty" is reported exactly when a
        round before it finds no unlocked row due; `processed` counts the jobs that did not fail.  Whoever else is at
        work, no more jobs are claimed than the table owed at the start and outside rows brought in meanwhile: given
        that many rounds and one more, the loop stops by itself. */
    method Drain(tables: Recalls.RecallTables, w: nat, rounds: nat -> Round, deadline: nat)
      returns (empty: bool, processed: nat, ghost own: seq<Step>, ghost steps: seq<Step>, ghost claimed: nat)
      requires Valid() && tables.Valid() && w !in workers
      modifies this, tables
      ensures Valid() && tables.Valid() && w !in workers && Interleaved(models, old(View()), w, own, steps, View())
      ensures claimed <= deadline && forall i: nat | i < claimed :: rounds(i).claim.Acked?
      ensures empty <==> claimed < deadline && rounds(claimed).claim.Acked?
      ensures empty ==> !SomeDue(View(), rounds(claimed).dbNow)
      ensures processed == Finishes(own) <= claimed <= Commits(own)
      ensures Commits(steps) <= Rank(models, old(View())) + TotalSupply(models, steps)
      ensures deadline > Rank(models, old(View())) + TotalSupply(models, steps) ==>
                empty || !rounds(claimed).claim.Acked?
    {
      hide Inv, Runs, Own, Interleaved, SomeDue, ProcessFails, Rank, TotalSupply;
      ghost var s := View();
      empty, processed, own, steps, claimed := false, 0, [], [], 0;
      NothingHappened(models, s, w);
      for i: nat := 0 to deadline
        invariant Valid() && tables.Valid() && w !in workers && Interleaved(models, s, w, own, steps, View())
        invariant claimed == i && !empty && processed == Finishes(own) <= claimed <= Commits(own)
        invariant forall k: nat | k < i :: rounds(k).claim.Acked?
      {
        ghost var s1 := View();
        var out, failed, more, moreSteps := ClaimAndProcess(tables, w, rounds(i), 60_000);
        InSequence(models, s, w, own, steps, s1, more, moreSteps, View());
        CommitsAppend(own, more);
        FinishesAppend(own, more);
        own, steps := own + more, steps + moreSteps;
        if out.NoJob? { empty := true; break; }
        if out.DbError? { break; }  // log.Fatal
        if !failed { processed := processed + 1; }
        claimed := claimed + 1;
      }
      OwnClaimsAreBounded(models, s, w, own, steps, View());
    }
  }

  // ---------------------------------------------------------------- counting

  lemma SeedStarts(models: seq<MarketModel>, s: State, w: nat, r: Round)
    requires Inv(models, s) && Holds(s, w) && r.db(0).Acked?
    requires var c := s.log[s.workers[w].claim]; c.kind.SeedCatalog? && c.children == [] && c.verdict.Undecided?
    ensures SeedProgress(models, s, w, r, 0, [], s) && Acks(r.db, 1) == 1
  {
    hide Inv;
    assert SeedInserts(models, w, r, 0) == [];
  }

  lemma IdleStaysIdle(s: State, s1: State, w: nat)
    requires Unmoved(s, s1, w) && w !in s.workers
    ensures w !in s1.workers
  {}

  /** The closing update the processing calls for, as it ended; a slot that is taken counts as no effect. */
  predicate Closes(step: Step, w: nat, failed: bool, r: Round, retryDelay: int) {
    var applied := r.closing.Answered? && !r.closing.reply.NoEffect?;
    || (r.closing.GivenUp? && step == GiveUp(w, r.closing.slot, failed))
    || step == if failed then Fail(w, r.failedAt + retryDelay, applied) else Finish(w, applied)
  }

  /** Steps that end a job without a failure, counted as `processed`. */
  predicate Succeeds(step: Step) {
    step.Finish? || (step.GiveUp? && !step.failing)
  }

  function Finishes(steps: seq<Step>): nat {
    if steps == [] then 0 else (if Succeeds(steps[0]) then 1 else 0) + Finishes(steps[1..])
  }

  lemma {:induction false} FinishesAppend(a: seq<Step>, b: seq<Step>)
    ensures Finishes(a + b) == Finishes(a) + Finishes(b)
  {
    if a == [] {
      assert a + b == b;
    } else {
      FinishesAppend(a[1..], b);
      assert (a + b)[1..] == a[1..] + b;
    }
  }

  lemma TwoStepsCount(own: seq<Step>)
    requires |own| == 0 || (|own| == 2 && own[0].Select? && (own[1].Rollback? || own[1].Commit?))
    ensures Finishes(own) == 0 && Commits(own) == if own != [] && own[1].Commit? then 1 else 0
  {
    if own != [] { assert own[1..][1..] == []; }
  }

  lemma {:induction false} SpawnsThenClosing(own: seq<Step>)
    requires own != [] && forall i | 0 <= i < |own| - 1 :: own[i].Spawn?
    requires !own[|own| - 1].Commit?
    ensures Commits(own) == 0 && Finishes(own) == if Succeeds(own[|own| - 1]) then 1 else 0
  {
    if |own| > 1 { SpawnsThenClosing(own[1..]); }
  }

  lemma OwnClaimsAreBounded(models: seq<MarketModel>, s: State, w: nat, own: seq<Step>, steps: seq<Step>, s1: State)
    requires Inv(models, s) && Interleaved(models, s, w, own, steps, s1)
    ensures Commits(own) <= Commits(steps) <= Rank(models, s) + TotalSupply(models, steps)
  {
    hide Inv;
    ClaimsAreBounded(models, s, steps, s1);
    LogCountsCommits(models, s, steps, s1);
    OwnCommitsCount(steps, w);
  }
}
