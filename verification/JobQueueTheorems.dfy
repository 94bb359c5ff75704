/** What the invariant buys: ownership, final states, retry bounds, spawn-once, seed order, and a bound
    on the number of claims every interleaving can make. */
module JobQueueTheorems {
  import opened JobQueue
  import opened Market
  import opened JobQueueProofs

  // ---------------------------------------------------------------- ownership and final states

  /** The unguarded closing updates only ever hit a running row that the caller alone holds. */
  lemma ClosingHitsOwnRunningJob(models: seq<MarketModel>, s: State, step: Step)
    requires Reachable(models, s) && Enabled(models, s, step) && (step.Finish? || step.Fail?)
    ensures var id := s.log[s.workers[step.w].claim].job;
            && s.jobs[id].status == Running
            && (forall v, c: nat | v in s.workers && s.workers[v] == Holding(c) && c < |s.log| && s.log[c].job == id ::
                  v == step.w)
            && (forall v | v in s.workers :: s.workers[v] != Selected(id))
            && forall r: nat | r < |s.jobs| && r != id :: Apply(models, s, step).jobs[r] == s.jobs[r]
  {
    ReachableInv(models, s);
    assert WorkerOk(s, step.w);
    forall v | v in s.workers && v != step.w ensures Target(s, v) != Target(s, step.w) {}
  }

  /** Every held job is running, and no two workers hold or have locked the same row. */
  lemma AtMostOneHolder(models: seq<MarketModel>, s: State, w: nat, v: nat)
    requires Reachable(models, s) && w in s.workers && v in s.workers
    ensures forall c: nat :: s.workers[w] == Holding(c) ==>
              c < |s.log| && s.log[c].job < |s.jobs| && s.jobs[s.log[c].job].status == Running
    ensures forall c: nat, d: nat :: w != v && s.workers[w] == Holding(c) && s.workers[v] == Holding(d) ==>
              c < |s.log| && d < |s.log| && s.log[c].job != s.log[d].job
    ensures w != v && s.workers[w].Selected? ==> s.workers[w] != s.workers[v]
    ensures forall id: nat, d: nat :: s.workers[w] == Selected(id) && s.workers[v] == Holding(d) ==>
              d < |s.log| && s.log[d].job != id
  {
    ReachableInv(models, s);
    assert WorkerOk(s, w) && WorkerOk(s, v);
    if w != v { assert Target(s, w) != Target(s, v); }
  }

  /** done and failed are never left: the whole row stays as it is, in every run. */
  lemma {:induction false} FinalRowsStay(models: seq<MarketModel>, s: State, steps: seq<Step>, s1: State, id: nat)
    requires Inv(models, s) && Runs(models, s, steps, s1)
    requires id < |s.jobs| && (s.jobs[id].status.Done? || s.jobs[id].status.Failed?)
    ensures id < |s1.jobs| && s1.jobs[id] == s.jobs[id]
    decreases |steps|
  {
    if steps != [] {
      var step := steps[0];
      StepKeepsInv(models, s, step);
      if step.Commit? || step.Finish? || step.Fail? { assert WorkerOk(s, step.w); }
      FinalRowsStay(models, Apply(models, s, step), steps[1..], s1, id);
    }
  }

  /** attempts counts the claims; five is the cap; only the fifth failure is final. */
  lemma RetryBound(models: seq<MarketModel>, s: State, id: nat)
    requires Reachable(models, s) && id < |s.jobs|
    ensures s.jobs[id].attempts == ClaimCount(s.log, id) <= MAX_ATTEMPTS
    ensures s.jobs[id].status == Pending ==> s.jobs[id].attempts <= 4
    ensures s.jobs[id].status == Running || s.jobs[id].status == Done ==> 1 <= s.jobs[id].attempts <= 5
    ensures s.jobs[id].status == Failed ==> s.jobs[id].attempts == 5
  {
    ReachableInv(models, s);
    assert CountOk(s, id);
  }

  // ---------------------------------------------------------------- spawning

  /** Row r was inserted on behalf of job id, by any of its claims. */
  ghost predicate SpawnedFor(s: State, id: nat, r: nat) {
    && r < |s.jobs| == |s.origin| && s.origin[r].SpawnedBy?
    && s.origin[r].claim < |s.log| && s.log[s.origin[r].claim].job == id
  }

  /** Over all its retries one vin_decode job inserts at most one row. */
  lemma VinSpawnsAtMostOnce(models: seq<MarketModel>, s: State, id: nat, r1: nat, r2: nat)
    requires Reachable(models, s) && id < |s.jobs| && s.jobs[id].kind == VinDecode
    requires SpawnedFor(s, id, r1) && SpawnedFor(s, id, r2)
    ensures r1 == r2 && s.jobs[r1].kind == RecallsMMY
  {
    ReachableInv(models, s);
    var c1, c2 := s.origin[r1].claim, s.origin[r2].claim;
    assert RowOk(s, r1) && RowOk(s, r2);
    assert ClaimOk(models, s, c1) && ClaimOk(models, s, c2);
    assert ChildOk(models, s, c1, s.origin[r1].index);
  }

  /** A recalls_mmy job inserts nothing. */
  lemma RecallsSpawnNothing(models: seq<MarketModel>, s: State, id: nat, r: nat)
    requires Reachable(models, s) && id < |s.jobs| && s.jobs[id].kind == RecallsMMY
    ensures !SpawnedFor(s, id, r)
  {
    ReachableInv(models, s);
    forall c: nat | c < |s.log| && s.log[c].job == id ensures s.log[c].children == [] {
      assert ClaimOk(models, s, c);
    }
    if r < |s.jobs| { assert RowOk(s, r); }
  }

  /** The place of (model, year) in a seed run. */
  function Slot(i: nat, year: nat): nat
    requires MIN_MODEL_YEAR <= year
  {
    SEED_YEARS * i + (year - MIN_MODEL_YEAR) / SEED_YEAR_STEP
  }

  lemma SlotsOfModel(i: nat, year: nat)
    requires SeedYear(year)
    ensures Slot(i, MIN_MODEL_YEAR) == SEED_YEARS * i
    ensures Slot(i, year + SEED_YEAR_STEP) == Slot(i, year) + 1 <= SEED_YEARS * (i + 1)
    ensures Slot(i, MAX_SEED_YEAR + SEED_YEAR_STEP) == SEED_YEARS * (i + 1)
  {}

  predicate SeedYear(year: nat) {
    MIN_MODEL_YEAR <= year <= MAX_SEED_YEAR && year % SEED_YEAR_STEP == 0
  }

  /** Slots and (model, year) pairs correspond one to one: every pair has a slot of its own, and every slot is some
      pair's.  So a seed run names every pair once. */
  lemma SlotsAreModelYears(models: seq<MarketModel>, i: nat, year: nat, k: nat)
    requires i < |models| && SeedYear(year)
    ensures Slot(i, year) < SEED_YEARS * |models|
    ensures SeedEntry(models, Slot(i, year)) == Mmy("", models[i].nhtsaName, models[i].nhtsaModel, year)
    ensures k == Slot(i, year) ==> i == k / SEED_YEARS && SeedEntry(models, k).year == year
    ensures k < SEED_YEARS * |models| ==>
              var ofSlot := MIN_MODEL_YEAR + SEED_YEAR_STEP * (k % SEED_YEARS);
              k / SEED_YEARS < |models| && SeedYear(ofSlot) && Slot(k / SEED_YEARS, ofSlot) == k
  {
    assert SEED_YEARS * i + SEED_YEARS <= SEED_YEARS * |models|;
  }

  /** Row r is job id's row for the k-th (model, year) pair. */
  ghost predicate RowForSlot(models: seq<MarketModel>, s: State, id: nat, k: nat, r: nat) {
    && SpawnedFor(s, id, r) && s.origin[r].index == k
    && k < SEED_YEARS * |models| && s.jobs[r].kind == RecallsMMY && s.jobs[r].payload == SeedEntry(models, k)
  }

  ghost predicate SlotFilled(models: seq<MarketModel>, s: State, id: nat, k: nat) {
    exists r: nat :: RowForSlot(models, s, id, k, r)
  }

  lemma {:induction false} LastClaim(log: seq<Claim>, id: nat) returns (c: nat)
    requires ClaimCount(log, id) >= 1
    ensures c < |log| && log[c].job == id && IsLast(log, c)
  {
    var n := |log| - 1;
    if log[n].job == id { c := n; } else { c := LastClaim(log[..n], id); }
  }

  /** A finished seed job has a row for every (model, year) pair; all its rows are such rows; and no pair got
      a second row exactly when its earlier, failed attempts inserted nothing. */
  lemma SeedCoversExactlyOnceIff(models: seq<MarketModel>, s: State, id: nat) returns (last: nat)
    requires Reachable(models, s) && id < |s.jobs|
    requires s.jobs[id].kind == SeedCatalog && s.jobs[id].status == Done
    ensures last < |s.log| && s.log[last].job == id && IsLast(s.log, last)
    ensures forall k: nat | k < SEED_YEARS * |models| :: SlotFilled(models, s, id, k)
    ensures forall r: nat | SpawnedFor(s, id, r) :: RowForSlot(models, s, id, s.origin[r].index, r)
    ensures (forall k: nat, r1: nat, r2: nat | RowForSlot(models, s, id, k, r1) && RowForSlot(models, s, id, k, r2) ::
               r1 == r2)
            <==> (forall c: nat | c < |s.log| && s.log[c].job == id && c != last :: s.log[c].children == [])
  {
    ReachableInv(models, s);
    assert CountOk(s, id);
    last := LastClaim(s.log, id);
    assert ClaimOk(models, s, last);
    forall k: nat | k < SEED_YEARS * |models| ensures SlotFilled(models, s, id, k) {
      assert ChildOk(models, s, last, k);
      assert RowForSlot(models, s, id, k, s.log[last].children[k].id);
    }
    forall r: nat | SpawnedFor(s, id, r) ensures RowForSlot(models, s, id, s.origin[r].index, r) {
      assert RowOk(s, r) && ChildOk(models, s, s.origin[r].claim, s.origin[r].index);
    }
    if c: nat :| c < |s.log| && s.log[c].job == id && c != last && s.log[c].children != [] {
      assert ChildOk(models, s, c, 0) && ClaimOk(models, s, c) && ChildOk(models, s, last, 0);
      assert RowForSlot(models, s, id, 0, s.log[c].children[0].id);
      assert RowForSlot(models, s, id, 0, s.log[last].children[0].id);
    } else {
      forall k: nat, r1: nat, r2: nat | RowForSlot(models, s, id, k, r1) && RowForSlot(models, s, id, k, r2)
        ensures r1 == r2
      {
        assert RowOk(s, r1) && RowOk(s, r2);
      }
    }
  }

  /** Claimed once and done: each (model, year) pair has exactly one row. */
  lemma SeedWithoutFailureCoversOnce(models: seq<MarketModel>, s: State, id: nat, i: nat, year: nat)
    requires Reachable(models, s) && id < |s.jobs| && i < |models| && SeedYear(year)
    requires s.jobs[id].kind == SeedCatalog && s.jobs[id].status == Done && s.jobs[id].attempts == 1
    ensures exists r: nat ::
              && RowForSlot(models, s, id, Slot(i, year), r)
              && s.jobs[r].payload == Mmy("", models[i].nhtsaName, models[i].nhtsaModel, year)
              && forall r2: nat | RowForSlot(models, s, id, Slot(i, year), r2) :: r2 == r
  {
    var last := SeedCoversExactlyOnceIff(models, s, id);
    ReachableInv(models, s);
    assert CountOk(s, id);
    forall c: nat | c < |s.log| && s.log[c].job == id ensures c == last {
      if c != last { TwoClaimsCountTwice(s.log, c, last); }
    }
    SlotsAreModelYears(models, i, year, Slot(i, year));
    assert SlotFilled(models, s, id, Slot(i, year));
    var r: nat :| RowForSlot(models, s, id, Slot(i, year), r);
  }

  lemma {:induction false} TwoClaimsCountTwice(log: seq<Claim>, c: nat, d: nat)
    requires c < |log| && d < |log| && c != d && log[c].job == log[d].job
    ensures ClaimCount(log, log[c].job) >= 2
  {
    var n := |log| - 1;
    if c == n { ClaimCountPositive(log[..n], d); }
    else if d == n { ClaimCountPositive(log[..n], c); }
    else { TwoClaimsCountTwice(log[..n], c, d); }
  }

  // ---------------------------------------------------------------- order of first claims

  /** Under a clock that did not step back during the seed run, a row of that run is first claimed only after
      every earlier row of the run has been claimed, or while another worker has that earlier row locked. */
  lemma FirstClaimsFollowSeedOrder(models: seq<MarketModel>, s: State, step: Step, c: nat, a: nat, b: nat)
    requires Reachable(models, s) && step.Select? && Enabled(models, s, step)
    requires c < |s.log| && s.log[c].steady && a < b < |s.log[c].children|
    requires s.log[c].children[b].id == step.id && s.jobs[step.id].attempts == 0
    ensures var earlier := s.log[c].children[a].id;
            && earlier < |s.jobs|
            && (s.jobs[earlier].attempts >= 1
                || exists v :: v != step.w && v in s.workers && s.workers[v] == Selected(earlier))
  {
    ReachableInv(models, s);
    var earlier := s.log[c].children[a].id;
    assert ChildOk(models, s, c, a) && ChildOk(models, s, c, b) && ClaimOk(models, s, c);
    assert CountOk(s, earlier);
    if s.jobs[earlier].attempts == 0 {
      assert s.jobs[earlier].runAfter < s.jobs[step.id].runAfter;
      assert earlier in Locked(s);
    }
  }

  /** Some pending, due, unlocked row exists exactly when the claim query returns one. */
  lemma {:induction false} QueryFindsDueRow(jobs: seq<Job>, locked: set<nat>, now: int, id: nat) returns (next: nat)
    requires Claimable(jobs, locked, now, id)
    ensures IsNext(jobs, locked, now, next)
  {
    next := id;
    for i := 0 to |jobs|
      invariant Claimable(jobs, locked, now, next)
      invariant forall k: nat | k < i && Claimable(jobs, locked, now, k) :: jobs[next].runAfter <= jobs[k].runAfter
    {
      if Claimable(jobs, locked, now, i) && jobs[i].runAfter < jobs[next].runAfter { next := i; }
    }
  }

  // ---------------------------------------------------------------- how many claims a run can make

  function Total(xs: seq<nat>): nat {
    if xs == [] then 0 else Total(xs[..|xs| - 1]) + xs[|xs| - 1]
  }

  lemma {:induction false} TotalUpdate(xs: seq<nat>, i: nat, x: nat)
    requires i < |xs|
    ensures Total(xs[i := x]) == Total(xs) - xs[i] + x
  {
    var n := |xs| - 1;
    if i < n {
      TotalUpdate(xs[..n], i, x);
      assert xs[i := x][..n] == xs[..n][i := x];
    } else {
      assert xs[i := x][..n] == xs[..n];
    }
  }

  /** Claims each attempt can lead to: itself, and for a seed run five for each row it may insert. */
  function Weight(models: seq<MarketModel>, kind: Kind): nat {
    if kind.SeedCatalog? then 1 + MAX_ATTEMPTS * SpawnLimit(models, kind) else 1
  }

  /** Claims a row can still lead to.  A vin_decode inserts its one row in the attempt that succeeds, so it owes
      the five claims of that row once, not once per attempt. */
  function JobCredit(models: seq<MarketModel>, job: Job): nat {
    if job.attempts >= MAX_ATTEMPTS || job.status.Done? || job.status.Failed? then 0
    else (MAX_ATTEMPTS - job.attempts) * Weight(models, job.kind) + VinCredit(job)
  }

  function VinCredit(job: Job): nat {
    if job.kind.VinDecode? && job.status.Pending? then MAX_ATTEMPTS else 0
  }

  /** Claims the rows an open claim may still insert can lead to. */
  function ClaimCredit(models: seq<MarketModel>, c: Claim): nat {
    if c.verdict.Closed? || |c.children| >= SpawnLimit(models, c.kind) then 0
    else MAX_ATTEMPTS * (SpawnLimit(models, c.kind) - |c.children|)
  }

  function JobCredits(models: seq<MarketModel>, jobs: seq<Job>): seq<nat> {
    seq(|jobs|, i requires 0 <= i < |jobs| => JobCredit(models, jobs[i]))
  }

  function ClaimCredits(models: seq<MarketModel>, log: seq<Claim>): seq<nat> {
    seq(|log|, i requires 0 <= i < |log| => ClaimCredit(models, log[i]))
  }

  function Rank(models: seq<MarketModel>, s: State): nat {
    Total(JobCredits(models, s.jobs)) + Total(ClaimCredits(models, s.log))
  }

  /** Claims that rows from outside (uploaded scans, `enrichctl --seed`) bring in. */
  function Supply(models: seq<MarketModel>, step: Step): nat {
    if step.Enqueue?
    then MAX_ATTEMPTS * Weight(models, step.kind) + (if step.kind.VinDecode? then MAX_ATTEMPTS else 0)
    else 0
  }

  function TotalSupply(models: seq<MarketModel>, steps: seq<Step>): nat {
    if steps == [] then 0 else Supply(models, steps[0]) + TotalSupply(models, steps[1..])
  }

  lemma JobInserted(models: seq<MarketModel>, jobs: seq<Job>, job: Job)
    ensures Total(JobCredits(models, jobs + [job])) == Total(JobCredits(models, jobs)) + JobCredit(models, job)
  {
    var xs := JobCredits(models, jobs + [job]);
    assert xs[..|jobs|] == JobCredits(models, jobs);
  }

  lemma JobChanged(models: seq<MarketModel>, jobs: seq<Job>, i: nat, job: Job)
    requires i < |jobs|
    ensures Total(JobCredits(models, jobs[i := job]))
            == Total(JobCredits(models, jobs)) - JobCredit(models, jobs[i]) + JobCredit(models, job)
  {
    TotalUpdate(JobCredits(models, jobs), i, JobCredit(models, job));
    assert JobCredits(models, jobs[i := job]) == JobCredits(models, jobs)[i := JobCredit(models, job)];
  }

  lemma ClaimAdded(models: seq<MarketModel>, log: seq<Claim>, c: Claim)
    ensures Total(ClaimCredits(models, log + [c])) == Total(ClaimCredits(models, log)) + ClaimCredit(models, c)
  {
    var xs := ClaimCredits(models, log + [c]);
    assert xs[..|log|] == ClaimCredits(models, log);
  }

  lemma ClaimChanged(models: seq<MarketModel>, log: seq<Claim>, i: nat, c: Claim)
    requires i < |log|
    ensures Total(ClaimCredits(models, log[i := c]))
            == Total(ClaimCredits(models, log)) - ClaimCredit(models, log[i]) + ClaimCredit(models, c)
  {
    TotalUpdate(ClaimCredits(models, log), i, ClaimCredit(models, c));
    assert ClaimCredits(models, log[i := c]) == ClaimCredits(models, log)[i := ClaimCredit(models, c)];
  }

  /** Claims made plus claims still possible never grow, except by what comes from outside. */
  lemma StepPaysForClaims(models: seq<MarketModel>, s: State, step: Step)
    requires Inv(models, s) && Enabled(models, s, step)
    ensures var s1 := Apply(models, s, step);
            |s1.log| + Rank(models, s1) <= |s.log| + Rank(models, s) + Supply(models, step)
  {
    hide Inv, Total, JobCredits, ClaimCredits;
    match step
    case Enqueue(kind, payload, runAfter) => JobInserted(models, s.jobs, Inserted(kind, payload, runAfter));
    case Select(_, _, _) =>
    case Rollback(_) =>
    case Commit(_, _) => CommitPays(models, s, step);
    case Spawn(_, _, _, _) => SpawnPays(models, s, step);
    case Finish(w, _) => ClosingPays(models, s, step);
    case Fail(w, _, _) => ClosingPays(models, s, step);
    case GiveUp(w, _, _) => GiveUpPays(models, s, step);
    case Crash(w) => if s.workers[w].Holding? && s.workers[w].claim < |s.log| {
      ClaimChanged(models, s.log, s.workers[w].claim, s.log[s.workers[w].claim].(verdict := Closed));
    }
  }

  lemma CommitPays(models: seq<MarketModel>, s: State, step: Step)
    requires Inv(models, s) && Enabled(models, s, step) && step.Commit?
    ensures var s1 := Apply(models, s, step);
            |s1.log| == |s.log| + 1 && Rank(models, s1) + 1 <= Rank(models, s)
  {
    var id := s.workers[step.w].id;
    assert WorkerOk(s, step.w) && CountOk(s, id);
    hide Inv, Total, JobCredits, ClaimCredits;
    JobChanged(models, s.jobs, id, Claimed(s.jobs[id]));
    ClaimAdded(models, s.log, Apply(models, s, step).log[|s.log|]);
    ClaimSpendsOneAttempt(models, s.jobs[id]);
  }

  lemma SpawnPays(models: seq<MarketModel>, s: State, step: Step)
    requires Inv(models, s) && Enabled(models, s, step) && step.Spawn?
    ensures var s1 := Apply(models, s, step);
            |s1.log| == |s.log| && Rank(models, s1) <= Rank(models, s)
  {
    hide Inv, Total, JobCredits, ClaimCredits;
    var c := s.workers[step.w].claim;
    JobInserted(models, s.jobs, Inserted(RecallsMMY, step.payload, Due(s.log[c], step.now)));
    ClaimChanged(models, s.log, c, Apply(models, s, step).log[c]);
  }

  lemma GiveUpPays(models: seq<MarketModel>, s: State, step: Step)
    requires Inv(models, s) && Enabled(models, s, step) && step.GiveUp?
    ensures var s1 := Apply(models, s, step);
            |s1.log| == |s.log| && Rank(models, s1) == Rank(models, s)
  {
    hide Total, JobCredits, ClaimCredits, CountsOk, ChildrenOk, ClaimOk;
    var c := s.workers[step.w].claim;
    assert WorkerOk(s, step.w);
    ClaimChanged(models, s.log, c, Apply(models, s, step).log[c]);
  }

  lemma ClaimSpendsOneAttempt(models: seq<MarketModel>, job: Job)
    requires job.attempts < MAX_ATTEMPTS && job.status.Pending?
    ensures JobCredit(models, job) == JobCredit(models, Claimed(job)) + Weight(models, job.kind) + VinCredit(job)
  {
    var left := MAX_ATTEMPTS - job.attempts;
    assert left * Weight(models, job.kind) == (left - 1) * Weight(models, job.kind) + Weight(models, job.kind);
  }

  /** A vin_decode attempt that fails has inserted nothing. */
  lemma FailingClaimIsChildless(models: seq<MarketModel>, s: State, step: Step)
    requires Inv(models, s) && Enabled(models, s, step) && (step.Finish? || step.Fail?)
    ensures var claim := s.log[s.workers[step.w].claim];
            && s.jobs[claim.job].kind == claim.kind && s.jobs[claim.job].status.Running? && !claim.verdict.Closed?
            && (step.Fail? && claim.kind.VinDecode? ==> claim.children == [])
  {
    assert WorkerOk(s, step.w) && ClaimOk(models, s, s.workers[step.w].claim);
  }

  lemma ClosingPays(models: seq<MarketModel>, s: State, step: Step)
    requires Inv(models, s) && Enabled(models, s, step) && (step.Finish? || step.Fail?)
    ensures var s1 := Apply(models, s, step);
            |s1.log| == |s.log| && Rank(models, s1) <= Rank(models, s)
  {
    hide Inv, Total, JobCredits, ClaimCredits;
    var c := s.workers[step.w].claim;
    var id := s.log[c].job;
    FailingClaimIsChildless(models, s, step);
    ClaimChanged(models, s.log, c, s.log[c].(verdict := Closed));
    JobChanged(models, s.jobs, id, Apply(models, s, step).jobs[id]);
  }

  /** Every interleaving makes finitely many claims: at most what the table owed at the start plus what
      each row brought in from outside can lead to -- 5 for a recall fetch, 10 for a VIN, 5 + 200 per market model
      for a seed run. */
  lemma {:induction false} ClaimsAreBounded(models: seq<MarketModel>, s: State, steps: seq<Step>, s1: State)
    requires Inv(models, s) && Runs(models, s, steps, s1)
    ensures |s1.log| + Rank(models, s1) <= |s.log| + Rank(models, s) + TotalSupply(models, steps)
    decreases |steps|
  {
    if steps != [] {
      StepKeepsInv(models, s, steps[0]);
      StepPaysForClaims(models, s, steps[0]);
      ClaimsAreBounded(models, Apply(models, s, steps[0]), steps[1..], s1);
    }
  }

  /** The claims of a run are the Commit steps in it; with no outside rows there are at most Rank many. */
  function Commits(steps: seq<Step>): nat {
    if steps == [] then 0 else (if steps[0].Commit? then 1 else 0) + Commits(steps[1..])
  }

  lemma {:induction false} LogCountsCommits(models: seq<MarketModel>, s: State, steps: seq<Step>, s1: State)
    requires Runs(models, s, steps, s1)
    ensures |s1.log| == |s.log| + Commits(steps)
    decreases |steps|
  {
    if steps != [] { LogCountsCommits(models, Apply(models, s, steps[0]), steps[1..], s1); }
  }

  lemma {:induction false} NoOutsideSupply(models: seq<MarketModel>, steps: seq<Step>)
    requires forall i | 0 <= i < |steps| :: !steps[i].Enqueue?
    ensures TotalSupply(models, steps) == 0
  {
    if steps != [] { NoOutsideSupply(models, steps[1..]); }
  }

  lemma ClosedSystemStops(models: seq<MarketModel>, s: State, steps: seq<Step>, s1: State)
    requires Inv(models, s) && Runs(models, s, steps, s1)
    requires forall i | 0 <= i < |steps| :: !steps[i].Enqueue?
    ensures |s1.log| == |s.log| + Commits(steps)
    ensures Commits(steps) + Rank(models, s1) <= Rank(models, s)
  {
    ClaimsAreBounded(models, s, steps, s1);
    LogCountsCommits(models, s, steps, s1);
    NoOutsideSupply(models, steps);
  }
}
