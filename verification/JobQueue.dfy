/** The enrichment job table and everything that may happen to it.

    A row's identity is its position: rows are inserted and never deleted.  Each SQL statement of
    internal/store/enrichment.go is one function on the table; the steps below interleave any number
    of workers (the API worker, other API processes, `enrichctl --drain`), with lost replies,
    ignored database errors and crashes. */
module JobQueue {
  import opened Common
  import opened Market

  const MAX_ATTEMPTS: nat := 5
  const SEED_YEARS: nat := 8  // 2010, 2012, ..., 2024
  const SEED_SPACING: nat := 500  // milliseconds

  datatype MarketModel = MarketModel(nhtsaName: string, nhtsaModel: string)

  datatype Kind = VinDecode | RecallsMMY | SeedCatalog
  datatype Status = Pending | Running | Done | Failed
  datatype Payload =
    | Vehicle(vehicleId: string, vin: string)
    | Mmy(forVehicle: string, make: string, model: string, year: nat)
    | Region

  datatype Job = Job(kind: Kind, payload: Payload, status: Status, attempts: nat, runAfter: int)

  // ---------------------------------------------------------------- the SQL statements

  function Inserted(kind: Kind, payload: Payload, runAfter: int): Job {
    Job(kind, payload, Pending, 0, runAfter)
  }

  /** WHERE status = 'pending' AND run_after <= now(), minus the rows SKIP LOCKED passes over. */
  predicate Claimable(jobs: seq<Job>, locked: set<nat>, now: int, id: nat) {
    id < |jobs| && jobs[id].status == Pending && jobs[id].runAfter <= now && id !in locked
  }

  /** ORDER BY run_after ... LIMIT 1; rows with equal run_after come in any order. */
  predicate IsNext(jobs: seq<Job>, locked: set<nat>, now: int, id: nat) {
    && Claimable(jobs, locked, now, id)
    && forall other: nat | other < |jobs| && Claimable(jobs, locked, now, other) ::
         jobs[id].runAfter <= jobs[other].runAfter
  }

  function Claimed(job: Job): Job {
    job.(status := Running, attempts := job.attempts + 1)
  }

  /** The two closing updates name the row by id alone: there is no guard on its status. */
  function Completed(job: Job): Job {
    job.(status := Done)
  }

  function GivenBack(job: Job, retryAt: int): Job {
    job.(status := if job.attempts >= MAX_ATTEMPTS then Failed else Pending, runAfter := retryAt)
  }

  // ---------------------------------------------------------------- workers and history

  /** What the running Process call may still return: an enqueue is a vin_decode's last effect. */
  datatype Verdict = Undecided | WillSucceed | WillFail | Closed

  datatype Child = Child(id: nat, due: int)

  /** One claim of one job: the rows its Process call inserted, and whether the clock readings
      behind their run_after values never went backwards. */
  datatype Claim = Claim(job: nat, kind: Kind, children: seq<Child>, verdict: Verdict, asOf: int, steady: bool)

  /** Selected holds the row lock of an open claim transaction; Holding has committed its claim. */
  datatype Phase = Selected(id: nat) | Holding(claim: nat)

  datatype Origin = Outside | SpawnedBy(claim: nat, index: nat)

  /** Idle workers are absent from the map.  The log and the origins are history. */
  datatype State = State(jobs: seq<Job>, workers: map<nat, Phase>, log: seq<Claim>, origin: seq<Origin>)

  /** GiveUp: worker w no longer waits for its closing update and goes on, while the database may still apply the
      update at any later time, or never.  Until then a slot of its own holds the claim; it can only finish it, or only
      fail it. */
  datatype Step =
    | Enqueue(kind: Kind, payload: Payload, runAfter: int)
    | Select(w: nat, id: nat, now: int)
    | Commit(w: nat, acked: bool)
    | Rollback(w: nat)
    | Spawn(w: nat, payload: Payload, now: int, reply: Reply)
    | Finish(w: nat, applied: bool)
    | Fail(w: nat, retryAt: int, applied: bool)
    | GiveUp(w: nat, slot: nat, failing: bool)
    | Crash(w: nat)

  function Locked(s: State): set<nat> {
    set w | w in s.workers && s.workers[w].Selected? :: s.workers[w].id
  }

  /** Rows one Process call may insert. */
  function SpawnLimit(models: seq<MarketModel>, kind: Kind): nat {
    match kind
    case VinDecode => 1
    case RecallsMMY => 0
    case SeedCatalog => SEED_YEARS * |models|
  }

  /** The k-th row of a seed run: models outermost, years 2010, 2012, ..., 2024 within a model. */
  function SeedEntry(models: seq<MarketModel>, k: nat): Payload
    requires k < SEED_YEARS * |models|
  {
    var m := models[k / SEED_YEARS];
    Mmy("", m.nhtsaName, m.nhtsaModel, MIN_MODEL_YEAR + SEED_YEAR_STEP * (k % SEED_YEARS))
  }

  predicate SpawnFits(models: seq<MarketModel>, c: Claim, payload: Payload) {
    && |c.children| < SpawnLimit(models, c.kind)
    && payload.Mmy?
    && (c.kind.SeedCatalog? ==> payload == SeedEntry(models, |c.children|))
  }

  predicate MayFinish(models: seq<MarketModel>, c: Claim) {
    c.verdict != WillFail && (c.kind.SeedCatalog? ==> |c.children| == SpawnLimit(models, c.kind))
  }

  /** A seed run fails before its first row or at the enqueue that failed; a vin_decode only before its enqueue. */
  predicate MayFail(c: Claim) {
    c.verdict != WillSucceed && (c.kind.SeedCatalog? && c.children != [] ==> c.verdict == WillFail)
  }

  predicate Holds(s: State, w: nat) {
    w in s.workers && s.workers[w].Holding? && s.workers[w].claim < |s.log|
    && s.log[s.workers[w].claim].job < |s.jobs|
  }

  predicate Enabled(models: seq<MarketModel>, s: State, step: Step) {
    match step
    case Enqueue(_, _, _) => true
    case Select(w, id, now) => w !in s.workers && IsNext(s.jobs, Locked(s), now, id)
    case Commit(w, _) => w in s.workers && s.workers[w].Selected? && s.workers[w].id < |s.jobs|
    case Rollback(w) => w in s.workers && s.workers[w].Selected?
    case Spawn(w, payload, _, _) =>
      Holds(s, w) && s.log[s.workers[w].claim].verdict.Undecided?
      && SpawnFits(models, s.log[s.workers[w].claim], payload)
    case Finish(w, _) => Holds(s, w) && MayFinish(models, s.log[s.workers[w].claim])
    case Fail(w, _, _) => Holds(s, w) && MayFail(s.log[s.workers[w].claim])
    case GiveUp(w, slot, failing) =>
      Holds(s, w) && slot !in s.workers
      && if failing then MayFail(s.log[s.workers[w].claim]) else MayFinish(models, s.log[s.workers[w].claim])
    case Crash(w) => w in s.workers
  }

  /** A seed row is due `enqueued * 500ms` after the clock reading; a recall row spawned by a VIN is due at once. */
  function Due(c: Claim, now: int): int {
    now + SEED_SPACING * |c.children|
  }

  function AfterSpawn(models: seq<MarketModel>, c: Claim, row: nat, now: int, reply: Reply): Claim {
    var children := if reply.NoEffect? then c.children else c.children + [Child(row, Due(c, now))];
    var verdict :=
      if c.kind.SeedCatalog? then
        if !reply.Acked? then WillFail
        else if |children| == SpawnLimit(models, c.kind) then WillSucceed
        else Undecided
      else WillSucceed;  // vin_decode ignores the enqueue error and returns nil
    if reply.NoEffect? then c.(verdict := verdict)
    else c.(children := children, verdict := verdict, asOf := now,
            steady := c.steady && (c.children == [] || c.asOf <= now))
  }

  function Close(log: seq<Claim>, c: nat): seq<Claim>
    requires c < |log|
  {
    log[c := log[c].(verdict := Closed)]
  }

  function Apply(models: seq<MarketModel>, s: State, step: Step): State
    requires Enabled(models, s, step)
  {
    match step
    case Enqueue(kind, payload, runAfter) =>
      s.(jobs := s.jobs + [Inserted(kind, payload, runAfter)], origin := s.origin + [Outside])
    case Select(w, id, _) => s.(workers := s.workers[w := Selected(id)])
    case Commit(w, acked) =>
      var id := s.workers[w].id;
      var claim := Claim(id, s.jobs[id].kind, [], if acked then Undecided else Closed, 0, true);
      s.(jobs := s.jobs[id := Claimed(s.jobs[id])],
         log := s.log + [claim],
         workers := if acked then s.workers[w := Holding(|s.log|)] else s.workers - {w})
    case Rollback(w) => s.(workers := s.workers - {w})
    case Spawn(w, payload, now, reply) =>
      var c := s.workers[w].claim;
      var log := s.log[c := AfterSpawn(models, s.log[c], |s.jobs|, now, reply)];
      if reply.NoEffect? then s.(log := log)
      else s.(jobs := s.jobs + [Inserted(RecallsMMY, payload, Due(s.log[c], now))],
              origin := s.origin + [SpawnedBy(c, |s.log[c].children|)],
              log := log)
    case Finish(w, applied) =>
      var c := s.workers[w].claim;
      var id := s.log[c].job;
      s.(jobs := if applied then s.jobs[id := Completed(s.jobs[id])] else s.jobs,
         log := Close(s.log, c), workers := s.workers - {w})
    case Fail(w, retryAt, applied) =>
      var c := s.workers[w].claim;
      var id := s.log[c].job;
      s.(jobs := if applied then s.jobs[id := GivenBack(s.jobs[id], retryAt)] else s.jobs,
         log := Close(s.log, c), workers := s.workers - {w})
    case GiveUp(w, slot, failing) =>
      var c := s.workers[w].claim;
      s.(log := s.log[c := s.log[c].(verdict := if failing then WillFail else WillSucceed)],
         workers := (s.workers - {w})[slot := Holding(c)])
    case Crash(w) =>
      var s1 := s.(workers := s.workers - {w});
      if s.workers[w].Holding? && s.workers[w].claim < |s.log|
      then s1.(log := Close(s.log, s.workers[w].claim)) else s1
  }

  /** s1 is reached from s by exactly these steps, in this order. */
  predicate Runs(models: seq<MarketModel>, s: State, steps: seq<Step>, s1: State)
    decreases |steps|
  {
    if steps == [] then s == s1
    else Enabled(models, s, steps[0]) && Runs(models, Apply(models, s, steps[0]), steps[1..], s1)
  }

  function Empty(): State {
    State([], map[], [], [])
  }

  /** States some interleaving can produce, starting from an empty table. */
  ghost predicate Reachable(models: seq<MarketModel>, s: State) {
    exists steps :: Runs(models, Empty(), steps, s)
  }

  // ---------------------------------------------------------------- the invariant

  function ClaimCount(log: seq<Claim>, id: nat): nat {
    if log == [] then 0
    else ClaimCount(log[..|log| - 1], id) + if log[|log| - 1].job == id then 1 else 0
  }

  ghost predicate RetryOk(job: Job) {
    && (job.status.Pending? ==> job.attempts < MAX_ATTEMPTS)
    && (job.status.Running? || job.status.Done? ==> 1 <= job.attempts <= MAX_ATTEMPTS)
    && (job.status.Failed? ==> job.attempts == MAX_ATTEMPTS)
  }

  ghost predicate CountOk(s: State, id: nat)
    requires id < |s.jobs|
  {
    s.jobs[id].attempts == ClaimCount(s.log, id) && RetryOk(s.jobs[id])
  }

  ghost predicate CountsOk(s: State) {
    forall id: nat | id < |s.jobs| :: CountOk(s, id)
  }

  ghost predicate LogOk(s: State) {
    && |s.origin| == |s.jobs|
    && forall c: nat | c < |s.log| :: s.log[c].job < |s.jobs| && s.log[c].kind == s.jobs[s.log[c].job].kind
  }

  /** The row a busy worker has locked or is processing. */
  function Target(s: State, w: nat): nat
    requires w in s.workers && LogOk(s)
    requires s.workers[w].Holding? ==> s.workers[w].claim < |s.log|
  {
    match s.workers[w]
    case Selected(id) => id
    case Holding(c) => s.log[c].job
  }

  ghost predicate IsLast(log: seq<Claim>, c: nat)
    requires c < |log|
  {
    forall d: nat | c < d < |log| :: log[d].job != log[c].job
  }

  ghost predicate WorkerOk(s: State, w: nat)
    requires LogOk(s) && w in s.workers
  {
    match s.workers[w]
    case Selected(id) => id < |s.jobs| && s.jobs[id].status.Pending?
    case Holding(c) => c < |s.log| && s.jobs[s.log[c].job].status.Running?
                       && !s.log[c].verdict.Closed? && IsLast(s.log, c)
  }

  ghost predicate WorkersOk(s: State)
    requires LogOk(s)
  {
    && (forall w | w in s.workers :: WorkerOk(s, w))
    && (forall w, v | w in s.workers && v in s.workers && w != v :: Target(s, w) != Target(s, v))
  }

  /** The k-th child of claim c is a recall row that names c and k as its origin. */
  ghost predicate ChildOk(models: seq<MarketModel>, s: State, c: nat, k: nat)
    requires LogOk(s) && c < |s.log| && k < |s.log[c].children|
  {
    var child := s.log[c].children[k];
    && child.id < |s.jobs|
    && s.origin[child.id] == SpawnedBy(c, k)
    && s.jobs[child.id].kind.RecallsMMY?
    && (s.jobs[child.id].attempts == 0 ==> s.jobs[child.id].runAfter == child.due)
    && (s.log[c].kind.SeedCatalog? ==>
          k < SEED_YEARS * |models| && s.jobs[child.id].payload == SeedEntry(models, k))
  }

  /** A spawned row is listed by the claim it names, at the index it names. */
  ghost predicate RowOk(s: State, r: nat)
    requires LogOk(s) && r < |s.jobs|
  {
    match s.origin[r]
    case Outside => true
    case SpawnedBy(c, k) => c < |s.log| && k < |s.log[c].children| && s.log[c].children[k].id == r
  }

  ghost predicate ChildrenOk(models: seq<MarketModel>, s: State)
    requires LogOk(s)
  {
    && (forall c: nat, k: nat | c < |s.log| && k < |s.log[c].children| :: ChildOk(models, s, c, k))
    && (forall r: nat | r < |s.jobs| :: RowOk(s, r))
  }

  ghost predicate Increasing(children: seq<Child>) {
    forall a: nat, b: nat | a < b < |children| :: children[a].due < children[b].due
  }

  ghost predicate ClaimOk(models: seq<MarketModel>, s: State, c: nat)
    requires LogOk(s) && c < |s.log|
  {
    var claim := s.log[c];
    var status := s.jobs[claim.job].status;
    && |claim.children| <= SpawnLimit(models, claim.kind)
    && (claim.steady ==> Increasing(claim.children))
    && (claim.children != [] ==>
          claim.children[|claim.children| - 1].due == claim.asOf + SEED_SPACING * (|claim.children| - 1))
    && (claim.kind.VinDecode? && claim.children != [] ==>
          && (claim.verdict.WillSucceed? || claim.verdict.Closed?)
          && (status.Running? || status.Done?)
          && IsLast(s.log, c))
    && (claim.kind.SeedCatalog? && status.Done? && IsLast(s.log, c) ==>
          |claim.children| == SpawnLimit(models, claim.kind))
  }

  ghost predicate Inv(models: seq<MarketModel>, s: State) {
    && LogOk(s)
    && CountsOk(s)
    && WorkersOk(s)
    && ChildrenOk(models, s)
    && forall c: nat | c < |s.log| :: ClaimOk(models, s, c)
  }
}
