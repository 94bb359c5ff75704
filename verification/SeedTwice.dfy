/** The other side of the seed theorem: exactly-once does fail, in a run the code can take. */
module SeedTwice {
  import opened Common
  import opened Interference
  import opened JobQueue
  import opened JobQueueProofs
  import opened JobQueueTheorems

  /** The claim worker w works on is a seed run that can go on. */
  ghost predicate Seeding(models: seq<MarketModel>, s: State, w: nat) {
    && Inv(models, s) && Holds(s, w)
    && var c := s.log[s.workers[w].claim];
       c.kind.SeedCatalog? && c.verdict.Undecided? && |c.children| < SpawnLimit(models, c.kind)
  }

  /** From there its program can insert every remaining row; earlier claims stay as they are. */
  lemma {:induction false} SeedRunsOn(models: seq<MarketModel>, s: State, w: nat) returns (steps: seq<Step>, s1: State)
    requires Seeding(models, s, w)
    ensures Runs(models, s, steps, s1) && Inv(models, s1) && Holds(s1, w) && s1.workers == s.workers
            && |s1.log| == |s.log|
    ensures var c := s.workers[w].claim;
            && s1.log[c].job == s.log[c].job && MayFinish(models, s1.log[c])
            && forall d: nat | d < |s.log| && d != c :: s1.log[d] == s.log[d]
    decreases SpawnLimit(models, SeedCatalog) - |s.log[s.workers[w].claim].children|
  {
    hide Inv, Runs;
    var c := s.log[s.workers[w].claim];
    var step := Spawn(w, SeedEntry(models, |c.children|), 0, Acked);
    var next := Apply(models, s, step);
    StepKeepsInv(models, s, step);
    assert Runs(models, s, [step], next) by { OneStepRun(models, s, step); }
    if |c.children| + 1 < SpawnLimit(models, c.kind) {
      var more;
      more, s1 := SeedRunsOn(models, next, w);
      steps := [step] + more;
      RunsAppend(models, s, [step], next, more, s1);
    } else {
      steps, s1 := [step], next;
    }
  }

  lemma OneStepRun(models: seq<MarketModel>, s: State, step: Step)
    requires Enabled(models, s, step)
    ensures Runs(models, s, [step], Apply(models, s, step))
  {
    hide Enabled, Apply;
    assert [step][1..] == [];
  }

  const RETRY_AT: int := 120_000

  const SEED: JobQueue.Job := Inserted(SeedCatalog, Region, 0)
  const OPEN: Claim := Claim(0, SeedCatalog, [], Undecided, 0, true)
  const LOST: Claim := Claim(0, SeedCatalog, [Child(1, 0)], WillFail, 0, true)

  function FirstRow(models: seq<MarketModel>): JobQueue.Job
    requires models != []
  {
    Inserted(RecallsMMY, SeedEntry(models, 0), 0)
  }

  /** A seed row arrives and is claimed. */
  lemma SeedIsClaimed(models: seq<MarketModel>) returns (steps: seq<Step>, s: State)
    ensures Runs(models, Empty(), steps, s) && s == State([Claimed(SEED)], map[0 := Holding(0)], [OPEN], [Outside])
  {
    hide Runs;
    var s1 := State([SEED], map[], [], [Outside]);
    var s2 := s1.(workers := map[0 := Selected(0)]);
    s := State([Claimed(SEED)], map[0 := Holding(0)], [OPEN], [Outside]);
    var enqueue, select, commit := Enqueue(SeedCatalog, Region, 0), Select(0, 0, 0), Commit(0, true);
    assert Enabled(models, Empty(), enqueue) && Apply(models, Empty(), enqueue) == s1;
    assert Enabled(models, s1, select) && Apply(models, s1, select) == s2;
    assert Enabled(models, s2, commit) && Apply(models, s2, commit) == s;
    OneStepRun(models, Empty(), enqueue);
    RunsSnoc(models, Empty(), [enqueue], s1, select);
    RunsSnoc(models, Empty(), [enqueue] + [select], s2, commit);
    steps := [enqueue] + [select] + [commit];
  }

  /** Its first insert takes effect but the reply is lost; another worker locks the row it inserted, and the attempt is
      given back. */
  lemma FirstInsertIsLost(models: seq<MarketModel>, s: State) returns (steps: seq<Step>, s3: State)
    requires models != [] && s == State([Claimed(SEED)], map[0 := Holding(0)], [OPEN], [Outside])
    ensures Runs(models, s, steps, s3)
    ensures s3 == State([GivenBack(Claimed(SEED), RETRY_AT), FirstRow(models)], map[1 := Selected(1)],
                        [LOST.(verdict := Closed)], [Outside, SpawnedBy(0, 0)])
  {
    hide Runs;
    var row := FirstRow(models);
    var s1 := State([Claimed(SEED), row], map[0 := Holding(0)], [LOST], [Outside, SpawnedBy(0, 0)]);
    var s2 := s1.(workers := map[0 := Holding(0), 1 := Selected(1)]);
    s3 := State([GivenBack(Claimed(SEED), RETRY_AT), row], map[1 := Selected(1)], [LOST.(verdict := Closed)],
                [Outside, SpawnedBy(0, 0)]);
    var insert, select, fail := Spawn(0, SeedEntry(models, 0), 0, LostReply), Select(1, 1, 0), Fail(0, RETRY_AT, true);
    assert AfterSpawn(models, OPEN, 1, 0, LostReply) == LOST && [OPEN][0 := LOST] == [LOST];
    assert Enabled(models, s, insert) && Apply(models, s, insert) == s1;
    assert Enabled(models, s1, select) && Apply(models, s1, select) == s2;
    assert Enabled(models, s2, fail) && Apply(models, s2, fail) == s3;
    OneStepRun(models, s, insert);
    RunsSnoc(models, s, [insert], s1, select);
    RunsSnoc(models, s, [insert] + [select], s2, fail);
    steps := [insert] + [select] + [fail];
  }

  /** For every non-empty list of market models some reachable state has a done seed job with two rows for one model
      and year. */
  lemma SeedCanDouble(models: seq<MarketModel>) returns (s: State, k: nat, r1: nat, r2: nat)
    requires models != []
    ensures Reachable(models, s) && |s.jobs| > 0 && s.jobs[0].kind == SeedCatalog && s.jobs[0].status == Done
    ensures r1 != r2 && RowForSlot(models, s, 0, k, r1) && RowForSlot(models, s, 0, k, r2)
  {
    hide Inv, Runs, Enabled, Apply, RowForSlot;
    var steps1, s1 := SeedIsClaimed(models);
    var steps2, s2 := FirstInsertIsLost(models, s1);
    RunsAppend(models, Empty(), steps1, s1, steps2, s2);
    EmptyInv(models);
    RunKeepsInv(models, Empty(), steps1 + steps2, s2);
    var steps3;
    steps3, s := SecondAttempt(models, s2);
    RunsAppend(models, Empty(), steps1 + steps2, s2, steps3, s);
    var last := SeedCoversExactlyOnceIff(models, s, 0);
    assert last == 1;
    assert s.log[0].job == 0 && s.log[0].children != [];
    k, r1, r2 :| RowForSlot(models, s, 0, k, r1) && RowForSlot(models, s, 0, k, r2) && r1 != r2;
  }

  lemma EmptyInv(models: seq<MarketModel>)
    ensures Inv(models, Empty())
  {}

  /** The second attempt goes through. */
  lemma SecondAttempt(models: seq<MarketModel>, s: State) returns (steps: seq<Step>, s1: State)
    requires Inv(models, s) && models != [] && |s.jobs| == 2
             && s.jobs[0] == Job(SeedCatalog, Region, Pending, 1, RETRY_AT)
    requires s.workers == map[1 := Selected(1)] && |s.log| == 1 && s.log[0].job == 0
    ensures Runs(models, s, steps, s1) && |s1.jobs| > 0 && s1.jobs[0].kind == SeedCatalog && s1.jobs[0].status == Done
    ensures |s1.log| == 2 && s1.log[0] == s.log[0] && s1.log[1].job == 0
  {
    hide Inv, Runs;
    var select, commit, finish := Select(0, 0, RETRY_AT), Commit(0, true), Finish(0, true);
    assert Locked(s) == {1} by { assert s.workers[1].Selected?; }
    var s2 := Apply(models, s, select);
    StepKeepsInv(models, s, select);
    var s3 := Apply(models, s2, commit);
    StepKeepsInv(models, s2, commit);
    var more, s4 := SeedRunsOn(models, s3, 0);
    s1 := Apply(models, s4, finish);
    StepKeepsInv(models, s4, finish);
    OneStepRun(models, s, select);
    RunsSnoc(models, s, [select], s2, commit);
    RunsAppend(models, s, [select] + [commit], s3, more, s4);
    RunsSnoc(models, s, [select] + [commit] + more, s4, finish);
    steps := [select] + [commit] + more + [finish];
    KindsKept(models, s);
    KindsKept(models, s1);
    assert s.log[0].kind == SeedCatalog;
    assert s3.log[0] == s.log[0] && s4.log[0] == s3.log[0] && s1.log[0] == s4.log[0];
    assert s1.log[0].kind == s1.jobs[0].kind;
  }

  lemma KindsKept(models: seq<MarketModel>, s: State)
    requires Inv(models, s)
    ensures LogOk(s)
  {}
}
