/** What every interleaving of workers keeps, and what follows over whole runs. */
module JobQueueProofs {
  import opened JobQueue

  // ---------------------------------------------------------------- one step keeps the invariant

  lemma ClaimCountAppend(log: seq<Claim>, c: Claim, id: nat)
    ensures ClaimCount(log + [c], id) == ClaimCount(log, id) + if c.job == id then 1 else 0
  {
    assert (log + [c])[..|log|] == log;
  }

  /** Rewriting a claim in place without changing its job leaves every count alone. */
  lemma {:induction false} ClaimCountUpdate(log: seq<Claim>, i: nat, c: Claim, id: nat)
    requires i < |log| && c.job == log[i].job
    ensures ClaimCount(log[i := c], id) == ClaimCount(log, id)
  {
    var n := |log| - 1;
    if i < n {
      ClaimCountUpdate(log[..n], i, c, id);
      assert log[i := c][..n] == log[..n][i := c];
    } else {
      assert log[i := c][..n] == log[..n];
    }
  }

  lemma {:induction false} ClaimCountPositive(log: seq<Claim>, c: nat)
    requires c < |log|
    ensures ClaimCount(log, log[c].job) >= 1
  {
    if c < |log| - 1 { ClaimCountPositive(log[..|log| - 1], c); }
  }

  lemma {:induction false} ClaimCountFresh(log: seq<Claim>, id: nat)
    requires forall c: nat | c < |log| :: log[c].job != id
    ensures ClaimCount(log, id) == 0
  {
    if log != [] { ClaimCountFresh(log[..|log| - 1], id); }
  }

  /** A step that adds no child and rewrites only rows already claimed at least once keeps the family tree. */
  lemma ChildrenKept(models: seq<MarketModel>, s: State, s1: State)
    requires LogOk(s) && LogOk(s1) && ChildrenOk(models, s)
    requires |s.jobs| <= |s1.jobs| && |s.log| <= |s1.log|
    requires forall r: nat | r < |s.jobs| ::
               && s1.origin[r] == s.origin[r]
               && s1.jobs[r].kind == s.jobs[r].kind && s1.jobs[r].payload == s.jobs[r].payload
               && (s1.jobs[r].attempts == 0 ==> s.jobs[r].attempts == 0 && s1.jobs[r].runAfter == s.jobs[r].runAfter)
    requires forall r: nat | |s.jobs| <= r < |s1.jobs| :: s1.origin[r] == Outside
    requires forall c: nat | c < |s.log| :: s1.log[c].children == s.log[c].children && s1.log[c].kind == s.log[c].kind
    requires forall c: nat | |s.log| <= c < |s1.log| :: s1.log[c].children == []
    ensures ChildrenOk(models, s1)
  {
    forall c: nat, k: nat | c < |s1.log| && k < |s1.log[c].children| ensures ChildOk(models, s1, c, k) {
      assert ChildOk(models, s, c, k);
    }
    forall r: nat | r < |s1.jobs| ensures RowOk(s1, r) {
      if r < |s.jobs| { assert RowOk(s, r); }
    }
  }

  lemma EnqueueKeepsInv(models: seq<MarketModel>, s: State, step: Step)
    requires Inv(models, s) && step.Enqueue? && Enabled(models, s, step)
    ensures Inv(models, Apply(models, s, step))
  {
    var s1 := Apply(models, s, step);
    assert LogOk(s1);
    assert CountsOk(s1) by {
      ClaimCountFresh(s.log, |s.jobs|);
      forall id: nat | id < |s1.jobs| ensures CountOk(s1, id) { if id < |s.jobs| { assert CountOk(s, id); } }
    }
    WorkersKept(s, s1);
    ChildrenKept(models, s, s1);
    ClaimsKept(models, s, s1);
  }

  /** Rows and claims that no worker is on do not matter to the workers. */
  lemma WorkersKept(s: State, s1: State)
    requires LogOk(s) && LogOk(s1) && WorkersOk(s)
    requires |s.jobs| <= |s1.jobs| && |s.log| <= |s1.log|
    requires s1.workers.Keys <= s.workers.Keys && forall w | w in s1.workers :: s1.workers[w] == s.workers[w]
    requires forall w | w in s1.workers ::
               && s1.jobs[Target(s, w)].status == s.jobs[Target(s, w)].status
               && (forall c: nat | |s.log| <= c < |s1.log| :: s1.log[c].job != Target(s, w))
               && (s.workers[w].Holding? ==>
                     s1.log[s.workers[w].claim].verdict.Closed? ==> s.log[s.workers[w].claim].verdict.Closed?)
    requires forall c: nat | c < |s.log| :: s1.log[c].job == s.log[c].job
    ensures WorkersOk(s1)
  {
    forall w | w in s1.workers ensures WorkerOk(s1, w) && Target(s1, w) == Target(s, w) { assert WorkerOk(s, w); }
  }

  /** Claims keep their shape when no row becomes done or pending again and no child is added. */
  lemma ClaimsKept(models: seq<MarketModel>, s: State, s1: State)
    requires LogOk(s) && LogOk(s1) && |s.jobs| <= |s1.jobs| && s1.log == s.log
    requires forall r: nat | r < |s.jobs| :: s1.jobs[r].status == s.jobs[r].status
    requires forall c: nat | c < |s.log| :: ClaimOk(models, s, c)
    ensures forall c: nat | c < |s1.log| :: ClaimOk(models, s1, c)
  {
    forall c: nat | c < |s1.log| ensures ClaimOk(models, s1, c) { assert ClaimOk(models, s, c); }
  }

  lemma SelectKeepsInv(models: seq<MarketModel>, s: State, step: Step)
    requires Inv(models, s) && step.Select? && Enabled(models, s, step)
    ensures Inv(models, Apply(models, s, step))
  {
    var s1 := Apply(models, s, step);
    assert LogOk(s1);
    assert CountsOk(s1) by { forall id: nat | id < |s1.jobs| ensures CountOk(s1, id) { assert CountOk(s, id); } }
    assert WorkersOk(s1) by {
      forall v | v in s.workers ensures WorkerOk(s1, v) && step.id != Target(s, v) == Target(s1, v) {
        assert WorkerOk(s, v);
        if s.workers[v].Selected? { assert s.workers[v].id in Locked(s); }
      }
    }
    ChildrenKept(models, s, s1);
    ClaimsKept(models, s, s1);
  }

  lemma CommitKeepsInv(models: seq<MarketModel>, s: State, step: Step)
    requires Inv(models, s) && step.Commit? && Enabled(models, s, step)
    ensures Inv(models, Apply(models, s, step))
  {
    hide ClaimOk, ClaimCount;
    var s1 := Apply(models, s, step);
    var id := s.workers[step.w].id;
    var claim := s1.log[|s.log|];
    assert WorkerOk(s, step.w) && CountOk(s, id);
    assert LogOk(s1);
    forall j: nat | j < |s1.jobs| ensures CountOk(s1, j) {
      assert CountOk(s, j);
      ClaimCountAppend(s.log, claim, j);
    }
    assert WorkersOk(s1) by {
      forall v | v in s1.workers && v != step.w ensures WorkerOk(s1, v) && Target(s1, v) == Target(s, v) != id {
        assert WorkerOk(s, v) && Target(s, v) != Target(s, step.w);
      }
    }
    ChildrenKept(models, s, s1);
    forall c: nat | c < |s1.log| ensures ClaimOk(models, s1, c) { CommitKeepsClaim(models, s, step, c); }
  }

  lemma CommitKeepsClaim(models: seq<MarketModel>, s: State, step: Step, c: nat)
    requires Inv(models, s) && step.Commit? && Enabled(models, s, step)
    requires LogOk(Apply(models, s, step)) && c < |Apply(models, s, step).log|
    ensures ClaimOk(models, Apply(models, s, step), c)
  {
    var s1 := Apply(models, s, step);
    assert WorkerOk(s, step.w);
    if c < |s.log| {
      assert ClaimOk(models, s, c);
      assert forall d: nat | d < |s.log| :: s1.log[d] == s.log[d];
      assert IsLast(s1.log, c) ==> IsLast(s.log, c);
    }
  }

  lemma CloseKeepsCounts(log: seq<Claim>, c: nat)
    requires c < |log|
    ensures forall id: nat :: ClaimCount(Close(log, c), id) == ClaimCount(log, id)
  {
    forall id: nat { ClaimCountUpdate(log, c, log[c].(verdict := Closed), id); }
  }

  lemma ReleaseKeepsInv(models: seq<MarketModel>, s: State, step: Step)
    requires Inv(models, s) && (step.Rollback? || step.Crash?) && Enabled(models, s, step)
    ensures Inv(models, Apply(models, s, step))
  {
    var s1 := Apply(models, s, step);
    assert WorkerOk(s, step.w);
    hide ClaimOk, ChildOk, RowOk, ClaimCount, IsLast;
    if s.workers[step.w].Holding? { CloseKeepsCounts(s.log, s.workers[step.w].claim); }
    assert LogOk(s1);
    assert CountsOk(s1) by { forall id: nat | id < |s1.jobs| ensures CountOk(s1, id) { assert CountOk(s, id); } }
    forall v | v in s1.workers ensures Target(s, v) != Target(s, step.w) {}
    WorkersKept(s, s1);
    ChildrenKept(models, s, s1);
    forall c: nat | c < |s1.log| ensures ClaimOk(models, s1, c) { ReleaseKeepsClaim(models, s, step, c); }
  }

  lemma ReleaseKeepsClaim(models: seq<MarketModel>, s: State, step: Step, d: nat)
    requires Inv(models, s) && (step.Rollback? || step.Crash?) && Enabled(models, s, step)
    requires LogOk(Apply(models, s, step)) && d < |s.log|
    ensures ClaimOk(models, Apply(models, s, step), d)
  {
    assert ClaimOk(models, s, d);
    LastKept(s.log, Apply(models, s, step).log, d);
  }

  lemma ClosingKeepsInv(models: seq<MarketModel>, s: State, step: Step)
    requires Inv(models, s) && (step.Finish? || step.Fail?) && Enabled(models, s, step)
    ensures Inv(models, Apply(models, s, step))
  {
    var s1 := Apply(models, s, step);
    ClosingKeepsCounts(models, s, step);
    ClosingKeepsWorkers(models, s, step);
    hide CountsOk, WorkersOk, ClaimOk, ClaimCount, IsLast;
    ChildrenKept(models, s, s1);
    forall d: nat | d < |s1.log| ensures ClaimOk(models, s1, d) { ClosingKeepsClaim(models, s, step, d); }
  }

  lemma ClosingKeepsCounts(models: seq<MarketModel>, s: State, step: Step)
    requires Inv(models, s) && (step.Finish? || step.Fail?) && Enabled(models, s, step)
    ensures LogOk(Apply(models, s, step)) && CountsOk(Apply(models, s, step))
    ensures s.jobs[s.log[s.workers[step.w].claim].job].attempts >= 1
  {
    hide ChildrenOk, ClaimOk, ClaimCount, IsLast;
    var s1 := Apply(models, s, step);
    var c := s.workers[step.w].claim;
    assert WorkerOk(s, step.w) && CountOk(s, s.log[c].job);
    CloseKeepsCounts(s.log, c);
    forall j: nat | j < |s1.jobs| ensures CountOk(s1, j) { assert CountOk(s, j); }
  }

  lemma ClosingKeepsWorkers(models: seq<MarketModel>, s: State, step: Step)
    requires Inv(models, s) && (step.Finish? || step.Fail?) && Enabled(models, s, step)
    requires LogOk(Apply(models, s, step))
    ensures WorkersOk(Apply(models, s, step))
  {
    hide ChildrenOk, ClaimOk, CountsOk;
    forall v | v in s.workers && v != step.w ensures Target(s, v) != Target(s, step.w) {}
    WorkersKept(s, Apply(models, s, step));
  }

  lemma LastKept(log: seq<Claim>, log1: seq<Claim>, d: nat)
    requires |log| == |log1| && d < |log| && forall c: nat | c < |log| :: log1[c].job == log[c].job
    ensures IsLast(log1, d) <==> IsLast(log, d)
  {}

  lemma ClosingKeepsClaim(models: seq<MarketModel>, s: State, step: Step, d: nat)
    requires Inv(models, s) && (step.Finish? || step.Fail?) && Enabled(models, s, step)
    requires LogOk(Apply(models, s, step)) && d < |s.log|
    ensures ClaimOk(models, Apply(models, s, step), d)
  {
    var s1 := Apply(models, s, step);
    var c := s.workers[step.w].claim;
    assert WorkerOk(s, step.w) && ClaimOk(models, s, d);
    LastKept(s.log, s1.log, d);
    if s.log[d].job == s.log[c].job && IsLast(s.log, d) { assert d == c; }
  }

  lemma SpawnKeepsInv(models: seq<MarketModel>, s: State, step: Step)
    requires Inv(models, s) && step.Spawn? && Enabled(models, s, step)
    ensures Inv(models, Apply(models, s, step))
  {
    hide ClaimOk, ChildrenOk, ClaimCount, IsLast;
    var s1 := Apply(models, s, step);
    assert WorkerOk(s, step.w);
    assert LogOk(s1);
    SpawnKeepsCounts(models, s, step);
    WorkersKept(s, s1);
    SpawnKeepsChildren(models, s, step);
    forall d: nat | d < |s1.log| ensures ClaimOk(models, s1, d) { SpawnKeepsClaim(models, s, step, d); }
  }

  lemma SpawnKeepsClaim(models: seq<MarketModel>, s: State, step: Step, d: nat)
    requires Inv(models, s) && step.Spawn? && Enabled(models, s, step)
    requires LogOk(Apply(models, s, step)) && d < |s.log|
    ensures ClaimOk(models, Apply(models, s, step), d)
  {
    hide Inv;
    HolderAndClaim(models, s, step.w, d);
    LastKept(s.log, Apply(models, s, step).log, d);
    if d == s.workers[step.w].claim { SpawnKeepsSteady(models, s.log[d], |s.jobs|, step); }
  }

  lemma HolderAndClaim(models: seq<MarketModel>, s: State, w: nat, d: nat)
    requires Inv(models, s) && w in s.workers && d < |s.log|
    ensures LogOk(s) && WorkerOk(s, w) && ClaimOk(models, s, d)
  {
    hide ClaimOk, WorkerOk, CountsOk, ChildrenOk;
  }

  /** Later rows are due later, as long as the clock has not stepped back. */
  lemma SpawnKeepsSteady(models: seq<MarketModel>, c: Claim, row: nat, step: Step)
    requires step.Spawn? && SpawnFits(models, c, step.payload)
    requires c.steady ==> Increasing(c.children)
    requires c.children != [] ==>
               c.children[|c.children| - 1].due == c.asOf + SEED_SPACING * (|c.children| - 1)
    ensures var c1 := AfterSpawn(models, c, row, step.now, step.reply);
            && (c1.steady ==> Increasing(c1.children))
            && |c1.children| <= SpawnLimit(models, c1.kind)
            && (c1.children != [] ==>
                  c1.children[|c1.children| - 1].due == c1.asOf + SEED_SPACING * (|c1.children| - 1))
  {}

  lemma SpawnKeepsCounts(models: seq<MarketModel>, s: State, step: Step)
    requires Inv(models, s) && step.Spawn? && Enabled(models, s, step)
    ensures CountsOk(Apply(models, s, step))
  {
    var s1 := Apply(models, s, step);
    var c := s.workers[step.w].claim;
    ClaimCountFresh(s.log, |s.jobs|);
    forall id: nat | id < |s1.jobs| ensures CountOk(s1, id) {
      ClaimCountUpdate(s.log, c, s1.log[c], id);
      if id < |s.jobs| { assert CountOk(s, id); }
    }
  }

  lemma SpawnKeepsChildren(models: seq<MarketModel>, s: State, step: Step)
    requires Inv(models, s) && step.Spawn? && Enabled(models, s, step) && LogOk(Apply(models, s, step))
    ensures ChildrenOk(models, Apply(models, s, step))
  {
    hide ClaimOk, CountsOk, WorkersOk;
    var s1 := Apply(models, s, step);
    var c := s.workers[step.w].claim;
    forall d: nat, k: nat | d < |s1.log| && k < |s1.log[d].children| ensures ChildOk(models, s1, d, k) {
      if d != c || k < |s.log[c].children| { assert ChildOk(models, s, d, k); }
    }
    forall r: nat | r < |s1.jobs| ensures RowOk(s1, r) {
      if r < |s.jobs| { assert RowOk(s, r); }
    }
  }

  /** Slots have no name that matters: the claim is held as before, only elsewhere. */
  lemma GiveUpKeepsInv(models: seq<MarketModel>, s: State, step: Step)
    requires Inv(models, s) && step.GiveUp? && Enabled(models, s, step)
    ensures Inv(models, Apply(models, s, step))
  {
    hide ClaimOk, ChildOk, RowOk, ClaimCount;
    var s1 := Apply(models, s, step);
    var c := s.workers[step.w].claim;
    assert WorkerOk(s, step.w);
    assert LogOk(s1);
    forall id: nat | id < |s1.jobs| ensures CountOk(s1, id) {
      ClaimCountUpdate(s.log, c, s1.log[c], id);
      assert CountOk(s, id);
    }
    GiveUpKeepsWorkers(models, s, step);
    ChildrenKept(models, s, s1);
    forall d: nat | d < |s1.log| ensures ClaimOk(models, s1, d) { GiveUpKeepsClaim(models, s, step, d); }
  }

  lemma GiveUpKeepsWorkers(models: seq<MarketModel>, s: State, step: Step)
    requires Inv(models, s) && step.GiveUp? && Enabled(models, s, step) && LogOk(Apply(models, s, step))
    ensures WorkersOk(Apply(models, s, step))
  {
    hide ClaimOk, ChildrenOk, CountsOk;
    var s1 := Apply(models, s, step);
    assert WorkerOk(s, step.w);
    forall v | v in s1.workers
      ensures var u := if v == step.slot then step.w else v;
              u in s.workers && WorkerOk(s1, v) && Target(s1, v) == Target(s, u)
    {
      if v != step.slot { assert WorkerOk(s, v); }
    }
  }

  lemma GiveUpKeepsClaim(models: seq<MarketModel>, s: State, step: Step, d: nat)
    requires Inv(models, s) && step.GiveUp? && Enabled(models, s, step)
    requires LogOk(Apply(models, s, step)) && d < |s.log|
    ensures ClaimOk(models, Apply(models, s, step), d)
  {
    hide Inv;
    HolderAndClaim(models, s, step.w, d);
    LastKept(s.log, Apply(models, s, step).log, d);
  }

  lemma StepKeepsInv(models: seq<MarketModel>, s: State, step: Step)
    requires Inv(models, s) && Enabled(models, s, step)
    ensures Inv(models, Apply(models, s, step))
  {
    match step
    case Enqueue(_, _, _) => EnqueueKeepsInv(models, s, step);
    case Select(_, _, _) => SelectKeepsInv(models, s, step);
    case Commit(_, _) => CommitKeepsInv(models, s, step);
    case Rollback(_) => ReleaseKeepsInv(models, s, step);
    case Spawn(_, _, _, _) => SpawnKeepsInv(models, s, step);
    case Finish(_, _) => ClosingKeepsInv(models, s, step);
    case Fail(_, _, _) => ClosingKeepsInv(models, s, step);
    case GiveUp(_, _, _) => GiveUpKeepsInv(models, s, step);
    case Crash(_) => ReleaseKeepsInv(models, s, step);
  }

  lemma {:induction false} RunKeepsInv(models: seq<MarketModel>, s: State, steps: seq<Step>, s1: State)
    requires Inv(models, s) && Runs(models, s, steps, s1)
    ensures Inv(models, s1)
    decreases |steps|
  {
    if steps != [] {
      StepKeepsInv(models, s, steps[0]);
      RunKeepsInv(models, Apply(models, s, steps[0]), steps[1..], s1);
    }
  }

  lemma ReachableInv(models: seq<MarketModel>, s: State)
    requires Reachable(models, s)
    ensures Inv(models, s)
  {
    var steps :| Runs(models, Empty(), steps, s);
    RunKeepsInv(models, Empty(), steps, s);
  }
}
