/** One worker among many.  Whatever the other sessions do to the table, a worker keeps the row it has locked or is
    processing, and stays able to take its own next step.  So its program may be interrupted between any two of its
    statements. */
module Interference {
  import opened JobQueue
  import opened JobQueueProofs
  import opened JobQueueTheorems

  /** A step of another session: another worker, or a row from outside.  Worker w's name is not used as a slot. */
  predicate Foreign(step: Step, w: nat) {
    step.Enqueue? || (step.w != w && (step.GiveUp? ==> step.slot != w))
  }

  /** The steps worker w took itself. */
  function Own(steps: seq<Step>, w: nat): seq<Step> {
    if steps == [] then []
    else (if Foreign(steps[0], w) then [] else [steps[0]]) + Own(steps[1..], w)
  }

  /** Worker w is where it was, and so are its claim and the row the claim is for. */
  ghost predicate Unmoved(s: State, s1: State, w: nat) {
    && (w in s.workers <==> w in s1.workers)
    && (w in s.workers ==>
          && s1.workers[w] == s.workers[w]
          && match s.workers[w]
             case Selected(id) => id < |s.jobs| && id < |s1.jobs| && s1.jobs[id] == s.jobs[id]
             case Holding(c) =>
               && Holds(s, w) && Holds(s1, w) && s1.log[c] == s.log[c]
               && s1.jobs[s.log[c].job] == s.jobs[s.log[c].job])
  }

  lemma ForeignStepLeavesUnmoved(models: seq<MarketModel>, s: State, step: Step, w: nat)
    requires Inv(models, s) && Enabled(models, s, step) && Foreign(step, w)
    ensures Unmoved(s, Apply(models, s, step), w)
  {
    hide CountsOk, ChildrenOk, ClaimOk, IsLast;
    if w in s.workers {
      assert WorkerOk(s, w);
      if !step.Enqueue? && step.w in s.workers {
        assert WorkerOk(s, step.w);
        assert Target(s, step.w) != Target(s, w);
      }
    }
  }

  lemma {:induction false} ForeignRunLeavesUnmoved(models: seq<MarketModel>, s: State, steps: seq<Step>, s1: State,
                                                   w: nat)
    requires Inv(models, s) && Runs(models, s, steps, s1) && forall i | 0 <= i < |steps| :: Foreign(steps[i], w)
    ensures Inv(models, s1) && Unmoved(s, s1, w) && Own(steps, w) == []
    decreases |steps|
  {
    hide Inv, Apply, Enabled;
    if steps == [] {
      NoStepsLeaveUnmoved(models, s, w);
    } else {
      var mid := Apply(models, s, steps[0]);
      StepKeepsInv(models, s, steps[0]);
      ForeignStepLeavesUnmoved(models, s, steps[0], w);
      ForeignRunLeavesUnmoved(models, mid, steps[1..], s1, w);
    }
  }

  lemma NoStepsLeaveUnmoved(models: seq<MarketModel>, s: State, w: nat)
    requires Inv(models, s)
    ensures Unmoved(s, s, w)
  {
    if w in s.workers { assert WorkerOk(s, w); }
  }

  /** Non-interference: after any run of other sessions, whatever worker w could do next it can still do, with the
      same effect on its own claim.  Only a fresh claim query may find another row, and a slot may have been taken. */
  lemma OwnStepStaysEnabled(models: seq<MarketModel>, s: State, others: seq<Step>, s1: State, own: Step)
    requires Inv(models, s) && Enabled(models, s, own) && !own.Enqueue? && !own.Select?
    requires Runs(models, s, others, s1) && forall i | 0 <= i < |others| :: Foreign(others[i], own.w)
    ensures Enabled(models, s1, own) || (own.GiveUp? && own.slot in s1.workers)
    ensures own.Spawn? || own.Finish? || own.Fail? ==>
              s1.workers[own.w] == s.workers[own.w] && s1.log[s1.workers[own.w].claim] == s.log[s.workers[own.w].claim]
  {
    hide Inv, Runs;
    ForeignRunLeavesUnmoved(models, s, others, s1, own.w);
  }

  /** A closing update that lands late, after its worker gave up waiting and any others -- that worker among them --
      went on: it still finds its own row running and held by nobody else, and changes that row only. */
  lemma LateUpdateHitsOwnRow(models: seq<MarketModel>, s: State, giveUp: Step, others: seq<Step>, s1: State,
                             retryAt: int)
    requires Inv(models, s) && giveUp.GiveUp? && Enabled(models, s, giveUp)
    requires Runs(models, Apply(models, s, giveUp), others, s1)
    requires forall i | 0 <= i < |others| :: Foreign(others[i], giveUp.slot)
    ensures var id := s.log[s.workers[giveUp.w].claim].job;
            var landing := if giveUp.failing then Fail(giveUp.slot, retryAt, true) else Finish(giveUp.slot, true);
            && id < |s1.jobs| && s1.jobs[id] == s.jobs[id] && s.jobs[id].status == Running
            && (forall v | v in s1.workers && v != giveUp.slot ::
                  s1.workers[v] != Selected(id)
                  && forall c: nat | s1.workers[v] == Holding(c) :: c < |s1.log| && s1.log[c].job != id)
            && Enabled(models, s1, landing)
            && Apply(models, s1, landing).jobs
               == s1.jobs[id := if giveUp.failing then GivenBack(s1.jobs[id], retryAt) else Completed(s1.jobs[id])]
  {
    hide CountsOk, ChildrenOk, ClaimOk, Runs;
    var mid := Apply(models, s, giveUp);
    var id := s.log[s.workers[giveUp.w].claim].job;
    assert WorkerOk(s, giveUp.w);
    GiveUpKeepsInv(models, s, giveUp);
    ForeignRunLeavesUnmoved(models, mid, others, s1, giveUp.slot);
    assert WorkerOk(s1, giveUp.slot) && Target(s1, giveUp.slot) == id;
    forall v | v in s1.workers && v != giveUp.slot ensures WorkerOk(s1, v) && Target(s1, v) != id {}
  }

  // ---------------------------------------------------------------- letting others work

  /** Of the steps others attempt, those that are theirs and can happen, in order. */
  function Played(models: seq<MarketModel>, s: State, w: nat, others: seq<Step>): seq<Step>
    decreases |others|
  {
    if others == [] then []
    else if Foreign(others[0], w) && Enabled(models, s, others[0])
    then [others[0]] + Played(models, Apply(models, s, others[0]), w, others[1..])
    else Played(models, s, w, others[1..])
  }

  /** Every run of other sessions is one of those. */
  lemma {:induction false} EveryForeignRunIsPlayed(models: seq<MarketModel>, s: State, others: seq<Step>, s1: State,
                                                   w: nat)
    requires Runs(models, s, others, s1) && forall i | 0 <= i < |others| :: Foreign(others[i], w)
    ensures Played(models, s, w, others) == others
    decreases |others|
  {
    if others != [] { EveryForeignRunIsPlayed(models, Apply(models, s, others[0]), others[1..], s1, w); }
  }

  /** The first i attempts are dealt with: the steps taken lead from s to now, and what is still to be played is what
      the other attempts give. */
  ghost predicate Playing(models: seq<MarketModel>, s: State, w: nat, others: seq<Step>, i: nat, steps: seq<Step>,
                          now: State) {
    && i <= |others| && Inv(models, now) && Runs(models, s, steps, now)
    && (forall k | 0 <= k < |steps| :: Foreign(steps[k], w))
    && Played(models, s, w, others) == steps + Played(models, now, w, others[i..])
  }

  lemma PlayGoesOn(models: seq<MarketModel>, s: State, w: nat, others: seq<Step>, i: nat, steps: seq<Step>, now: State)
    requires Playing(models, s, w, others, i, steps, now) && i < |others|
    ensures var step := others[i];
            if Foreign(step, w) && Enabled(models, now, step)
            then Playing(models, s, w, others, i + 1, steps + [step], Apply(models, now, step))
            else Playing(models, s, w, others, i + 1, steps, now)
  {
    hide Inv, Enabled, Apply, Foreign, Runs;
    var step := others[i];
    assert others[i..][0] == step && others[i..][1..] == others[i + 1..];
    if Foreign(step, w) && Enabled(models, now, step) {
      var next := Apply(models, now, step);
      StepKeepsInv(models, now, step);
      RunsSnoc(models, s, steps, now, step);
      assert steps + ([step] + Played(models, next, w, others[i + 1..]))
             == steps + [step] + Played(models, next, w, others[i + 1..]);
    }
  }

  lemma PlayStarts(models: seq<MarketModel>, s: State, w: nat, others: seq<Step>)
    requires Inv(models, s)
    ensures Playing(models, s, w, others, 0, [], s)
  {
    hide Inv;
    assert others[0..] == others;
  }

  lemma PlayEnds(models: seq<MarketModel>, s: State, w: nat, others: seq<Step>, steps: seq<Step>, now: State)
    requires Inv(models, s) && Playing(models, s, w, others, |others|, steps, now)
    ensures steps == Played(models, s, w, others)
    ensures Inv(models, now) && Runs(models, s, steps, now) && Own(steps, w) == [] && Unmoved(s, now, w)
  {
    hide Inv, Runs, Unmoved;
    assert others[|others|..] == [] && steps + [] == steps;
    ForeignRunLeavesUnmoved(models, s, steps, now, w);
  }

  // ---------------------------------------------------------------- runs in sequence

  lemma {:induction false} RunsAppend(models: seq<MarketModel>, s: State, a: seq<Step>, s1: State, b: seq<Step>,
                                      s2: State)
    requires Runs(models, s, a, s1) && Runs(models, s1, b, s2)
    ensures Runs(models, s, a + b, s2)
    decreases |a|
  {
    hide Apply, Enabled;
    if a == [] {
      assert a + b == b;
    } else {
      RunsAppend(models, Apply(models, s, a[0]), a[1..], s1, b, s2);
      assert (a + b)[1..] == a[1..] + b && (a + b)[0] == a[0];
    }
  }

  lemma RunsSnoc(models: seq<MarketModel>, s: State, a: seq<Step>, s1: State, step: Step)
    requires Runs(models, s, a, s1) && Enabled(models, s1, step)
    ensures Runs(models, s, a + [step], Apply(models, s1, step))
  {
    RunsAppend(models, s, a, s1, [step], Apply(models, s1, step));
  }

  lemma {:induction false} OwnAppend(a: seq<Step>, b: seq<Step>, w: nat)
    ensures Own(a + b, w) == Own(a, w) + Own(b, w)
  {
    hide Foreign;
    if a == [] {
      assert a + b == b;
    } else {
      OwnAppend(a[1..], b, w);
      assert (a + b)[1..] == a[1..] + b && (a + b)[0] == a[0];
      var first := if Foreign(a[0], w) then [] else [a[0]];
      assert first + (Own(a[1..], w) + Own(b, w)) == first + Own(a[1..], w) + Own(b, w);
    }
  }

  lemma OwnStep(step: Step, w: nat)
    ensures Own([step], w) == if Foreign(step, w) then [] else [step]
  {
    assert [step][1..] == [];
  }

  /** What w committed itself is part of what was committed. */
  lemma {:induction false} OwnCommitsCount(steps: seq<Step>, w: nat)
    ensures Commits(Own(steps, w)) <= Commits(steps)
  {
    if steps != [] {
      OwnCommitsCount(steps[1..], w);
      if !Foreign(steps[0], w) { assert Own(steps, w)[1..] == Own(steps[1..], w); }
      else { assert Own(steps, w) == Own(steps[1..], w); }
    }
  }

  lemma {:induction false} CommitsAppend(a: seq<Step>, b: seq<Step>)
    ensures Commits(a + b) == Commits(a) + Commits(b)
  {
    if a == [] {
      assert a + b == b;
    } else {
      CommitsAppend(a[1..], b);
      assert (a + b)[1..] == a[1..] + b;
    }
  }
}
