/** One thread among many in the bay server: what other threads' sections leave alone, and runs seen from one thread. */
module BayThreads {
  import opened BayScan

  /** The sections thread t ran itself. */
  function Own(steps: seq<Step>, t: nat): seq<Step> {
    if steps == [] then [] else (if steps[0].t == t then [steps[0]] else []) + Own(steps[1..], t)
  }

  /** A job after some cancel notes. */
  function CancelNotes(job: Job, stamps: seq<string>): Job {
    if stamps == [] then job
    else Noted(CancelNotes(job, stamps[..|stamps| - 1]), stamps[|stamps| - 1], "Cancel requested")
  }

  /** Nothing but cancel notes came. */
  ghost predicate OnlyCancels(job: Job, job1: Job) {
    exists stamps :: job1 == CancelNotes(job, stamps)
  }

  /** While others run, thread t stays where it is.  If it is a runner, no scan is accepted, and its job gets nothing
      but cancel notes. */
  ghost predicate OthersCame(s: State, s1: State, t: nat) {
    && (t in s.threads <==> t in s1.threads) && |s.jobs| <= |s1.jobs|
    && (t in s.threads ==> s1.threads[t] == s.threads[t])
    && (t in s.threads && s.threads[t].Runner? ==>
          && s1.current == s.current && |s1.jobs| == |s.jobs|
          && s.threads[t].job < |s.jobs| && OnlyCancels(s.jobs[s.threads[t].job], s1.jobs[s.threads[t].job]))
  }

  lemma NoCancels(job: Job)
    ensures OnlyCancels(job, job)
  {
    assert job == CancelNotes(job, []);
  }

  lemma OneMoreCancel(job: Job, job1: Job, stamp: string)
    requires OnlyCancels(job, job1)
    ensures OnlyCancels(job, Noted(job1, stamp, "Cancel requested"))
  {
    hide Noted;
    var stamps :| job1 == CancelNotes(job, stamps);
    assert (stamps + [stamp])[..|stamps|] == stamps;
    assert Noted(job1, stamp, "Cancel requested") == CancelNotes(job, stamps + [stamp]);
  }

  lemma NobodyCame(s: State, t: nat)
    requires Inv(s)
    ensures OthersCame(s, s, t)
  {
    hide JobOk;
    if t in s.threads {
      assert ThreadOk(s, t);
      if s.threads[t].Runner? { NoCancels(s.jobs[s.threads[t].job]); }
    }
  }

  /** One more section of another thread. */
  lemma OthersGoOn(s: State, s1: State, step: Step, t: nat)
    requires Inv(s1) && OthersCame(s, s1, t) && Enabled(s1, step) && step.t != t
    ensures OthersCame(s, Apply(s1, step), t)
  {
    hide JobOk, Noted, Finished, Started, OnlyCancels;
    if t in s1.threads && s1.threads[t].Runner? {
      assert ThreadOk(s1, t);
      var j := s1.threads[t].job;
      if step.t in s1.threads { assert ThreadOk(s1, step.t); }
      if step.StopAppends? { OneMoreCancel(s.jobs[j], s1.jobs[j], step.stamp); }
    }
  }

  // ---------------------------------------------------------------- runs of one thread among others

  /** A run from s to s1 in which thread t ran exactly the sections `own`, and others any of theirs. */
  ghost predicate Interleaved(s: State, t: nat, own: seq<Step>, steps: seq<Step>, s1: State) {
    Inv(s1) && Runs(s, steps, s1) && Own(steps, t) == own
  }

  lemma NothingHappened(s: State, t: nat)
    requires Inv(s)
    ensures Interleaved(s, t, [], [], s)
  {}

  lemma InterleavedInv(s: State, t: nat, own: seq<Step>, steps: seq<Step>, s1: State)
    requires Interleaved(s, t, own, steps, s1)
    ensures Inv(s1)
  {}

  lemma {:induction false} RunsAppend(s: State, a: seq<Step>, s1: State, b: seq<Step>, s2: State)
    requires Runs(s, a, s1) && Runs(s1, b, s2)
    ensures Runs(s, a + b, s2)
    decreases |a|
  {
    hide Enabled, Apply;
    if a == [] {
      assert a + b == b;
    } else {
      RunsAppend(Apply(s, a[0]), a[1..], s1, b, s2);
      assert (a + b)[1..] == a[1..] + b && (a + b)[0] == a[0];
    }
  }

  lemma {:induction false} OwnAppend(a: seq<Step>, b: seq<Step>, t: nat)
    ensures Own(a + b, t) == Own(a, t) + Own(b, t)
  {
    if a == [] {
      assert a + b == b;
    } else {
      OwnAppend(a[1..], b, t);
      assert (a + b)[1..] == a[1..] + b && (a + b)[0] == a[0];
      var first := if a[0].t == t then [a[0]] else [];
      assert first + (Own(a[1..], t) + Own(b, t)) == first + Own(a[1..], t) + Own(b, t);
    }
  }

  lemma InSequence(s: State, t: nat, own1: seq<Step>, steps1: seq<Step>, s1: State, own2: seq<Step>, steps2: seq<Step>,
                   s2: State)
    requires Interleaved(s, t, own1, steps1, s1) && Interleaved(s1, t, own2, steps2, s2)
    ensures Interleaved(s, t, own1 + own2, steps1 + steps2, s2)
  {
    hide Inv, Runs, Own;
    RunsAppend(s, steps1, s1, steps2, s2);
    OwnAppend(steps1, steps2, t);
  }

  /** One section more, of thread t or of another. */
  lemma ThenStep(s: State, t: nat, own: seq<Step>, steps: seq<Step>, s1: State, step: Step)
    requires Interleaved(s, t, own, steps, s1) && Enabled(s1, step)
    ensures Interleaved(s, t, if step.t == t then own + [step] else own, steps + [step], Apply(s1, step))
  {
    hide Inv, Apply, Enabled;
    StepKeepsInv(s1, step);
    assert [step][1..] == [];
    assert Runs(s1, [step], Apply(s1, step));
    RunsAppend(s, steps, s1, [step], Apply(s1, step));
    OwnAppend(steps, [step], t);
    assert Own([step], t) == if step.t == t then [step] else [];
    assert own + [] == own;
  }

  // ---------------------------------------------------------------- letting others work

  /** Of the sections others attempt, those that are theirs and can run, in order. */
  function Played(s: State, t: nat, others: seq<Step>): seq<Step>
    decreases |others|
  {
    if others == [] then []
    else if others[0].t != t && Enabled(s, others[0]) then [others[0]] + Played(Apply(s, others[0]), t, others[1..])
    else Played(s, t, others[1..])
  }

  /** Every run of other threads is one of those. */
  lemma {:induction false} EveryForeignRunIsPlayed(s: State, others: seq<Step>, s1: State, t: nat)
    requires Runs(s, others, s1) && forall i | 0 <= i < |others| :: others[i].t != t
    ensures Played(s, t, others) == others
    decreases |others|
  {
    if others != [] { EveryForeignRunIsPlayed(Apply(s, others[0]), others[1..], s1, t); }
  }

  /** The first i attempts are dealt with. */
  ghost predicate Playing(s: State, t: nat, others: seq<Step>, i: nat, steps: seq<Step>, now: State) {
    && i <= |others| && Interleaved(s, t, [], steps, now) && OthersCame(s, now, t)
    && Played(s, t, others) == steps + Played(now, t, others[i..])
  }

  lemma PlayStarts(s: State, t: nat, others: seq<Step>)
    requires Inv(s)
    ensures Playing(s, t, others, 0, [], s)
  {
    hide Inv, OthersCame;
    NobodyCame(s, t);
    assert others[0..] == others;
  }

  lemma PlayGoesOn(s: State, t: nat, others: seq<Step>, i: nat, steps: seq<Step>, now: State)
    requires Playing(s, t, others, i, steps, now) && i < |others|
    ensures Inv(now)
    ensures var step := others[i];
            if step.t != t && Enabled(now, step) then Playing(s, t, others, i + 1, steps + [step], Apply(now, step))
            else Playing(s, t, others, i + 1, steps, now)
  {
    hide Inv, Enabled, Apply, Runs, Own, OthersCame;
    var step := others[i];
    assert others[i..][0] == step && others[i..][1..] == others[i + 1..];
    if step.t != t && Enabled(now, step) {
      ThenStep(s, t, [], steps, now, step);
      OthersGoOn(s, now, step, t);
      var next := Apply(now, step);
      assert steps + ([step] + Played(next, t, others[i + 1..])) == steps + [step] + Played(next, t, others[i + 1..]);
    }
  }

  lemma PlayEnds(s: State, t: nat, others: seq<Step>, steps: seq<Step>, now: State)
    requires Playing(s, t, others, |others|, steps, now)
    ensures Interleaved(s, t, [], steps, now) && OthersCame(s, now, t) && steps == Played(s, t, others)
  {
    hide Inv, OthersCame, Interleaved;
    assert Played(now, t, others[|others|..]) == [] && steps + [] == steps;
  }
}
