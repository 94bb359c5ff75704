/** The bay UI's scan-job protocol: handlers, cancel and quit calls and one runner per scan, interleaved at their
    mutex sections.  A job is its position in the order of acceptance; b.job is `current`. */
module BayScan {
  import opened Common

  const LOG_CAP: nat := 50

  /** Every error that reaches finishJob has a text: adapter and context errors are prefixed or fixed strings. */
  type Message = m: string | |m| > 0 witness "no response"

  datatype Outcome = Ok(result: string) | Failed(message: Message)

  /** The fields of scanJob; history (every line ever noted), outcome and finishes record what happened to it. */
  datatype Job = Job(
    busy: bool, done: bool, phase: string, log: seq<string>, err: string, result: Option<string>,
    history: seq<string>, outcome: Option<Outcome>, finishes: nat)

  function Line(stamp: string, phase: string): string {
    stamp + "  " + phase
  }

  function Started(stamp: string): Job {
    Job(true, false, "Starting", [Line(stamp, "Starting")], "", None, [Line(stamp, "Starting")], None, 0)
  }

  function Noted(job: Job, stamp: string, phase: string): Job {
    var log := job.log + [Line(stamp, phase)];
    job.(phase := phase, log := if |log| > LOG_CAP then log[|log| - LOG_CAP..] else log,
         history := job.history + [Line(stamp, phase)])
  }

  /** finishJob: busy falls and done rises in one section; err is left alone on success, result on failure. */
  function Finished(job: Job, outcome: Outcome): Job {
    var job1 := job.(busy := false, done := true, outcome := Some(outcome), finishes := job.finishes + 1);
    match outcome
    case Failed(message) => job1.(err := message, phase := "Failed")
    case Ok(result) => job1.(phase := "Done", result := Some(result))
  }

  // ---------------------------------------------------------------- threads and steps

  /** A note is two sections: read b.job, then append to what was read. */
  datatype Thread =
    | Runner(job: nat, noting: Option<(nat, string)>)
    | StopRead(job: nat)                // stopScan has read b.job
    | StopNoting(job: nat)              // it found the job busy and cancelled its context
    | StopNoteRead(job: nat, target: nat)

  datatype State = State(jobs: seq<Job>, current: Option<nat>, threads: map<nat, Thread>)

  datatype Step =
    | PostScan(t: nat, stamp: string)
    | RunnerReads(t: nat, phase: string)
    | RunnerAppends(t: nat, stamp: string)
    | RunnerFinishes(t: nat, outcome: Outcome)
    | StopReads(t: nat)
    | StopChecks(t: nat)
    | StopReadsAgain(t: nat)
    | StopAppends(t: nat, stamp: string)

  predicate Enabled(s: State, step: Step) {
    match step
    case PostScan(t, _) => t !in s.threads && (s.current.Some? ==> s.current.value < |s.jobs|)
    case RunnerReads(t, _) => t in s.threads && s.threads[t].Runner? && s.threads[t].noting.None? && s.current.Some?
    case RunnerAppends(t, _) => t in s.threads && s.threads[t].Runner? && s.threads[t].noting.Some?
                                && s.threads[t].noting.value.0 < |s.jobs|
    case RunnerFinishes(t, _) => t in s.threads && s.threads[t].Runner? && s.threads[t].noting.None?
                                 && s.threads[t].job < |s.jobs|
    case StopReads(t) => t !in s.threads && s.current.Some?
    case StopChecks(t) => t in s.threads && s.threads[t].StopRead? && s.threads[t].job < |s.jobs|
    case StopReadsAgain(t) => t in s.threads && s.threads[t].StopNoting? && s.current.Some?
    case StopAppends(t, _) => t in s.threads && s.threads[t].StopNoteRead? && s.threads[t].target < |s.jobs|
  }

  predicate BusyNow(s: State)
    requires s.current.Some? ==> s.current.value < |s.jobs|
  {
    s.current.Some? && s.jobs[s.current.value].busy
  }

  function Apply(s: State, step: Step): State
    requires Enabled(s, step)
  {
    match step
    case PostScan(t, stamp) =>
      if BusyNow(s) then s  // 409
      else State(s.jobs + [Started(stamp)], Some(|s.jobs|), s.threads[t := Runner(|s.jobs|, None)])
    case RunnerReads(t, phase) =>
      s.(threads := s.threads[t := Runner(s.threads[t].job, Some((s.current.value, phase)))])
    case RunnerAppends(t, stamp) =>
      var (target, phase) := s.threads[t].noting.value;
      s.(jobs := s.jobs[target := Noted(s.jobs[target], stamp, phase)],
         threads := s.threads[t := Runner(s.threads[t].job, None)])
    case RunnerFinishes(t, outcome) =>
      var j := s.threads[t].job;
      s.(jobs := s.jobs[j := Finished(s.jobs[j], outcome)], threads := s.threads - {t})
    case StopReads(t) => s.(threads := s.threads[t := StopRead(s.current.value)])
    case StopChecks(t) =>
      var j := s.threads[t].job;
      s.(threads := if s.jobs[j].busy then s.threads[t := StopNoting(j)] else s.threads - {t})
    case StopReadsAgain(t) => s.(threads := s.threads[t := StopNoteRead(s.threads[t].job, s.current.value)])
    case StopAppends(t, stamp) =>
      var target := s.threads[t].target;
      s.(jobs := s.jobs[target := Noted(s.jobs[target], stamp, "Cancel requested")], threads := s.threads - {t})
  }

  predicate Runs(s: State, steps: seq<Step>, s1: State)
    decreases |steps|
  {
    if steps == [] then s == s1 else Enabled(s, steps[0]) && Runs(Apply(s, steps[0]), steps[1..], s1)
  }

  function Fresh(): State {
    State([], None, map[])
  }

  ghost predicate Reachable(s: State) {
    exists steps :: Runs(Fresh(), steps, s)
  }

  // ---------------------------------------------------------------- invariants

  /** The last min(50, n) entries. */
  function Tail(history: seq<string>): seq<string> {
    if |history| <= LOG_CAP then history else history[|history| - LOG_CAP..]
  }

  ghost predicate JobOk(job: Job) {
    && job.busy == !job.done
    && job.log == Tail(job.history)
    && job.finishes == (if job.done then 1 else 0)
    && (job.outcome.Some? <==> job.done)
    && job.err == (if job.done && job.outcome.value.Failed? then job.outcome.value.message else "")
    && job.result == (if job.done && job.outcome.value.Ok? then Some(job.outcome.value.result) else None)
  }

  ghost predicate ThreadOk(s: State, t: nat)
    requires t in s.threads
  {
    match s.threads[t]
    case Runner(j, noting) => j < |s.jobs| && s.jobs[j].busy && (noting.Some? ==> noting.value.0 == j)
    case StopRead(j) => j < |s.jobs|
    case StopNoting(j) => j < |s.jobs|
    case StopNoteRead(j, target) => j <= target < |s.jobs|
  }

  ghost predicate RunnerOn(s: State, j: nat) {
    exists t: nat :: t in s.threads && s.threads[t].Runner? && s.threads[t].job == j
  }

  /** b.job is the newest job; only it can be busy; a busy job has a runner and every runner is on a busy job. */
  ghost predicate Inv(s: State) {
    && (if s.jobs == [] then s.current == None else s.current == Some(|s.jobs| - 1))
    && (forall j: nat | j < |s.jobs| :: JobOk(s.jobs[j]))
    && (forall j: nat | j < |s.jobs| && s.jobs[j].busy :: j == |s.jobs| - 1 && RunnerOn(s, j))
    && (forall t | t in s.threads :: ThreadOk(s, t))
    && (forall t, u | t in s.threads && u in s.threads && s.threads[t].Runner? && s.threads[u].Runner? :: t == u)
  }

  lemma NotedKeepsJobOk(job: Job, stamp: string, phase: string)
    requires JobOk(job)
    ensures JobOk(Noted(job, stamp, phase))
  {
    var job1 := Noted(job, stamp, phase);
    if |job.history| > LOG_CAP {
      assert job1.log == job1.history[|job1.history| - LOG_CAP..];
    }
  }

  lemma FinishedKeepsJobOk(job: Job, outcome: Outcome)
    requires JobOk(job) && job.busy
    ensures JobOk(Finished(job, outcome))
  {}

  lemma StillRunning(s: State, s1: State, j: nat, t: nat)
    requires RunnerOn(s, j) && (t in s.threads ==> !s.threads[t].Runner?)
    requires forall u | u in s.threads && u != t :: u in s1.threads && s1.threads[u] == s.threads[u]
    ensures RunnerOn(s1, j)
  {
    var u: nat :| u in s.threads && s.threads[u].Runner? && s.threads[u].job == j;
    assert u in s1.threads;
  }

  lemma PostKeepsInv(s: State, step: Step)
    requires Inv(s) && Enabled(s, step) && step.PostScan?
    ensures Inv(Apply(s, step))
  {
    hide JobOk, Noted, Started, RunnerOn;
    var s1 := Apply(s, step);
    if !BusyNow(s) {
      StartedIsOk(step.stamp);
      forall t | t in s.threads ensures ThreadOk(s1, t) && !s.threads[t].Runner? { assert ThreadOk(s, t); }
      assert RunnerOn(s1, |s.jobs|) by { RunsOn(s1, step.t); }
    }
  }

  lemma StartedIsOk(stamp: string)
    ensures JobOk(Started(stamp)) && Started(stamp).busy
  {}

  lemma RunsOn(s: State, t: nat)
    requires t in s.threads && s.threads[t].Runner?
    ensures RunnerOn(s, s.threads[t].job)
  {}

  lemma RunnerKeepsInv(s: State, step: Step)
    requires Inv(s) && Enabled(s, step) && (step.RunnerReads? || step.RunnerAppends? || step.RunnerFinishes?)
    ensures Inv(Apply(s, step))
  {
    hide JobOk, Noted;
    var s1 := Apply(s, step);
    assert ThreadOk(s, step.t);
    var j := s.threads[step.t].job;
    if step.RunnerAppends? { NotedKeepsJobOk(s.jobs[j], step.stamp, s.threads[step.t].noting.value.1); }
    if step.RunnerFinishes? { FinishedKeepsJobOk(s.jobs[j], step.outcome); }
    assert step.RunnerAppends? ==> s1.jobs[j].busy by { NotedKeepsFlags(s.jobs[j], step); }
    if !step.RunnerFinishes? { assert s1.threads[step.t].job == j && RunnerOn(s1, j); }
    forall t | t in s1.threads ensures ThreadOk(s1, t) { assert ThreadOk(s, t); }
  }

  lemma NotedKeepsFlags(job: Job, step: Step)
    ensures forall stamp, phase ::
              Noted(job, stamp, phase).busy == job.busy && Noted(job, stamp, phase).done == job.done
  {}

  lemma StopKeepsInv(s: State, step: Step)
    requires Inv(s) && Enabled(s, step) && (step.StopReads? || step.StopChecks? || step.StopReadsAgain?)
    ensures Inv(Apply(s, step))
  {
    hide JobOk, Noted, RunnerOn;
    var s1 := Apply(s, step);
    if !step.StopReads? { assert ThreadOk(s, step.t); }
    forall t | t in s1.threads ensures ThreadOk(s1, t) { if t in s.threads { assert ThreadOk(s, t); } }
    forall j: nat | j < |s1.jobs| && s1.jobs[j].busy ensures j == |s1.jobs| - 1 && RunnerOn(s1, j) {
      StillRunning(s, s1, j, step.t);
    }
  }

  lemma StopAppendsKeepsInv(s: State, step: Step)
    requires Inv(s) && Enabled(s, step) && step.StopAppends?
    ensures Inv(Apply(s, step))
  {
    hide JobOk, Noted, RunnerOn;
    var s1 := Apply(s, step);
    var target := s.threads[step.t].target;
    assert ThreadOk(s, step.t);
    NotedKeepsJobOk(s.jobs[target], step.stamp, "Cancel requested");
    NotedKeepsFlags(s.jobs[target], step);
    forall t | t in s1.threads ensures ThreadOk(s1, t) { assert ThreadOk(s, t); }
    forall j: nat | j < |s1.jobs| && s1.jobs[j].busy ensures j == |s1.jobs| - 1 && RunnerOn(s1, j) {
      StillRunning(s, s1, j, step.t);
    }
  }

  lemma StepKeepsInv(s: State, step: Step)
    requires Inv(s) && Enabled(s, step)
    ensures Inv(Apply(s, step))
  {
    hide Inv, Apply, Enabled;
    match step
    case PostScan(_, _) => PostKeepsInv(s, step);
    case RunnerReads(_, _) => RunnerKeepsInv(s, step);
    case RunnerAppends(_, _) => RunnerKeepsInv(s, step);
    case RunnerFinishes(_, _) => RunnerKeepsInv(s, step);
    case StopAppends(_, _) => StopAppendsKeepsInv(s, step);
    case _ => StopKeepsInv(s, step);
  }

  lemma {:induction false} RunKeepsInv(s: State, steps: seq<Step>, s1: State)
    requires Inv(s) && Runs(s, steps, s1)
    ensures Inv(s1)
    decreases |steps|
  {
    if steps != [] {
      StepKeepsInv(s, steps[0]);
      RunKeepsInv(Apply(s, steps[0]), steps[1..], s1);
    }
  }

  lemma ReachableInv(s: State)
    requires Reachable(s)
    ensures Inv(s)
  {
    var steps :| Runs(Fresh(), steps, s);
    RunKeepsInv(Fresh(), steps, s);
  }

  // ---------------------------------------------------------------- theorems

  /** Over all interleavings at most one job is busy, and it is b.job. */
  lemma AtMostOneBusy(s: State, i: nat, j: nat)
    requires Reachable(s) && i < |s.jobs| && j < |s.jobs| && s.jobs[i].busy && s.jobs[j].busy
    ensures i == j && s.current == Some(i)
  {
    ReachableInv(s);
  }

  /** Whatever the runner notes -- scan progress, "Parking adapter" from the deferred Close, upload, explain --
      is appended to the runner's own job, which is still busy. */
  lemma RunnerNotesLandOnOwnJob(s: State, step: Step)
    requires Reachable(s) && Enabled(s, step) && step.RunnerAppends?
    ensures var own := s.threads[step.t].job;
            && s.threads[step.t].noting.value.0 == own && s.jobs[own].busy && s.current == Some(own)
            && Apply(s, step).jobs == s.jobs[own := Noted(s.jobs[own], step.stamp, s.threads[step.t].noting.value.1)]
  {
    ReachableInv(s);
    assert ThreadOk(s, step.t);
  }

  /** A scan request is refused exactly while some runner has not finished. */
  lemma RefusedIffRunnerAlive(s: State, step: Step)
    requires Reachable(s) && Enabled(s, step) && step.PostScan?
    ensures Apply(s, step) == s <==> exists t :: t in s.threads && s.threads[t].Runner?
  {
    ReachableInv(s);
    if t :| t in s.threads && s.threads[t].Runner? { assert ThreadOk(s, t); }
    if BusyNow(s) { assert RunnerOn(s, |s.jobs| - 1); }
  }

  /** The stored log is the end of everything ever noted to the job. */
  lemma LogIsTailOfHistory(s: State, j: nat)
    requires Reachable(s) && j < |s.jobs|
    ensures s.jobs[j].log == Tail(s.jobs[j].history) && |s.jobs[j].log| <= 50
    ensures s.jobs[j].busy == !s.jobs[j].done
  {
    ReachableInv(s);
    assert JobOk(s.jobs[j]);
  }

  /** A finished job was finished once and shows exactly one of error and result; an unfinished one shows neither. */
  lemma ExactlyOneOutcomeShown(s: State, j: nat)
    requires Reachable(s) && j < |s.jobs|
    ensures s.jobs[j].done ==> s.jobs[j].finishes == 1 && (s.jobs[j].err != "") != s.jobs[j].result.Some?
    ensures !s.jobs[j].done ==> s.jobs[j].finishes == 0 && s.jobs[j].err == "" && s.jobs[j].result.None?
  {
    ReachableInv(s);
    assert JobOk(s.jobs[j]);
  }

  /** Once done, a job's flags, error and result are final, whatever cancels and scans come later. */
  lemma {:induction false} DoneIsFinal(s: State, steps: seq<Step>, s1: State, j: nat)
    requires Inv(s) && Runs(s, steps, s1) && j < |s.jobs| && s.jobs[j].done
    ensures j < |s1.jobs|
    ensures var a, b := s.jobs[j], s1.jobs[j];
            b.busy == a.busy && b.done == a.done && b.err == a.err && b.result == a.result && b.finishes == a.finishes
    decreases |steps|
  {
    if steps != [] {
      StepKeepsInv(s, steps[0]);
      if steps[0].RunnerFinishes? || steps[0].RunnerAppends? { assert ThreadOk(s, steps[0].t); }
      assert JobOk(s.jobs[j]);
      DoneIsFinal(Apply(s, steps[0]), steps[1..], s1, j);
    }
  }

  /** The cancel call's own note has no such property: it lands on the job it cancelled exactly when no newer scan
      was accepted before it re-reads b.job. */
  lemma CancelNoteLandsOnCancelledJobIff(s: State, step: Step)
    requires Reachable(s) && Enabled(s, step) && step.StopReadsAgain?
    ensures var job := s.threads[step.t].job;
            Apply(s, step).threads[step.t] == StopNoteRead(job, job) <==> job == |s.jobs| - 1
  {
    ReachableInv(s);
    assert ThreadOk(s, step.t);
  }

  lemma RunsCons(s: State, step: Step, rest: seq<Step>, s1: State)
    requires Enabled(s, step) && Runs(Apply(s, step), rest, s1)
    ensures Runs(s, [step] + rest, s1)
  {
    assert ([step] + rest)[1..] == rest;
  }

  /** From a cancel that has checked the job it read, to its note on the next scan. */
  lemma CancelNoteOvertaken(stamp: string, s: State) returns (steps: seq<Step>, s1: State)
    requires s == State([Started(stamp)], Some(0), map[0 := Runner(0, None), 1 := StopNoting(0)])
    ensures Runs(s, steps, s1) && |s1.jobs| == 2 && s1.jobs[0].done
    ensures s1.jobs[1].busy && s1.jobs[1].phase == "Cancel requested"
  {
    hide Line, Runs;
    var jobs := [Finished(Started(stamp), Ok(""))];
    var s4 := State(jobs, Some(0), map[1 := StopNoting(0)]);
    var s5 := State(jobs + [Started(stamp)], Some(1), map[1 := StopNoting(0), 2 := Runner(1, None)]);
    var s6 := State(jobs + [Started(stamp)], Some(1), map[1 := StopNoteRead(0, 1), 2 := Runner(1, None)]);
    s1 := State(jobs + [Noted(Started(stamp), stamp, "Cancel requested")], Some(1), map[2 := Runner(1, None)]);
    assert Apply(s, RunnerFinishes(0, Ok(""))) == s4 && Apply(s4, PostScan(2, stamp)) == s5;
    assert Apply(s5, StopReadsAgain(1)) == s6 && Apply(s6, StopAppends(1, stamp)) == s1;
    RunsNone(s1);
    RunsCons(s6, StopAppends(1, stamp), [], s1);
    steps := [StopAppends(1, stamp)] + [];
    RunsCons(s5, StopReadsAgain(1), steps, s1);
    steps := [StopReadsAgain(1)] + steps;
    RunsCons(s4, PostScan(2, stamp), steps, s1);
    steps := [PostScan(2, stamp)] + steps;
    RunsCons(s, RunnerFinishes(0, Ok("")), steps, s1);
    steps := [RunnerFinishes(0, Ok(""))] + steps;
  }

  /** A run in which it lands on the next scan. */
  lemma CancelNoteCanHitLaterScan(stamp: string) returns (steps: seq<Step>, s: State)
    ensures Runs(Fresh(), steps, s) && |s.jobs| == 2 && s.jobs[0].done
    ensures s.jobs[1].busy && s.jobs[1].phase == "Cancel requested"
  {
    hide Line, Runs;
    var s1 := Apply(Fresh(), PostScan(0, stamp));
    var s2 := Apply(s1, StopReads(1));
    var s3 := Apply(s2, StopChecks(1));
    assert s3 == State([Started(stamp)], Some(0), map[0 := Runner(0, None), 1 := StopNoting(0)]);
    steps, s := CancelNoteOvertaken(stamp, s3);
    RunsCons(s2, StopChecks(1), steps, s);
    steps := [StopChecks(1)] + steps;
    RunsCons(s1, StopReads(1), steps, s);
    steps := [StopReads(1)] + steps;
    RunsCons(Fresh(), PostScan(0, stamp), steps, s);
    steps := [PostScan(0, stamp)] + steps;
  }

  lemma RunsNone(s: State)
    ensures Runs(s, [], s)
  {}
}
