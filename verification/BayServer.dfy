/** The bay server's objects, and its handlers and its runner as programs.  Each part under a mutex is one section of
    BayScan, and each program is proved to be a run of BayScan in which other threads may run any sections of theirs
    between its own. */
module BayServer {
  import opened BayScan
  import opened BayThreads
  import opened Common

  predicate HasPrefix(s: string, prefix: string) {
    prefix <= s
  }

  /** How Scanner.Scan ends: an error -- with the context's own error when that has ended -- or a VIN. */
  datatype ScanEnd = ScanError(message: Message, ended: Option<string>) | Read(vin: string)

  function Prefixed(start: Message, rest: string): (m: Message)
    ensures start <= m && m[|start|..] == rest
  {
    start + rest
  }

  const NO_VIN: Message := Prefixed("ECU did not return a VIN",
                                    " — check ignition ON, adapter seating, and serial permissions")
  const UPLOADING := "Uploading scan to MechMind"
  const MOCK_VIN: Message := "refusing mock VIN on a live adapter"

  predicate Refused(vin: string, mock: bool) {
    HasPrefix(vin, "MOCK") && !mock
  }

  function StoppedAt(phase: string, why: string): Message {
    Prefixed("stopped at “", (if phase == "" then "unknown step" else phase) + "” (" + why
                             + "). Ignition ON, adapter seated, correct port/baud?")
  }

  /** What the runner notes after the scan. */
  function Closing(end: ScanEnd, mock: bool, outcome: Outcome, uploadError: Option<string>,
                   codes: seq<string>): seq<string> {
    if end.ScanError? then [if outcome.Failed? then outcome.message else ""]
    else if end.vin == "" then [NO_VIN]
    else if Refused(end.vin, mock) then []
    else Accepted(uploadError, codes)
  }

  function Accepted(uploadError: Option<string>, codes: seq<string>): seq<string> {
    if uploadError.Some? then [UPLOADING, UploadFailed(uploadError.value)]
    else [UPLOADING] + Explaining(codes) + ["Done"]
  }

  function UploadFailed(message: string): string {
    "Upload failed: " + message
  }

  lemma AcceptedNotes(progress: seq<string>, uploadError: Option<string>, codes: seq<string>)
    ensures uploadError.Some? ==>
              progress + [UPLOADING] + [UploadFailed(uploadError.value)] == progress + Accepted(uploadError, codes)
    ensures uploadError.None? ==>
              progress + [UPLOADING] + Explaining(codes) + ["Done"] == progress + Accepted(uploadError, codes)
  {
    hide Explaining, UploadFailed;
  }

  function Explaining(codes: seq<string>): (notes: seq<string>)
    ensures |notes| == |codes|
  {
    seq(|codes|, i requires 0 <= i < |codes| => "Explaining " + codes[i])
  }

  ghost predicate IsLine(line: string, phase: string) {
    exists stamp :: line == Line(stamp, phase)
  }

  /** Lines for these notes stand in the history in this order, perhaps with other lines between. */
  ghost predicate Shows(history: seq<string>, notes: seq<string>)
    decreases |history|
  {
    || notes == []
    || (history != [] && Shows(history[..|history| - 1], notes))
    || (history != [] && IsLine(history[|history| - 1], notes[|notes| - 1])
        && Shows(history[..|history| - 1], notes[..|notes| - 1]))
  }

  lemma ShowsNote(history: seq<string>, notes: seq<string>, stamp: string, phase: string)
    requires Shows(history, notes)
    ensures Shows(history + [Line(stamp, phase)], notes) && Shows(history + [Line(stamp, phase)], notes + [phase])
  {
    var history1, notes1 := history + [Line(stamp, phase)], notes + [phase];
    assert history1[..|history1| - 1] == history && notes1[..|notes1| - 1] == notes;
    assert IsLine(history1[|history1| - 1], phase);
  }

  lemma {:induction false} CancelsHideNothing(job: Job, stamps: seq<string>, notes: seq<string>)
    requires Shows(job.history, notes)
    ensures Shows(CancelNotes(job, stamps).history, notes)
    decreases |stamps|
  {
    hide Shows;
    if stamps != [] {
      var n := |stamps| - 1;
      CancelsHideNothing(job, stamps[..n], notes);
      ShowsNote(CancelNotes(job, stamps[..n]).history, notes, stamps[n], "Cancel requested");
    }
  }

  lemma OthersHideNothing(s: State, s1: State, t: nat, notes: seq<string>)
    requires OthersCame(s, s1, t) && t in s.threads && s.threads[t].Runner?
    requires s.threads[t].job < |s.jobs| && Shows(s.jobs[s.threads[t].job].history, notes)
    ensures s.threads[t].job < |s1.jobs| && Shows(s1.jobs[s.threads[t].job].history, notes)
  {
    hide Shows, CancelNotes;
    var j := s.threads[t].job;
    var stamps :| s1.jobs[j] == CancelNotes(s.jobs[j], stamps);
    CancelsHideNothing(s.jobs[j], stamps, notes);
  }

  /** The sections of a runner that notes these phases, in order. */
  ghost predicate NoteSections(own: seq<Step>, t: nat, phases: seq<string>) {
    && |own| == 2 * |phases|
    && forall i | 0 <= i < |phases| ::
         own[2 * i] == RunnerReads(t, phases[i]) && own[2 * i + 1].RunnerAppends? && own[2 * i + 1].t == t
  }

  lemma OneMoreNote(own: seq<Step>, t: nat, phases: seq<string>, phase: string, stamp: string)
    requires NoteSections(own, t, phases)
    ensures NoteSections(own + [RunnerReads(t, phase), RunnerAppends(t, stamp)], t, phases + [phase])
  {
    var own1, phases1 := own + [RunnerReads(t, phase), RunnerAppends(t, stamp)], phases + [phase];
    forall i | 0 <= i < |phases1|
      ensures own1[2 * i] == RunnerReads(t, phases1[i]) && own1[2 * i + 1].RunnerAppends? && own1[2 * i + 1].t == t
    {
      if i < |phases| { assert own1[2 * i] == own[2 * i] && own1[2 * i + 1] == own[2 * i + 1]; }
    }
  }

  /** How far a runner's program has come: it has noted these phases, its job is still busy and shows them all. */
  ghost predicate Noting(s: State, t: nat, j: nat, phases: seq<string>, own: seq<Step>, steps: seq<Step>, s1: State) {
    && Interleaved(s, t, own, steps, s1) && NoteSections(own, t, phases)
    && t in s1.threads && s1.threads[t] == Runner(j, None)
    && j < |s1.jobs| == |s.jobs| && Shows(s1.jobs[j].history, phases)
  }

  /** A runner on job j that is between two notes. */
  ghost predicate RunnerIdle(s: State, t: nat, j: nat) {
    Inv(s) && t in s.threads && s.threads[t] == Runner(j, None)
  }

  /** The newest job is the runner's own. */
  lemma RunnerHasNewest(s: State, t: nat)
    requires Inv(s) && t in s.threads && s.threads[t].Runner?
    ensures s.jobs != [] && s.threads[t].job == |s.jobs| - 1 && s.current == Some(|s.jobs| - 1)
    ensures s.jobs[|s.jobs| - 1].busy && s.jobs[|s.jobs| - 1].finishes == 0
    ensures s.threads[t].noting.Some? ==> s.threads[t].noting.value.0 == |s.jobs| - 1
  {
    assert ThreadOk(s, t);
    assert JobOk(s.jobs[s.threads[t].job]);
  }

  lemma NotingStarts(s: State, t: nat, j: nat)
    requires RunnerIdle(s, t, j)
    ensures Noting(s, t, j, [], [], [], s)
  {
    hide Inv;
    RunnerHasNewest(s, t);
    NothingHappened(s, t);
    ShowsNothing(s.jobs[j].history);
  }

  /** Others work, the runner reads b.job, others work, the runner appends. */
  lemma NotedOnce(s: State, t: nat, j: nat, phases: seq<string>, own: seq<Step>, steps: seq<Step>, s1: State,
                  between: seq<Step>, s2: State, phase: string, within: seq<Step>, s3: State, stamp: string)
    requires Noting(s, t, j, phases, own, steps, s1)
    requires Interleaved(s1, t, [], between, s2) && OthersCame(s1, s2, t)
    requires Enabled(s2, RunnerReads(t, phase))
    requires Interleaved(Apply(s2, RunnerReads(t, phase)), t, [], within, s3)
             && OthersCame(Apply(s2, RunnerReads(t, phase)), s3, t)
    requires Enabled(s3, RunnerAppends(t, stamp))
    ensures Noting(s, t, j, phases + [phase], own + [RunnerReads(t, phase), RunnerAppends(t, stamp)],
                   steps + between + [RunnerReads(t, phase)] + within + [RunnerAppends(t, stamp)],
                   Apply(s3, RunnerAppends(t, stamp)))
  {
    hide Inv, Runs, Own, Shows, Noted, Interleaved, NoteSections;
    var read, append := RunnerReads(t, phase), RunnerAppends(t, stamp);
    var s2r := Apply(s2, read);
    InSequence(s, t, own, steps, s1, [], between, s2);
    assert own + [] == own;
    ThenStep(s, t, own, steps + between, s2, read);
    InSequence(s, t, own + [read], steps + between + [read], s2r, [], within, s3);
    assert own + [read] + [] == own + [read];
    ThenStep(s, t, own + [read], steps + between + [read] + within, s3, append);
    assert own + [read] + [append] == own + [read, append];
    OneMoreNote(own, t, phases, phase, stamp);
    InterleavedInv(s1, t, [], between, s2);
    RunnerHasNewest(s2, t);
    OthersHideNothing(s1, s2, t, phases);
    OthersHideNothing(s2r, s3, t, phases);
    AppendShows(s3, t, j, phases, phase, stamp);
  }

  lemma AppendShows(s: State, t: nat, j: nat, phases: seq<string>, phase: string, stamp: string)
    requires t in s.threads && s.threads[t] == Runner(j, Some((j, phase))) && j < |s.jobs|
             && Shows(s.jobs[j].history, phases)
    ensures var s1 := Apply(s, RunnerAppends(t, stamp));
            t in s1.threads && s1.threads[t] == Runner(j, None) && |s1.jobs| == |s.jobs|
              && Shows(s1.jobs[j].history, phases + [phase])
  {
    hide Shows;
    ShowsNote(s.jobs[j].history, phases, stamp, phase);
  }

  class ScanJob {
    var busy: bool
    var done: bool
    var phase: string
    var log: seq<string>
    var err: string
    var result: Option<string>
    ghost var history: seq<string>
    ghost var outcome: Option<Outcome>
    ghost var finishes: nat

    ghost function View(): Job
      reads this
    {
      Job(busy, done, phase, log, err, result, history, outcome, finishes)
    }

    constructor (stamp: string)
      ensures View() == Started(stamp)
    {
      busy, done, phase, err, result := true, false, "Starting", "", None;
      log := [Line(stamp, "Starting")];
      history, outcome, finishes := [Line(stamp, "Starting")], None, 0;
    }

    /** The job.mu section of note. */
    method Append(newPhase: string, stamp: string)
      modifies this`phase, this`log, this`history
      ensures View() == Noted(old(View()), stamp, newPhase)
      ensures old(JobOk(View())) ==> JobOk(View())
    {
      ghost var before := View();
      phase := newPhase;
      log := log + [Line(stamp, newPhase)];
      if |log| > 50 { log := log[|log| - 50..]; }
      history := history + [Line(stamp, newPhase)];
      if JobOk(before) { NotedKeepsJobOk(before, stamp, newPhase); }
    }

    method FinishJob(o: Outcome)
      modifies this
      ensures View() == Finished(old(View()), o)
      ensures old(JobOk(View())) && old(busy) ==> JobOk(View()) && done && finishes == 1 && (err != "") != result.Some?
    {
      ghost var before := View();
      busy, done := false, true;
      match o {
        case Failed(message) => err, phase := message, "Failed";
        case Ok(r) => phase, result := "Done", Some(r);
      }
      outcome, finishes := Some(o), finishes + 1;
      if JobOk(before) && before.busy { FinishedKeepsJobOk(before, o); }
    }
  }

  class Bay {
    var job: ScanJob?

    // the bookkeeping behind it: every job accepted, and which thread is between which sections
    var jobs: seq<ScanJob>
    var world: State

    // what other threads attempt at each turn they get
    const schedule: nat -> seq<Step>
    var turn: nat

    ghost predicate Valid()
      reads this, jobs
    {
      && Inv(world) && |jobs| == |world.jobs|
      && (forall i | 0 <= i < |jobs| :: jobs[i].View() == world.jobs[i])
      && (forall i, j | 0 <= i < j < |jobs| :: jobs[i] != jobs[j])
      && job == if jobs == [] then null else jobs[|jobs| - 1]
    }

    constructor (schedule: nat -> seq<Step>)
      ensures Valid() && job == null && world == Fresh() && this.schedule == schedule
    {
      job, jobs, world := null, [], Fresh();
      this.schedule, turn := schedule, 0;
    }

    /** The second section of a note, on the object found in the first. */
    method AppendTo(target: ScanJob, j: nat, phase: string, stamp: string, next: State)
      requires Valid() && j < |jobs| && target == jobs[j]
      requires Inv(next) && next.jobs == world.jobs[j := Noted(world.jobs[j], stamp, phase)]
      modifies this`world, target`phase, target`log, target`history
      ensures Valid() && world == next
    {
      hide Inv, JobOk, Noted;
      target.Append(phase, stamp);
      world := next;
    }

    /** finishJob's section. */
    method EndJob(target: ScanJob, j: nat, outcome: Outcome, next: State)
      requires Valid() && j < |jobs| && target == jobs[j]
      requires Inv(next) && next.jobs == world.jobs[j := Finished(world.jobs[j], outcome)]
      modifies this`world, target
      ensures Valid() && world == next && target.View() == next.jobs[j]
    {
      hide Inv, JobOk, Finished;
      target.FinishJob(outcome);
      world := next;
    }

    /** The section that puts a new job in place. */
    method Accept(stamp: string, next: State) returns (accepted: ScanJob)
      requires Valid() && Inv(next) && next.jobs == world.jobs + [Started(stamp)]
      modifies this`job, this`jobs, this`world
      ensures Valid() && world == next && fresh(accepted) && job == accepted && jobs == old(jobs) + [accepted]
      ensures accepted.View() == Started(stamp)
    {
      hide Inv, JobOk, Started;
      accepted := new ScanJob(stamp);
      job := accepted;
      jobs := jobs + [accepted];
      world := next;
    }

    /** A section of another thread. */
    method Perform(step: Step)
      requires Valid() && Enabled(world, step)
      modifies this, jobs
      ensures Valid() && world == Apply(old(world), step) && turn == old(turn)
      ensures old(jobs) <= jobs && forall i | 0 <= i < |jobs| :: jobs[i] in old(jobs) || fresh(jobs[i])
    {
      hide Inv, JobOk, Noted, Finished, Started;
      StepKeepsInv(world, step);
      var next := Apply(world, step);
      match step {
        case PostScan(t, stamp) =>
          if BusyNow(world) { world := next; } else { var _ := Accept(stamp, next); }
        case RunnerAppends(t, stamp) =>
          var (target, phase) := world.threads[t].noting.value;
          AppendTo(jobs[target], target, phase, stamp, next);
        case RunnerFinishes(t, outcome) => EndJob(jobs[world.threads[t].job], world.threads[t].job, outcome, next);
        case StopAppends(t, stamp) =>
          var target := world.threads[t].target;
          AppendTo(jobs[target], target, "Cancel requested", stamp, next);
        case _ => world := next;
      }
    }

    /** The other threads take their turn. */
    method LetOthersWork(t: nat) returns (ghost steps: seq<Step>)
      requires Valid()
      modifies this, jobs
      ensures Valid() && Interleaved(old(world), t, [], steps, world) && OthersCame(old(world), world, t)
      ensures steps == Played(old(world), t, schedule(old(turn))) && turn == old(turn) + 1
      ensures old(jobs) <= jobs && forall i | 0 <= i < |jobs| :: jobs[i] in old(jobs) || fresh(jobs[i])
    {
      hide Inv, Enabled, Apply, Played, OthersCame, Playing, Interleaved;
      ghost var s := world;
      var others := schedule(turn);
      steps := [];
      PlayStarts(s, t, others);
      for i := 0 to |others|
        invariant Valid() && turn == old(turn) && Playing(s, t, others, i, steps, world)
        invariant old(jobs) <= jobs && forall i | 0 <= i < |jobs| :: jobs[i] in old(jobs) || fresh(jobs[i])
      {
        var step := others[i];
        PlayGoesOn(s, t, others, i, steps, world);
        if step.t != t && Enabled(world, step) {
          Perform(step);
          steps := steps + [step];
        }
      }
      PlayEnds(s, t, others, steps, world);
      turn := turn + 1;
    }

    /** note: two sections, with others at work in between.  The job it appends to is the one b.job was in the first. */
    method Note(t: nat, phase: string) returns (stamp: string, ghost within: seq<Step>, ghost s3: State)
      requires Valid() && t in world.threads
      requires || (world.threads[t].StopNoting? && phase == "Cancel requested")
               || (world.threads[t].Runner? && world.threads[t].noting.None?)
      modifies this, jobs
      ensures var read := if old(world).threads[t].Runner? then RunnerReads(t, phase) else StopReadsAgain(t);
              var append := if old(world).threads[t].Runner? then RunnerAppends(t, stamp) else StopAppends(t, stamp);
              && Enabled(old(world), read) && Interleaved(Apply(old(world), read), t, [], within, s3)
              && OthersCame(Apply(old(world), read), s3, t)
              && Enabled(s3, append) && world == Apply(s3, append)
      ensures Valid() && old(jobs) <= jobs && forall i | 0 <= i < |jobs| :: jobs[i] in old(jobs) || fresh(jobs[i])
    {
      hide Inv, JobOk, Noted, Interleaved, Played, Finished, Started, OnlyCancels;
      var runner := world.threads[t].Runner?;
      var read := if runner then RunnerReads(t, phase) else StopReadsAgain(t);
      CurrentExists(world, t);
      var found := job;
      StepKeepsInv(world, read);
      var at := |jobs| - 1;
      world := Apply(world, read);
      ghost var s2 := world;
      within := LetOthersWork(t);
      s3 := world;
      assert jobs[at] == found;
      stamp := *;
      var append := if runner then RunnerAppends(t, stamp) else StopAppends(t, stamp);
      ReadTargets(s2, s3, t, at);
      StepKeepsInv(world, append);
      AppendTo(found, at, phase, stamp, Apply(world, append));
    }

    /** handleScan's section: accepts unless the current job is busy. */
    method HandleScan(t: nat) returns (accepted: ScanJob?, stamp: string)
      requires Valid() && t !in world.threads
      modifies this, jobs
      ensures Valid() && Enabled(old(world), PostScan(t, stamp)) && world == Apply(old(world), PostScan(t, stamp))
      ensures accepted == null <==> old(job != null && job.busy)
      ensures accepted == null ==> job == old(job)
      ensures accepted != null ==> fresh(accepted) && job == accepted && jobs == old(jobs) + [accepted]
                                   && accepted.View() == Started(stamp) && RunnerIdle(world, t, |jobs| - 1)
    {
      hide Inv, JobOk, Started;
      CurrentIsNewest(world);
      var running := false;
      if job != null { running := job.busy; }
      stamp := *;
      StepKeepsInv(world, PostScan(t, stamp));
      if running {
        world := Apply(world, PostScan(t, stamp));
        return null, stamp;
      }
      accepted := Accept(stamp, Apply(world, PostScan(t, stamp)));
    }

    /** stopScan, with others at work between its sections: true exactly when the job it read first was still busy
        when it looked, and then one note follows, on whatever job is current by then. */
    method StopScan(t: nat) returns (cancelled: bool, ghost own: seq<Step>, ghost steps: seq<Step>, ghost looked: State)
      requires Valid() && t !in world.threads
      modifies this, jobs
      ensures Valid() && Interleaved(old(world), t, own, steps, world)
      ensures if old(job) == null then !cancelled && own == []
              else Enabled(looked, StopChecks(t)) && looked.threads[t].job == |old(jobs)| - 1
                   && cancelled == looked.jobs[|old(jobs)| - 1].busy
                   && if cancelled
                      then exists stamp ::
                             own == [StopReads(t), StopChecks(t), StopReadsAgain(t), StopAppends(t, stamp)]
                      else own == [StopReads(t), StopChecks(t)]
    {
      hide Inv, JobOk, Runs, Own, Played, Interleaved, Noted, Finished, Started, OnlyCancels;
      ghost var s := world;
      own, steps, looked := [], [], world;
      NothingHappened(s, t);
      CurrentIsNewest(world);
      var read := job;
      if read == null { return false, own, steps, looked; }
      ghost var at := |jobs| - 1;
      ThenStep(s, t, own, steps, world, StopReads(t));
      StepKeepsInv(world, StopReads(t));
      world := Apply(world, StopReads(t));
      own, steps := [StopReads(t)], [] + [StopReads(t)];
      assert [] + [StopReads(t)] == [StopReads(t)];
      ghost var s1 := world;
      ghost var more := LetOthersWork(t);
      InSequence(s, t, own, steps, s1, [], more, world);
      assert own + [] == own && jobs[at] == read;
      steps := steps + more;
      looked := world;
      cancelled, own, steps := StopLooks(t, read, s, own, steps);
      assert cancelled ==> forall stamp ::
        [StopReads(t)] + [StopChecks(t), StopReadsAgain(t), StopAppends(t, stamp)]
        == [StopReads(t), StopChecks(t), StopReadsAgain(t), StopAppends(t, stamp)];
    }

    /** The rest of stopScan, on the job it read. */
    method StopLooks(t: nat, read: ScanJob, ghost s: State, ghost before: seq<Step>, ghost run: seq<Step>)
      returns (cancelled: bool, ghost own: seq<Step>, ghost steps: seq<Step>)
      requires Valid() && Enabled(world, StopChecks(t)) && Interleaved(s, t, before, run, world)
      requires world.threads[t].job < |jobs| && read == jobs[world.threads[t].job]
      modifies this, jobs
      ensures Valid() && Interleaved(s, t, own, steps, world)
      ensures cancelled == old(read.busy)
      ensures if cancelled
              then exists stamp :: own == before + [StopChecks(t), StopReadsAgain(t), StopAppends(t, stamp)]
              else own == before + [StopChecks(t)]
    {
      hide Inv, JobOk, Runs, Own, Played, Interleaved, Noted, Finished, Started, OthersCame;
      cancelled := read.busy;
      ThenStep(s, t, before, run, world, StopChecks(t));
      StepKeepsInv(world, StopChecks(t));
      world := Apply(world, StopChecks(t));
      own, steps := before + [StopChecks(t)], run + [StopChecks(t)];
      if cancelled {
        own, steps := NoteCancel(t, s, own, steps);
        assert forall stamp :: before + [StopChecks(t)] + [StopReadsAgain(t), StopAppends(t, stamp)]
                               == before + [StopChecks(t), StopReadsAgain(t), StopAppends(t, stamp)];
      }
    }

    /** The note of a cancel that found its job busy. */
    method NoteCancel(t: nat, ghost s: State, ghost before: seq<Step>, ghost run: seq<Step>)
      returns (ghost own: seq<Step>, ghost steps: seq<Step>)
      requires Valid() && t in world.threads && world.threads[t].StopNoting? && Interleaved(s, t, before, run, world)
      modifies this, jobs
      ensures Valid() && Interleaved(s, t, own, steps, world)
      ensures exists stamp :: own == before + [StopReadsAgain(t), StopAppends(t, stamp)]
    {
      hide Inv, Apply, Enabled, Runs, Own, Interleaved, OthersCame;
      ghost var s1 := world;
      ghost var more := LetOthersWork(t);
      InSequence(s, t, before, run, s1, [], more, world);
      assert before + [] == before;
      StillNoting(s1, world, t);
      ghost var s2 := world;
      var stamp, within, s3 := Note(t, "Cancel requested");
      ThenStep(s, t, before, run + more, s2, StopReadsAgain(t));
      InSequence(s, t, before + [StopReadsAgain(t)], run + more + [StopReadsAgain(t)],
                 Apply(s2, StopReadsAgain(t)), [], within, s3);
      assert before + [StopReadsAgain(t)] + [] == before + [StopReadsAgain(t)];
      ThenStep(s, t, before + [StopReadsAgain(t)], run + more + [StopReadsAgain(t)] + within, s3,
               StopAppends(t, stamp));
      own := before + [StopReadsAgain(t)] + [StopAppends(t, stamp)];
      assert own == before + [StopReadsAgain(t), StopAppends(t, stamp)];
      steps := run + more + [StopReadsAgain(t)] + within + [StopAppends(t, stamp)];
    }

    /** One note of the runner, with others at work before and within. */
    method RunnerNote(t: nat, ghost s: State, ghost j: nat, phase: string, ghost phases: seq<string>,
                      ghost before: seq<Step>, ghost run: seq<Step>)
      returns (ghost own: seq<Step>, ghost steps: seq<Step>)
      requires Valid() && Noting(s, t, j, phases, before, run, world)
      modifies this, jobs
      ensures Valid() && jobs == old(jobs) && Noting(s, t, j, phases + [phase], own, steps, world)
    {
      hide Inv, Noting, NoteSections, Apply, Enabled, Runs, Own, Interleaved, Shows, OthersCame;
      ghost var s1 := world;
      NotingIsRunner(s, t, j, phases, before, run, s1);
      ghost var between := LetOthersWork(t);
      ghost var s2 := world;
      StillRunnerIdle(s1, s2, t, j);
      var stamp, within, s3 := Note(t, phase);
      NotedOnce(s, t, j, phases, before, run, s1, between, s2, phase, within, s3, stamp);
      own := before + [RunnerReads(t, phase), RunnerAppends(t, stamp)];
      steps := run + between + [RunnerReads(t, phase)] + within + [RunnerAppends(t, stamp)];
      NotingIsRunner(s, t, j, phases + [phase], own, steps, world);
    }

    /** Scanner.Scan reports its progress, the last note being the adapter's parking. */
    method NoteAll(t: nat, ghost s: State, ghost j: nat, notes: seq<string>, ghost phases: seq<string>,
                   ghost before: seq<Step>, ghost run: seq<Step>)
      returns (ghost own: seq<Step>, ghost steps: seq<Step>)
      requires Valid() && Noting(s, t, j, phases, before, run, world)
      modifies this, jobs
      ensures Valid() && jobs == old(jobs) && Noting(s, t, j, phases + notes, own, steps, world)
    {
      hide Inv, Noting;
      own, steps := before, run;
      assert phases + notes[..0] == phases;
      for i := 0 to |notes|
        invariant Valid() && jobs == old(jobs) && Noting(s, t, j, phases + notes[..i], own, steps, world)
      {
        own, steps := RunnerNote(t, s, j, notes[i], phases + notes[..i], own, steps);
        assert phases + notes[..i] + [notes[i]] == phases + notes[..i + 1];
      }
      assert notes[..|notes|] == notes;
    }

    /** The runner's last section, with others at work before it. */
    method Finish(t: nat, ghost s: State, ghost j: nat, outcome: Outcome, ghost phases: seq<string>,
                  ghost before: seq<Step>, ghost run: seq<Step>)
      returns (ghost steps: seq<Step>)
      requires Valid() && Noting(s, t, j, phases, before, run, world)
      modifies this, jobs
      ensures Valid() && jobs == old(jobs) && t !in world.threads
      ensures Interleaved(s, t, before + [RunnerFinishes(t, outcome)], steps, world) && NoteSections(before, t, phases)
      ensures j < |jobs| && Ended(world.jobs[j], outcome) && Shows(world.jobs[j].history, phases)
    {
      hide Inv, Runs, Own, Interleaved, Shows, Played, NoteSections;
      ghost var s1 := world;
      NotingIsRunner(s, t, j, phases, before, run, s1);
      ghost var more := LetOthersWork(t);
      ghost var s2 := world;
      StillRunnerIdle(s1, s2, t, j);
      InSequence(s, t, before, run, s1, [], more, s2);
      assert before + [] == before;
      OthersHideNothing(s1, s2, t, phases);
      ThenStep(s, t, before, run + more, s2, RunnerFinishes(t, outcome));
      StepKeepsInv(s2, RunnerFinishes(t, outcome));
      RunnerHasNewest(s2, t);
      var mine := world.threads[t].job;
      EndJob(jobs[mine], mine, outcome, Apply(world, RunnerFinishes(t, outcome)));
      steps := run + more + [RunnerFinishes(t, outcome)];
      EndedJob(world, j, outcome);
    }

    /** The runner.  It is a run of its own sections among any of other threads': every path notes what it should, in
        order, and finishes its own job exactly once.  The job ends in a result exactly when the scan returned, read a
        VIN, and did not read a mock VIN on a live adapter -- a failed upload included. */
    method RunScan(t: nat, own: ScanJob, mock: bool, progress: seq<string>, end: ScanEnd, uploadError: Option<string>,
                   codes: seq<string>, out: string)
      returns (ghost notes: seq<Step>, ghost steps: seq<Step>)
      requires Valid() && |jobs| > 0 && own == jobs[|jobs| - 1] && RunnerIdle(world, t, |jobs| - 1)
      modifies this, jobs
      ensures Valid() && jobs == old(jobs) && t !in world.threads && own.outcome.Some?
      ensures Interleaved(old(world), t, notes + [RunnerFinishes(t, own.outcome.value)], steps, world)
      ensures NoteSections(notes, t, progress + Closing(end, mock, own.outcome.value, uploadError, codes))
      ensures Shows(own.history, progress + Closing(end, mock, own.outcome.value, uploadError, codes))
      ensures Ended(own.View(), own.outcome.value)
      ensures own.outcome.value.Ok? <==> end.Read? && end.vin != "" && !Refused(end.vin, mock)
      ensures own.outcome.value.Ok? ==> own.result == Some(out)
      ensures end.Read? && own.outcome.value.Failed? ==> own.err == if end.vin == "" then NO_VIN else MOCK_VIN
      ensures end.ScanError? && end.ended.None? ==> own.err == end.message
      ensures end.ScanError? && end.ended.Some? ==> exists phase :: own.err == StoppedAt(phase, end.ended.value)
    {
      hide Inv, JobOk, Noting, NoteSections, Shows, Interleaved, Accepted;
      ghost var s, j := world, |jobs| - 1;
      NotingStarts(s, t, j);
      notes, steps := NoteAll(t, s, j, progress, [], [], []);
      assert [] + progress == progress;
      if end.ScanError? {
        var message: Message := if end.ended.Some? then StoppedAt(own.phase, end.ended.value) else end.message;
        notes, steps := FailScan(t, s, j, message, progress, notes, steps);
        return;
      }
      if end.vin == "" {
        notes, steps := FailScan(t, s, j, NO_VIN, progress, notes, steps);
        return;
      }
      if HasPrefix(end.vin, "MOCK") && !mock {
        assert progress + [] == progress;
        steps := Finish(t, s, j, Failed(MOCK_VIN), progress, notes, steps);
        return;
      }
      notes, steps := UploadAndExplain(t, s, j, uploadError, codes, progress, notes, steps);
      steps := Finish(t, s, j, Ok(out), progress + Accepted(uploadError, codes), notes, steps);
    }

    /** An error is noted, and ends the job. */
    method FailScan(t: nat, ghost s: State, ghost j: nat, message: Message, ghost phases: seq<string>,
                    ghost before: seq<Step>, ghost run: seq<Step>)
      returns (ghost own: seq<Step>, ghost steps: seq<Step>)
      requires Valid() && Noting(s, t, j, phases, before, run, world)
      modifies this, jobs
      ensures Valid() && jobs == old(jobs) && t !in world.threads
      ensures Interleaved(s, t, own + [RunnerFinishes(t, Failed(message))], steps, world)
              && NoteSections(own, t, phases + [message])
      ensures j < |jobs| && Ended(world.jobs[j], Failed(message)) && Shows(world.jobs[j].history, phases + [message])
    {
      hide Inv, Noting, NoteSections, Shows, Interleaved, Ended;
      own, steps := RunnerNote(t, s, j, message, phases, before, run);
      steps := Finish(t, s, j, Failed(message), phases + [message], own, steps);
    }

    /** The end of runScan, for a scan it accepts, up to finishing. */
    method UploadAndExplain(t: nat, ghost s: State, ghost j: nat, uploadError: Option<string>, codes: seq<string>,
                            ghost progress: seq<string>, ghost before: seq<Step>, ghost run: seq<Step>)
      returns (ghost own: seq<Step>, ghost steps: seq<Step>)
      requires Valid() && Noting(s, t, j, progress, before, run, world)
      modifies this, jobs
      ensures Valid() && jobs == old(jobs)
              && Noting(s, t, j, progress + Accepted(uploadError, codes), own, steps, world)
    {
      hide Inv, Noting, Accepted, Explaining;
      AcceptedNotes(progress, uploadError, codes);
      own, steps := RunnerNote(t, s, j, UPLOADING, progress, before, run);
      if uploadError.Some? {
        own, steps := RunnerNote(t, s, j, UploadFailed(uploadError.value), progress + [UPLOADING], own, steps);
        return;
      }
      own, steps := NoteCodes(t, s, j, codes, progress + [UPLOADING], own, steps);
      own, steps := RunnerNote(t, s, j, "Done", progress + [UPLOADING] + Explaining(codes), own, steps);
    }

    method NoteCodes(t: nat, ghost s: State, ghost j: nat, codes: seq<string>, ghost phases: seq<string>,
                     ghost before: seq<Step>, ghost run: seq<Step>)
      returns (ghost own: seq<Step>, ghost steps: seq<Step>)
      requires Valid() && Noting(s, t, j, phases, before, run, world)
      modifies this, jobs
      ensures Valid() && jobs == old(jobs) && Noting(s, t, j, phases + Explaining(codes), own, steps, world)
    {
      hide Inv, Noting;
      own, steps := before, run;
      assert phases + Explaining(codes[..0]) == phases;
      for i := 0 to |codes|
        invariant Valid() && jobs == old(jobs) && Noting(s, t, j, phases + Explaining(codes[..i]), own, steps, world)
      {
        own, steps := RunnerNote(t, s, j, "Explaining " + codes[i], phases + Explaining(codes[..i]), own, steps);
        assert phases + Explaining(codes[..i]) + ["Explaining " + codes[i]] == phases + Explaining(codes[..i + 1]);
      }
      assert codes[..|codes|] == codes;
    }
  }

  /** A job that has ended once, showing this outcome and nothing of the other. */
  ghost predicate Ended(job: Job, outcome: Outcome) {
    && job.done && !job.busy && job.finishes == 1 && job.outcome == Some(outcome)
    && match outcome
       case Ok(result) => job.err == "" && job.result == Some(result) && job.phase == "Done"
       case Failed(message) => job.err == message && job.result == None && job.phase == "Failed"
  }

  lemma CurrentIsNewest(s: State)
    requires Inv(s)
    ensures s.current == if s.jobs == [] then None else Some(|s.jobs| - 1)
  {}

  /** A thread is there only because of a job. */
  lemma CurrentExists(s: State, t: nat)
    requires Inv(s) && t in s.threads
    ensures s.jobs != [] && s.current == Some(|s.jobs| - 1)
  {
    assert ThreadOk(s, t);
  }

  /** What a note read in its first section is what it appends to. */
  lemma ReadTargets(s: State, s1: State, t: nat, at: nat)
    requires OthersCame(s, s1, t) && t in s.threads && at < |s.jobs|
    requires match s.threads[t]
             case Runner(_, noting) => noting.Some? && noting.value.0 == at
             case StopNoteRead(_, target) => target == at
             case _ => false
    ensures t in s1.threads && s1.threads[t] == s.threads[t] && at < |s1.jobs|
  {}

  lemma StillNoting(s: State, s1: State, t: nat)
    requires OthersCame(s, s1, t) && t in s.threads && s.threads[t].StopNoting?
    ensures t in s1.threads && s1.threads[t].StopNoting?
  {}

  lemma NotingIsRunner(s: State, t: nat, j: nat, phases: seq<string>, own: seq<Step>, steps: seq<Step>, s1: State)
    requires Noting(s, t, j, phases, own, steps, s1)
    ensures RunnerIdle(s1, t, j) && j == |s1.jobs| - 1 && |s1.jobs| == |s.jobs|
  {
    RunnerHasNewest(s1, t);
  }

  lemma StillRunnerIdle(s: State, s1: State, t: nat, j: nat)
    requires RunnerIdle(s, t, j) && Inv(s1) && OthersCame(s, s1, t)
    ensures RunnerIdle(s1, t, j) && |s1.jobs| == |s.jobs|
  {}

  lemma EndedJob(s: State, j: nat, outcome: Outcome)
    requires Inv(s) && j < |s.jobs| && s.jobs[j].outcome == Some(outcome)
    requires s.jobs[j].phase == if outcome.Ok? then "Done" else "Failed"
    ensures Ended(s.jobs[j], outcome)
  {
    assert JobOk(s.jobs[j]);
  }

  lemma ShowsNothing(history: seq<string>)
    ensures Shows(history, [])
  {}
}
