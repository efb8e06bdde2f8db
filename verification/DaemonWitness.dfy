/** Runs that show how far the theorems about runs can be pushed, and no further. */
module DaemonWitness {
  import opened Wrappers
  import opened Schedule
  import opened DaemonState
  import opened DaemonRuns
  import opened DaemonReach
  import opened DaemonTheorems

  const DONE := Outcome(0, "", true)
  const BROKEN := Outcome(2, "failed", false)

  /** The second start of the job comes by schedule, and `gap` after the first one at t0. */
  predicate StartsApart(log: Log, job: Job, t0: Time, gap: Time) {
    && |log.starts| == 2 && log.starts[0].job == job.name && log.starts[1].job == job.name
    && log.starts[1].id < |log.accepted|
    && log.accepted[log.starts[1].id].item.trigger == BySchedule
    && log.accepted[log.starts[1].id].rule == job.Rule()
    && log.starts[0].time == t0 && log.starts[1].time == t0 + gap
  }

  // -------------------------------------------------- shorter than an interval

  /** An interval run that succeeds at once is next due the interval after the second of its start. */
  lemma NextAfterSuccess(job: Job, step: Time, before: Entry, status: map<string, Entry>, t0: Time)
    requires job.Rule() == Every(step) && step >= HOUR && before.lastRunAt == Some(Stamp(t0))
    requires RecordIn(status, job.name) == Finished(before, t0, DONE)
    ensures JobNextRun(job, status, t0) == Some(Stamp(t0) + step)
  {
    assert ReferenceIn(status, job.name) == Some(Stamp(t0));
  }

  /** A first backup by hand at t0, recorded at once. */
  lemma FirstIntervalRun(job: Job, step: Time, t0: Time) returns (s: System)
    requires job.ScheduleAccepted() && job.Rule() == Every(step) && step >= HOUR && t0 >= 0
    ensures Reached(s, true) && AtRest(s, job) && s.clock == t0
    ensures s.d.Next(job.name) == Some(Stamp(t0) + step)
    ensures s.d.log.starts == [Start(0, job.name, t0)] && |s.d.log.accepted| == 1
  {
    s := Loaded(job);
    s := Step(s, Wait(t0), true);
    s := StartByHand(s, job, true);
    var before := s.d.Record(job.name);
    s := FinishNow(s, job, DONE, true);
    NextAfterSuccess(job, step, before, s.d.status, t0);
  }

  lemma SecondIntervalRun(job: Job, step: Time, t0: Time) returns (s: System)
    requires job.ScheduleAccepted() && job.Rule() == Every(step) && step >= HOUR && t0 >= 0
    ensures Reached(s, true) && StartsApart(s.d.log, job, t0, step - t0 % SECOND)
  {
    s := FirstIntervalRun(job, step, t0);
    s := Step(s, Wait(Stamp(t0) + step), true);
    s := StartByTick(s, job, true);
  }

  /**
    Even if every backup is recorded, every interval job can start again less than its interval after a start
    at t0: by the part of a second by which t0 is past the whole second.
   */
  lemma IntervalStartsCanBeCloser(job: Job, step: Time, t0: Time) returns (run: seq<System>, actions: seq<Action>)
    requires job.ScheduleAccepted() && job.Rule() == Every(step) && t0 >= 0
    ensures IsRun(run, actions) && AlwaysRecorded(run, actions, job.name)
    ensures StartsApart(Final(run).log, job, t0, step - t0 % SECOND)
  {
    StepIsLong(job);
    var s := SecondIntervalRun(job, step, t0);
    run, actions :| IsRun(run, actions) && run[|run| - 1] == s && NoFail(actions);
  }

  lemma StepIsLong(job: Job)
    ensures job.Rule().Every? ==> job.Rule().step >= HOUR
  {
    assert job.Rule().Valid();
  }

  /** In this recorded run, start q of the job was queued by its schedule, after start p at t0. */
  ghost predicate RestartsBySchedule(
    run: seq<System>, actions: seq<Action>, job: Job, p: nat, q: nat, t0: Time)
  {
    && IsRun(run, actions) && AlwaysRecorded(run, actions, job.name)
    && var log := Final(run).log;
    && p < q < |log.starts|
    && log.starts[p].job == job.name && log.starts[q].job == job.name && log.starts[p].time == t0
    && log.starts[q].id < |log.accepted|
    && log.accepted[log.starts[q].id].item.trigger == BySchedule
    && log.accepted[log.starts[q].id].rule == job.Rule()
  }

  /**
    Every later scheduled start, in every recorded run, is a full interval after a start at t0 exactly if t0
    is a whole second.
   */
  lemma FullIntervalExactly(job: Job, step: Time, t0: Time)
    requires job.ScheduleAccepted() && job.Rule() == Every(step) && t0 >= 0
    ensures (forall run, actions, p: nat, q: nat :: RestartsBySchedule(run, actions, job, p, q, t0) ==>
               Final(run).log.starts[q].time - t0 >= step)
            <==> t0 % SECOND == 0
  {
    if t0 % SECOND == 0 {
      forall run, actions, p: nat, q: nat | RestartsBySchedule(run, actions, job, p, q, t0)
        ensures Final(run).log.starts[q].time - t0 >= step
      {
        IntervalStartsAreSpaced(run, actions, job.name, p, q, step);
      }
    } else {
      var run, actions := IntervalStartsCanBeCloser(job, step, t0);
      assert RestartsBySchedule(run, actions, job, 0, 1, t0);
    }
  }

  // ------------------------------------------------------------ lost schedules

  /** The scheduled backup of the job has just been queued by the tick. */
  lemma DueAndQueued(job: Job) returns (s: System)
    requires job.ScheduleAccepted() && !job.Rule().Never?
    ensures Reached(s, true) && s.d.cfg == [job] && !s.d.shuttingDown && s.worker == Idle
    ensures s.d.current == None && s.d.nextRuns == map[job.name := None]
    ensures s.d.queue == [WorkItem(0, Backup, job.name, BySchedule, false)]
  {
    s := JustDue(job);
    s := Step(s, ReadTick, true);
    TickOnly(s.d, job, s.clock);
    s := Step(s, RunTick, true);
  }

  lemma JustDue(job: Job) returns (s: System)
    requires job.ScheduleAccepted() && !job.Rule().Never?
    ensures Reached(s, true) && AtRest(s, job) && s.d.Next(job.name) == Some(s.clock)
    ensures s.d.log == Log([], [], {}, {}, [], {})
  {
    s := Loaded(job);
    NextRunBounds(job.Rule(), job.catchupMissed, None, 0);
    s := Step(s, Wait(s.d.Next(job.name).value), true);
  }

  /** In this run the daemon ends up without a next run or a backup under way for its job. */
  ghost predicate LosesSchedule(run: seq<System>, actions: seq<Action>, job: Job) {
    IsRun(run, actions) && job in Final(run).cfg && Forgotten(Final(run), job.name)
  }

  /** Every job with a schedule is forgotten in some run without a shutdown: its scheduled backup failed in the worker. */
  lemma FailureForgetsJob(job: Job) returns (run: seq<System>, actions: seq<Action>)
    requires job.ScheduleAccepted() && !job.Rule().Never?
    ensures LosesSchedule(run, actions, job) && !Final(run).shuttingDown && job.name in Final(run).log.stale
  {
    var s := DueAndQueued(job);
    s := PopAndStart(s, true);
    assert Reached(s, false);
    s := Step(s, Fail, false);
    run, actions :| IsRun(run, actions) && run[|run| - 1] == s;
  }

  /** And in some run without a failure: shutting down dropped its scheduled backup. */
  lemma ShutdownForgetsJob(job: Job) returns (run: seq<System>, actions: seq<Action>)
    requires job.ScheduleAccepted() && !job.Rule().Never?
    ensures LosesSchedule(run, actions, job) && NoFail(actions) && job.name !in Final(run).log.stale
  {
    var s := DueAndQueued(job);
    s := Step(s, BeginStop, true);
    s := Step(s, EmptyQueue, true);
    run, actions :| IsRun(run, actions) && run[|run| - 1] == s && NoFail(actions);
    RecordedRunIsClean(run, actions, |run| - 1, job.name);
  }

  // --------------------------------------------------------- a false success

  /** A backup by hand that is recorded at once. */
  lemma BackupByHand(s: System, job: Job) returns (t: System)
    requires Reached(s, true) && AtRest(s, job)
    ensures Reached(t, true) && AtRest(t, job) && t.clock == s.clock
    ensures t.d.Record(job.name).lastSuccessAt == Some(Stamp(s.clock))
  {
    t := StartByHand(s, job, true);
    t := FinishNow(t, job, DONE, true);
  }

  /** A failed backup in the second of the previous success, about to be recorded. */
  lemma FailureAfterSuccess(job: Job) returns (s: System)
    requires job.ScheduleAccepted()
    ensures Reached(s, true) && Enabled(s, RecordFinish) && s.d.current.value.job == job.name
    ensures !s.worker.outcome.success && SeenAsSuccess(Apply(s, RecordFinish).d.Record(job.name))
  {
    s := Loaded(job);
    s := BackupByHand(s, job);
    s := StartByHand(s, job, true);
    s := Step(s, ReadFinish(BROKEN), true);
  }

  /** For every job there is a run at whose end the client takes a failed backup for a success. */
  lemma FailureSeenAsSuccess(job: Job) returns (run: seq<System>, actions: seq<Action>)
    requires job.ScheduleAccepted()
    ensures IsRun(run, actions) && actions != [] && actions[|actions| - 1] == RecordFinish
    ensures
      var before := run[|run| - 2];
      before.worker.Finishing? && !before.worker.outcome.success && before.d.current.Some?
      && before.d.current.value.job == job.name
    ensures SeenAsSuccess(Final(run).Record(job.name))
  {
    var s := FailureAfterSuccess(job);
    var init, steps :| IsRun(init, steps) && init[|init| - 1] == s && NoFail(steps);
    RunGoesOn(init, steps, RecordFinish);
    run, actions := init + [Apply(s, RecordFinish)], steps + [RecordFinish];
    assert run[|run| - 2] == s && Final(run) == Apply(s, RecordFinish).d;
  }
}
