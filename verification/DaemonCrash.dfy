/**
  Why the spacing theorems need every backup to end in `_finish_backup`: for every job with a schedule
  there is a run in which the worker's catch-all exit makes the schedule start it twice at the same instant.
 */
module DaemonCrash {
  import opened Wrappers
  import opened Schedule
  import opened DaemonState
  import opened DaemonRuns
  import opened DaemonInvariant
  import opened DaemonSteps
  import opened DaemonReach

  /** Two starts of the job at the same instant, the later one queued by its schedule. */
  ghost predicate StartsTwice(log: Log, job: Job) {
    exists p, q :: 0 <= p < q < |log.starts| && SameInstant(log, job, log.starts[p], log.starts[q])
  }

  ghost predicate RunStartsTwice(run: seq<System>, actions: seq<Action>, job: Job) {
    IsRun(run, actions) && StartsTwice(run[|run| - 1].d.log, job)
  }

  predicate SameInstant(log: Log, job: Job, earlier: Start, later: Start) {
    && earlier.job == job.name && later.job == job.name && earlier.time == later.time
    && later.id < |log.accepted|
    && log.accepted[later.id].item.trigger == BySchedule && log.accepted[later.id].rule == job.Rule()
  }

  /** A backup started by hand in the instant in which the schedule is due, and lost by the worker. */
  lemma FirstStartFails(job: Job) returns (s: System)
    requires job.ScheduleAccepted() && !job.Rule().Never?
    ensures Reached(s, false) && AtRest(s, job) && s.d.Next(job.name) == Some(s.clock)
    ensures s.d.log.starts == [Start(0, job.name, s.clock)] && |s.d.log.accepted| == 1
  {
    s := Loaded(job);
    NextRunBounds(job.Rule(), job.catchupMissed, None, 0);
    s := Step(s, Wait(s.d.Next(job.name).value), true);
    s := StartByHand(s, job, true);
    assert Reached(s, false);
    s := Step(s, Fail, false);
  }

  lemma SecondStart(job: Job) returns (s: System)
    requires job.ScheduleAccepted() && !job.Rule().Never?
    ensures Reached(s, false) && StartsTwice(s.d.log, job)
  {
    var t := FirstStartFails(job);
    s := StartByTick(t, job, false);
    assert SameInstant(s.d.log, job, s.d.log.starts[0], s.d.log.starts[1]);
  }

  /** Without `_finish_backup` every schedule can start its job twice at the same instant. */
  lemma UnrecordedEndBreaksSpacing(job: Job) returns (run: seq<System>, actions: seq<Action>)
    requires job.ScheduleAccepted() && !job.Rule().Never?
    ensures RunStartsTwice(run, actions, job)
  {
    var s := SecondStart(job);
    run, actions :| IsRun(run, actions) && run[|run| - 1] == s;
  }

  // ------------------------------------------- no other job is ever scheduled

  /** Jobs without a schedule have no next run, and nothing was queued for them by schedule. */
  ghost predicate OnlyPlanned(d: State) {
    && (forall job :: job in d.cfg && job.Rule().Never? ==> d.Next(job.name).None?)
    && (forall k :: 0 <= k < |d.log.accepted| && d.log.accepted[k].item.trigger == BySchedule ==>
          !d.log.accepted[k].rule.Never?)
  }

  lemma {:induction false} TickedOnlyPlanned(d: State, k: nat, now: Time)
    requires OnlyPlanned(d) && k <= |d.cfg|
    ensures OnlyPlanned(Ticked(d, d.cfg[..k], now)) && Ticked(d, d.cfg[..k], now).cfg == d.cfg
    decreases k
  {
    if k > 0 {
      TickedOnlyPlanned(d, k - 1, now);
      var jobs, job := d.cfg[..k], d.cfg[k - 1];
      assert jobs[..|jobs| - 1] == d.cfg[..k - 1] && jobs[|jobs| - 1] == job;
      TickJobOnlyPlanned(Ticked(d, d.cfg[..k - 1], now), job, now);
    }
  }

  lemma TickJobOnlyPlanned(d: State, job: Job, now: Time)
    requires OnlyPlanned(d) && job in d.cfg
    ensures OnlyPlanned(TickJob(d, job, now)) && TickJob(d, job, now).cfg == d.cfg
  {}

  lemma RecomputeOnlyPlanned(d: State, only: Option<string>, now: Time)
    requires UniqueNames(d.cfg)
    requires forall job :: job in d.cfg && job.Rule().Never? && !Selected(only, job.name) ==> d.Next(job.name).None?
    requires forall k :: 0 <= k < |d.log.accepted| && d.log.accepted[k].item.trigger == BySchedule ==>
               !d.log.accepted[k].rule.Never?
    ensures OnlyPlanned(Recompute(d, only, now))
  {
    forall job | job in d.cfg && job.Rule().Never?
      ensures Recompute(d, only, now).Next(job.name).None?
    {
      RecomputeNext(d, only, now, job);
    }
  }

  lemma ActionOnlyPlanned(s: System, a: Action)
    requires Inv(s) && Enabled(s, a) && OnlyPlanned(s.d)
    ensures OnlyPlanned(Apply(s, a).d)
  {
    match a
    case RunTick =>
      TickedOnlyPlanned(s.d, |s.d.cfg|, s.tickNow.value);
      assert s.d.cfg[..|s.d.cfg|] == s.d.cfg;
    case CancelItem(id) => CancelOnlyPlanned(s, id);
    case Save(cfg) => RecomputeOnlyPlanned(s.d.(cfg := cfg), None, s.clock);
    case RecordFinish => RecomputeOnlyPlanned(Recording(s).d, Some(s.d.current.value.job), s.clock);
    case _ =>
  }

  lemma CancelOnlyPlanned(s: System, id: Option<nat>)
    requires Inv(s) && OnlyPlanned(s.d)
    ensures OnlyPlanned(Apply(s, CancelItem(id)).d)
  {
    CancelCases(s.d, id, s.clock);
    var i := FirstMatch(s.d.queue, id);
    if !(s.d.current.Some? && Means(id, s.d.current.value)) && i < |s.d.queue| {
      RecomputeOnlyPlanned(Without(s.d, i), Some(s.d.queue[i].job), s.clock);
    }
  }

  lemma {:induction false} RunOnlyPlanned(run: seq<System>, actions: seq<Action>, k: nat)
    requires IsRun(run, actions) && k < |run|
    ensures OnlyPlanned(run[k].d)
    decreases k
  {
    if k == 0 {
      var d := run[0].d;
      RecomputeOnlyPlanned(State(d.cfg, d.status, [], None, map[], false, Log([], [], {}, {}, [], {})), None, run[0].clock);
    } else {
      RunOnlyPlanned(run, actions, k - 1);
      RunInv(run, actions, k - 1);
      ActionOnlyPlanned(run[k - 1], actions[k - 1]);
    }
  }

  /** In no run is anything ever queued by schedule for a job without one. */
  lemma ManualIsNeverScheduled(run: seq<System>, actions: seq<Action>, k: nat)
    requires IsRun(run, actions) && k < |run[|run| - 1].d.log.accepted|
    requires run[|run| - 1].d.log.accepted[k].item.trigger == BySchedule
    ensures !run[|run| - 1].d.log.accepted[k].rule.Never?
  {
    RunOnlyPlanned(run, actions, |run| - 1);
  }

  /** So the jobs whose spacing can break are exactly those that have a schedule. */
  lemma SpacingBreaksExactly(job: Job)
    requires job.ScheduleAccepted()
    ensures (exists run, actions :: RunStartsTwice(run, actions, job)) <==> !job.Rule().Never?
  {
    if !job.Rule().Never? {
      var run, actions := UnrecordedEndBreaksSpacing(job);
    }
    if run: seq<System>, actions: seq<Action> :| RunStartsTwice(run, actions, job) {
      var log := run[|run| - 1].d.log;
      var p, q :| 0 <= p < q < |log.starts| && SameInstant(log, job, log.starts[p], log.starts[q]);
      ManualIsNeverScheduled(run, actions, log.starts[q].id);
    }
  }
}
