/**
  What each lock region of the daemon does, said without the functions that do it: times in
  microseconds, items and records field by field.
 */
module DaemonMeaning {
  import opened Wrappers
  import opened Schedule
  import opened DaemonState
  import opened DaemonRuns
  import opened DaemonSteps
  import opened DaemonTheorems
  import Text

  // ------------------------------------------------------------- planned runs

  /** What a job's schedule fields mean to the scheduler; the interval counts hours. */
  lemma PlainJobs(job: Job)
    ensures job.scheduleType == "manual" ==> job.Rule() == Never
    ensures job.scheduleType == "interval" ==>
              job.Rule() == Every((if job.scheduleInterval >= 1 then job.scheduleInterval
                                   else if job.scheduleInterval == 0 then 3 else 1) * 3_600_000_000)
  {
    var time := if job.scheduleTime == "" then "03:15" else job.scheduleTime;
    ManualRule(job.scheduleInterval, time);
    IntervalRule(job.scheduleInterval, time);
  }

  lemma DailyJob(job: Job)
    requires job.scheduleType == "daily" && IsClockText(job.scheduleTime)
    ensures
      var s := job.scheduleTime;
      job.Rule() ==
      DailyAt(Text.DigitsValue(s[..|s| - 3]) * 3_600_000_000 + Text.DigitsValue(s[|s| - 2..]) * 60_000_000)
  {
    DailyRule(job.scheduleInterval, job.scheduleTime);
  }

  /** Without a time a daily job runs at 03:15. */
  lemma DailyJobByDefault(job: Job, time: string)
    requires job.scheduleType == "daily" && job.scheduleTime == "" && time == "03:15"
    ensures job.Rule() == DailyAt(11_700_000_000)
  {
    QuarterPastThree(job.scheduleInterval, time);
  }

  /** The reference is the later of the two stamps, or the only one, or none. */
  lemma ReferenceIsTheLater(d: State, name: string)
    ensures
      var e := d.Record(name);
      match d.Reference(name)
      case None => e.lastRunAt == None && e.lastSuccessAt == None
      case Some(t) =>
        && (e.lastRunAt == Some(t) || e.lastSuccessAt == Some(t))
        && (e.lastRunAt.Some? ==> e.lastRunAt.value <= t)
        && (e.lastSuccessAt.Some? ==> e.lastSuccessAt.value <= t)
  {}

  lemma JobNextRunIs(job: Job, status: map<string, Entry>, now: Time)
    ensures IsNextRun(job.Rule(), job.catchupMissed, ReferenceIn(status, job.name), now, JobNextRun(job, status, now))
  {
    NextRunIs(job.Rule(), job.catchupMissed, ReferenceIn(status, job.name), now);
  }

  /** Recomputing plans every selected job anew, keeps the plan of the others, and forgets unknown names. */
  lemma RecomputePlans(d: State, only: Option<string>, now: Time, job: Job, unknown: string)
    requires UniqueNames(d.cfg) && job in d.cfg
    requires forall k :: 0 <= k < |d.cfg| ==> d.cfg[k].name != unknown
    ensures
      var next := Recompute(d, only, now).Next(job.name);
      if only == None || only == Some(job.name)
      then IsNextRun(job.Rule(), job.catchupMissed, d.Reference(job.name), now, next)
      else next == d.Next(job.name)
    ensures Recompute(d, only, now).Next(unknown) == None
  {
    RecomputeNext(d, only, now, job);
    JobNextRunIs(job, d.status, now);
    assert unknown !in Names(d.cfg);
  }

  // --------------------------------------------------------------------- the tick

  /** What a tick at `now` makes of the planned run of `job`: `next` takes the place of what `d` has. */
  ghost predicate TickPlan(d: State, job: Job, now: Time, next: Option<Time>) {
    var due, reference := d.Next(job.name), d.Reference(job.name);
    if due.None? || now < due.value || d.Busy(job.name) then next == due
    else if job.catchupMissed || now - due.value <= 600_000_000 then next == None
    else
      match job.Rule()
      case Never => next == None
      case DailyAt(timeOfDay) => next.Some? && FirstSlot(timeOfDay, now + 1_000_000, next.value)
      case Every(step) =>
        if reference.None? then next == Some(now + 6_000_000)
        else next.Some? && FirstStep(reference.value, step, now + 1_000_000, next.value)
  }

  /**
    A job that is not due, or busy, keeps its planned run; a queued one has none; and a run missed by
    more than ten minutes gives way to the first slot or step after the next second.
   */
  lemma {:induction false} TickPlans(d: State, jobs: seq<Job>, now: Time, k: nat)
    requires UniqueNames(jobs) && k < |jobs|
    ensures TickPlan(d, jobs[k], now, Ticked(d, jobs, now).Next(jobs[k].name))
    decreases |jobs|
  {
    var init, job := jobs[..|jobs| - 1], jobs[|jobs| - 1];
    if k < |init| {
      TickPlans(d, init, now, k);
      assert job.name != jobs[k].name;
    } else {
      TickedLeavesOthers(d, init, now, job.name);
      TickJobPlans(Ticked(d, init, now), job, now);
      SamePlan(d, Ticked(d, init, now), job, now, Ticked(d, jobs, now).Next(job.name));
    }
  }

  lemma TickPlansAll(d: State, jobs: seq<Job>, now: Time)
    ensures UniqueNames(jobs) ==>
              forall k :: 0 <= k < |jobs| ==> TickPlan(d, jobs[k], now, Ticked(d, jobs, now).Next(jobs[k].name))
  {
    if UniqueNames(jobs) {
      forall k | 0 <= k < |jobs|
        ensures TickPlan(d, jobs[k], now, Ticked(d, jobs, now).Next(jobs[k].name))
      {
        TickPlans(d, jobs, now, k);
      }
    }
  }

  lemma SamePlan(d: State, u: State, job: Job, now: Time, next: Option<Time>)
    requires TickPlan(u, job, now, next)
    requires u.Next(job.name) == d.Next(job.name) && u.Queued(job.name) == d.Queued(job.name)
    requires u.current == d.current && u.status == d.status
    ensures TickPlan(d, job, now, next)
  {}

  lemma TickJobPlans(d: State, job: Job, now: Time)
    ensures TickPlan(d, job, now, TickJob(d, job, now).Next(job.name))
  {
    NextRunIs(job.Rule(), false, d.Reference(job.name), now + 1_000_000);
  }

  /** A scheduled backup of this job, asked for by the tick at `now`. */
  predicate IsScheduled(a: Accepted, id: nat, job: Job, now: Time) {
    a.item == WorkItem(id, Backup, job.name, BySchedule, false) && a.at == now && a.rule == job.Rule()
  }

  /** The tick appends one new backup per job it queues, in the order of the configuration, and takes nothing away. */
  lemma {:induction false} TickAppends(d: State, jobs: seq<Job>, now: Time) returns (which: seq<nat>)
    ensures
      var v := Ticked(d, jobs, now);
      && |v.queue| == |d.queue| + |which| && v.queue[..|d.queue|] == d.queue
      && |v.log.accepted| == |d.log.accepted| + |which| && v.log.accepted[..|d.log.accepted|] == d.log.accepted
    ensures forall i :: 0 <= i < |which| ==> which[i] < |jobs|
    ensures forall i, j :: 0 <= i < j < |which| ==> which[i] < which[j]
    ensures forall i :: 0 <= i < |which| ==>
              var a := Ticked(d, jobs, now).log.accepted[|d.log.accepted| + i];
              IsScheduled(a, |d.log.accepted| + i, jobs[which[i]], now) &&
              Ticked(d, jobs, now).queue[|d.queue| + i] == a.item
    decreases |jobs|
  {
    which := [];
    if jobs != [] {
      var init := jobs[..|jobs| - 1];
      which := TickAppends(d, init, now);
      if Ticked(d, jobs, now).queue != Ticked(d, init, now).queue {
        which := which + [|jobs| - 1];
      }
    }
  }

  // ------------------------------------------------------------ queue and worker

  /** A backup is refused exactly when one of the same job is queued or running; otherwise the item is the newest. */
  lemma EnqueueAppends(d: State, kind: Kind, job: string)
    ensures Enqueue(d, kind, job).Err? <==>
            kind == Backup &&
            ((d.current.Some? && d.current.value.kind == Backup && d.current.value.job == job) ||
             exists i :: 0 <= i < |d.queue| && d.queue[i].kind == Backup && d.queue[i].job == job)
    ensures Enqueue(d, kind, job).Err? ==> Enqueue(d, kind, job).error == IsBusy
    ensures Enqueue(d, kind, job).Ok? ==>
              var d' := Enqueue(d, kind, job).value;
              && d'.queue == d.queue + [WorkItem(|d.log.accepted|, kind, job, ByUser, false)]
              && d' == d.(queue := d'.queue, log := d'.log)
  {
    if exists i :: 0 <= i < |d.queue| && d.queue[i].kind == Backup && d.queue[i].job == job {
      var i :| 0 <= i < |d.queue| && d.queue[i].kind == Backup && d.queue[i].job == job;
      assert d.queue[i].BacksUp(job);
    }
  }

  /**
    The running item is only told to stop. Otherwise the first queued match goes, the rest of the queue
    stays, and if it was a backup its job, and no other, gets a planned run again.
   */
  lemma CancelTakesTheFirst(d: State, id: Option<nat>, now: Time, job: Job, i: nat)
    requires UniqueNames(d.cfg) && job in d.cfg
    requires !(d.current.Some? && (id == None || id == Some(d.current.value.id)))
    requires i < |d.queue| && (id == None || id == Some(d.queue[i].id))
    requires forall j :: 0 <= j < i ==> id != None && id != Some(d.queue[j].id)
    ensures Cancel(d, id, now).Ok?
    ensures
      var d', item := Cancel(d, id, now).value, d.queue[i];
      && d'.queue == d.queue[..i] + d.queue[i + 1..]
      && d'.current == d.current && d'.status == d.status && d'.cfg == d.cfg && d'.shuttingDown == d.shuttingDown
      && d'.log.cancelled == d.log.cancelled + {item.id}
      && if item.kind == Backup && item.job == job.name
         then IsNextRun(job.Rule(), job.catchupMissed, d.Reference(job.name), now, d'.Next(job.name))
         else d'.Next(job.name) == d.Next(job.name)
  {
    FirstMatchIs(d.queue, id, i);
    var item := d.queue[i];
    if item.kind == Backup {
      var t := d.(queue := d.queue[..i] + d.queue[i + 1..], log := d.log.(cancelled := d.log.cancelled + {item.id}));
      RecomputeNext(t, Some(item.job), now, job);
      JobNextRunIs(job, d.status, now);
    }
  }

  /** Beginning a backup writes the second it started in and clears the error, and nothing else of any record. */
  lemma BeginRunRecords(d: State, started: Time, other: string)
    requires d.current.Some? && other != d.current.value.job
    ensures
      var name, d' := d.current.value.job, BeginRun(d, started);
      var e := d'.Record(name);
      && e.lastRunAt.Some? && e.lastRunAt.value % 1_000_000 == 0
      && e.lastRunAt.value <= started < e.lastRunAt.value + 1_000_000
      && e.lastError == ""
      && e.lastSuccessAt == d.Record(name).lastSuccessAt && e.lastExitCode == d.Record(name).lastExitCode
      && d'.Record(other) == d.Record(other)
      && d'.queue == d.queue && d'.current == d.current && d'.nextRuns == d.nextRuns && d'.cfg == d.cfg
  {
    StampIsWholeSecond(started);
  }

  /**
    Recording the end writes exit code and error, on success also the second it ended in, and plans
    this job, and no other, from its new reference.
   */
  lemma FinishRecords(d: State, finished: Time, outcome: Outcome, now: Time, other: Job)
    requires d.current.Some? && UniqueNames(d.cfg) && other in d.cfg
    ensures
      var name, d' := d.current.value.job, Finish(d, finished, outcome, now);
      var e, e' := d.Record(name), d'.Record(name);
      && e'.lastExitCode == Some(outcome.exitCode) && e'.lastError == outcome.error && e'.lastRunAt == e.lastRunAt
      && (if outcome.success
          then e'.lastSuccessAt.Some? && e'.lastSuccessAt.value % 1_000_000 == 0
            && e'.lastSuccessAt.value <= finished < e'.lastSuccessAt.value + 1_000_000
          else e'.lastSuccessAt == e.lastSuccessAt)
      && (forall x :: x != name ==> d'.Record(x) == d.Record(x))
      && d'.queue == d.queue && d'.current == d.current && d'.cfg == d.cfg
      && if other.name == name
         then IsNextRun(other.Rule(), other.catchupMissed, d'.Reference(name), now, d'.Next(name))
         else d'.Next(other.name) == d.Next(other.name)
  {
    var name := d.current.value.job;
    StampIsWholeSecond(finished);
    var t := d.(status := d.status[name := Finished(d.Record(name), finished, outcome)]);
    RecomputeNext(t, Some(name), now, other);
    JobNextRunIs(other, t.status, now);
  }

  /** Taking an item and letting go of it: the oldest becomes the current one, and then none is. */
  lemma WorkerMovesItems(d: State, recorded: bool)
    ensures d.queue != [] ==>
              && Pop(d).current.Some? && d.queue == [Pop(d).current.value] + Pop(d).queue
              && Pop(d).nextRuns == d.nextRuns && Pop(d).status == d.status && Pop(d).cfg == d.cfg
    ensures d.current.Some? ==>
              && Leave(d, recorded).current == None && Leave(d, recorded).queue == d.queue
              && Leave(d, recorded).nextRuns == d.nextRuns && Leave(d, recorded).status == d.status
              && Leave(d, recorded).cfg == d.cfg
  {
    if d.queue != [] {
      assert d.queue == [d.queue[0]] + d.queue[1..];
    }
  }

  /** Saving replaces the jobs and plans each of them anew; queue, worker and records stay. */
  lemma SavePlansAll(d: State, cfg: seq<Job>, now: Time, job: Job)
    requires UniqueNames(cfg) && job in cfg
    ensures
      var d' := SaveConfig(d, cfg, now);
      && d'.cfg == cfg && d'.queue == d.queue && d'.current == d.current && d'.status == d.status
      && IsNextRun(job.Rule(), job.catchupMissed, d.Reference(job.name), now, d'.Next(job.name))
      && forall name :: name in d'.nextRuns ==> exists k :: 0 <= k < |cfg| && cfg[k].name == name
  {
    var t := d.(cfg := cfg);
    RecomputeNext(t, None, now, job);
    JobNextRunIs(job, d.status, now);
  }

  /** Shutting down: after the flag nothing is taken, the queue is emptied, the running item stopped. */
  lemma ShutdownStops(s: System, id: nat)
    ensures RaiseFlag(s.d) == s.d.(shuttingDown := true)
    ensures !Enabled(s.(d := RaiseFlag(s.d)), Take)
    ensures ClearQueue(s.d).queue == []
    ensures forall i :: 0 <= i < |s.d.queue| ==> s.d.queue[i].id in ClearQueue(s.d).log.dropped
    ensures StopItem(s.d, id).current ==
            if s.d.current.Some? && s.d.current.value.id == id then Some(s.d.current.value.(stopped := true))
            else s.d.current
    ensures StopItem(s.d, id).queue == s.d.queue && StopItem(s.d, id).nextRuns == s.d.nextRuns
  {}
}
