/** What the invariant means for whole runs of the daemon. */
module DaemonTheorems {
  import opened Wrappers
  import opened Schedule
  import opened DaemonState
  import opened DaemonRuns
  import opened DaemonInvariant
  import opened DaemonSteps

  function Final(run: seq<System>): State
    requires run != []
  {
    run[|run| - 1].d
  }

  // ----------------------------------------------------- how often a job starts

  /** No backup of this job left the worker without `_finish_backup`. */
  predicate AlwaysRecorded(run: seq<System>, actions: seq<Action>, job: string) {
    |actions| <= |run| &&
    forall i :: 0 <= i < |actions| && actions[i].Fail? && run[i].d.Running(job) ==> run[i].worker.Done?
  }

  predicate CleanFor(d: State, job: string) {
    job !in d.log.stale
    && forall k :: 0 <= k < |d.log.accepted| && d.log.accepted[k].item.job == job ==> d.log.accepted[k].clean
  }

  lemma {:induction false} TickedClean(d: State, jobs: seq<Job>, now: Time, job: string)
    requires CleanFor(d, job)
    ensures CleanFor(Ticked(d, jobs, now), job)
    decreases |jobs|
  {
    if jobs != [] {
      TickedClean(d, jobs[..|jobs| - 1], now, job);
    }
  }

  lemma RecordedStepIsClean(s: System, a: Action, job: string)
    requires Enabled(s, a) && CleanFor(s.d, job)
    requires a.Fail? && s.d.Running(job) ==> s.worker.Done?
    ensures CleanFor(Apply(s, a).d, job)
  {
    match a
    case RunTick => TickedClean(s.d, s.d.cfg, s.tickNow.value, job);
    case CancelItem(id) => CancelKeepsClean(s, id, job);
    case _ =>
  }

  lemma CancelKeepsClean(s: System, id: Option<nat>, job: string)
    requires CleanFor(s.d, job)
    ensures CleanFor(Apply(s, CancelItem(id)).d, job)
  {
    CancelCases(s.d, id, s.clock);
  }

  lemma {:induction false} RecordedRunIsClean(run: seq<System>, actions: seq<Action>, k: nat, job: string)
    requires IsRun(run, actions) && k < |run| && AlwaysRecorded(run, actions, job)
    ensures CleanFor(run[k].d, job)
    decreases k
  {
    if k > 0 {
      RecordedRunIsClean(run, actions, k - 1, job);
      RecordedStepIsClean(run[k - 1], actions[k - 1], job);
    }
  }

  /**
    A scheduled daily start lies in a strictly later slot-day than every earlier start of the job,
    whoever asked for that one and however it ended. The slot is the one in force when the tick
    queued the run, so configuration changes are allowed.
   */
  lemma DailyStartsInLaterSlotDays(
    run: seq<System>, actions: seq<Action>, job: string, p: nat, q: nat, offset: Time)
    requires IsRun(run, actions) && AlwaysRecorded(run, actions, job)
    requires
      var log := Final(run).log;
      && p < q < |log.starts|
      && log.starts[p].job == job && log.starts[q].job == job
      && log.starts[q].id < |log.accepted|
      && log.accepted[log.starts[q].id].item.trigger == BySchedule
      && log.accepted[log.starts[q].id].rule == DailyAt(offset)
    ensures SlotDay(offset, Final(run).log.starts[p].time) < SlotDay(offset, Final(run).log.starts[q].time)
  {
    var d := Final(run);
    RunInv(run, actions, |run| - 1);
    RecordedRunIsClean(run, actions, |run| - 1, job);
    assert ScheduledCleanly(d, d.log.starts[q].id);
    StampKeepsSlot(offset, d.log.starts[p].time);
  }

  /**
    A scheduled interval start comes at least the interval after the stamp of every earlier start
    of the job; the stamp is that start cut to the second, so the starts themselves are more than
    the interval minus one second apart.
   */
  lemma IntervalStartsAreSpaced(
    run: seq<System>, actions: seq<Action>, job: string, p: nat, q: nat, step: Time)
    requires IsRun(run, actions) && AlwaysRecorded(run, actions, job)
    requires
      var log := Final(run).log;
      && p < q < |log.starts|
      && log.starts[p].job == job && log.starts[q].job == job
      && log.starts[q].id < |log.accepted|
      && log.accepted[log.starts[q].id].item.trigger == BySchedule
      && log.accepted[log.starts[q].id].rule == Every(step)
    ensures Stamp(Final(run).log.starts[p].time) + step <= Final(run).log.starts[q].time
    ensures Final(run).log.starts[q].time - Final(run).log.starts[p].time > step - SECOND
  {
    var d := Final(run);
    RunInv(run, actions, |run| - 1);
    RecordedRunIsClean(run, actions, |run| - 1, job);
    assert ScheduledCleanly(d, d.log.starts[q].id);
  }

  // ------------------------------------------------------- what one tick queues

  /** The tick's decision for one job, seen from the state before the tick. */
  predicate DueNow(d: State, job: Job, now: Time) {
    && d.Next(job.name).Some?
    && d.Next(job.name).value <= now
    && !d.Busy(job.name)
    && (job.catchupMissed || now - d.Next(job.name).value <= MISSED_GRACE)
  }

  lemma {:induction false} TickedLeavesOthers(d: State, jobs: seq<Job>, now: Time, name: string)
    requires forall k :: 0 <= k < |jobs| ==> jobs[k].name != name
    ensures Ticked(d, jobs, now).Next(name) == d.Next(name)
    ensures Ticked(d, jobs, now).Queued(name) == d.Queued(name)
    ensures Ticked(d, jobs, now).current == d.current && Ticked(d, jobs, now).status == d.status
    decreases |jobs|
  {
    if jobs != [] {
      var init, job := jobs[..|jobs| - 1], jobs[|jobs| - 1];
      TickedLeavesOthers(d, init, now, name);
      var u, v := Ticked(d, init, now), Ticked(d, jobs, now);
      if v.queue != u.queue {
        assert v.queue[..|u.queue|] == u.queue;
        QueueGrows(u, v, name);
      }
    }
  }

  /** One tick queues a job exactly when it is due, not busy, and not missed by more than the grace time. */
  lemma {:induction false} TickQueuesExactlyTheDue(d: State, jobs: seq<Job>, now: Time, k: nat)
    requires UniqueNames(jobs) && k < |jobs| && !d.Busy(jobs[k].name)
    ensures Ticked(d, jobs, now).Queued(jobs[k].name) <==> DueNow(d, jobs[k], now)
    decreases |jobs|
  {
    var init, job := jobs[..|jobs| - 1], jobs[|jobs| - 1];
    var u, v := Ticked(d, init, now), Ticked(d, jobs, now);
    var name := jobs[k].name;
    if k < |init| {
      TickQueuesExactlyTheDue(d, init, now, k);
      assert job.name != name;
    } else {
      TickedLeavesOthers(d, init, now, name);
    }
    if v.queue != u.queue {
      assert v.queue[..|u.queue|] == u.queue;
      QueueGrows(u, v, name);
    }
  }

  /** Whatever the tick queues for a recorded job, its last run is a whole slot-day or interval away. */
  lemma TickRespectsReference(s: System, job: Job)
    requires Inv(s) && Enabled(s, RunTick) && job in s.d.cfg && job.name !in s.d.log.stale
    requires DueNow(s.d, job, s.tickNow.value)
    ensures match job.Rule()
            case Every(step) => s.d.Reference(job.name).Some? ==> s.d.Reference(job.name).value + step <= s.tickNow.value
            case DailyAt(offset) => s.d.Reference(job.name).Some? ==>
              SlotDay(offset, s.d.Reference(job.name).value) < SlotDay(offset, s.tickNow.value)
            case Never => true
  {
    DueIsClear(s, job, s.tickNow.value);
  }

  // ------------------------------------------------------------ nothing is lost

  lemma AcceptedRule(job: Job)
    requires job.ScheduleAccepted()
    ensures job.Rule().Never? <==> job.scheduleType == "manual"
  {
    ModesByName();
    if job.scheduleType == "daily" {
      AcceptedTimeParses(job.scheduleTime);
    }
  }

  lemma {:induction false} TickedKeepsFlag(d: State, jobs: seq<Job>, now: Time)
    ensures Ticked(d, jobs, now).shuttingDown == d.shuttingDown
    ensures Ticked(d, jobs, now).log.dropped == d.log.dropped
    decreases |jobs|
  {
    if jobs != [] {
      TickedKeepsFlag(d, jobs[..|jobs| - 1], now);
    }
  }

  /** Nothing is dropped as long as the daemon is not shutting down. */
  lemma {:induction false} NothingIsDroppedBefore(run: seq<System>, actions: seq<Action>, k: nat)
    requires IsRun(run, actions) && k < |run|
    ensures !run[k].d.shuttingDown ==> run[k].d.log.dropped == {}
    decreases k
  {
    if k > 0 {
      NothingIsDroppedBefore(run, actions, k - 1);
      var s, a := run[k - 1], actions[k - 1];
      if a.RunTick? {
        TickedKeepsFlag(s.d, s.d.cfg, s.tickNow.value);
      } else if a.CancelItem? {
        CancelCases(s.d, a.id, s.clock);
      }
    }
  }

  /**
    In every state of every run, shutting down or not, a recorded job with a schedule has a next run or a
    backup under way, unless shutting down has dropped a queued backup of this very job.
   */
  lemma NoScheduleIsLost(run: seq<System>, actions: seq<Action>, k: nat, job: Job)
    requires IsRun(run, actions) && k < |run|
    requires job in run[k].d.cfg && job.scheduleType != "manual" && job.name !in run[k].d.log.stale
    ensures run[k].d.Next(job.name).Some? || run[k].d.Busy(job.name) || WasDropped(run[k].d, job.name)
    ensures !run[k].d.shuttingDown ==> !WasDropped(run[k].d, job.name)
  {
    NothingIsDroppedBefore(run, actions, k);
    RunInv(run, actions, k);
    AcceptedRule(job);
    assert NotLost(run[k], job);
  }

  predicate Forgotten(d: State, name: string) {
    d.Next(name).None? && !d.Busy(name)
  }

  /** Emptying the queue leaves a job forgotten exactly when no run is planned for it and it is not running. */
  lemma ClearQueueForgetsJob(d: State, name: string)
    ensures Forgotten(ClearQueue(d), name) <==> d.Next(name).None? && !d.Running(name)
  {
    assert ClearQueue(d).Running(name) == d.Running(name);
  }

  /** A backup that ends without `_finish_backup` leaves its job forgotten exactly when no run was planned meanwhile. */
  lemma UnrecordedEndForgetsJob(s: System)
    requires Inv(s) && Enabled(s, Fail) && !s.worker.Done? && s.d.current.value.kind == Backup
    ensures Forgotten(Apply(s, Fail).d, s.d.current.value.job) <==> s.d.Next(s.d.current.value.job).None?
    ensures s.d.current.value.job in Apply(s, Fail).d.log.stale
  {
    var name := s.d.current.value.job;
    assert s.d.Running(name);
  }

  lemma {:induction false} TickedForgets(d: State, jobs: seq<Job>, now: Time, name: string)
    requires Forgotten(d, name)
    ensures Forgotten(Ticked(d, jobs, now), name)
    decreases |jobs|
  {
    if jobs != [] {
      var init := jobs[..|jobs| - 1];
      TickedForgets(d, init, now, name);
      var u, v := Ticked(d, init, now), Ticked(d, jobs, now);
      if v.queue != u.queue {
        assert v.queue[..|u.queue|] == u.queue;
        QueueGrows(u, v, name);
      }
    }
  }

  lemma SubmitForgets(s: System, kind: Kind, job: string, name: string)
    requires Forgotten(s.d, name) && (kind != Backup || job != name)
    ensures Forgotten(Apply(s, Submit(kind, job)).d, name)
  {
    if kind != Backup || !s.d.Busy(job) {
      var d' := Accept(s.d, kind, job, ByUser, 0, Never);
      assert d'.queue[..|s.d.queue|] == s.d.queue;
      QueueGrows(s.d, d', name);
    }
  }

  lemma CancelForgets(s: System, id: Option<nat>, name: string)
    requires Forgotten(s.d, name)
    ensures Forgotten(Apply(s, CancelItem(id)).d, name)
  {
    CancelCases(s.d, id, s.clock);
    var i := FirstMatch(s.d.queue, id);
    if !(s.d.current.Some? && Means(id, s.d.current.value)) && i < |s.d.queue| {
      assert !s.d.queue[i].BacksUp(name);
      QueueShrinks(s.d, i, name);
      if s.d.queue[i].kind == Backup {
        RecomputedElsewhere(s.d.nextRuns, s.d.cfg, Some(s.d.queue[i].job), s.d.status, s.clock, name);
      }
    }
  }

  lemma FinishForgets(s: System, name: string)
    requires Inv(s) && Enabled(s, RecordFinish) && Forgotten(s.d, name)
    ensures Forgotten(Apply(s, RecordFinish).d, name)
  {
    var u := Recording(s);
    RecomputedElsewhere(u.d.nextRuns, u.d.cfg, Some(s.d.current.value.job), u.d.status, s.clock, name);
  }

  /** And it stays forgotten until the configuration is saved or somebody asks for a backup of the job. */
  lemma ForgottenStaysForgotten(s: System, a: Action, name: string)
    requires Inv(s) && Enabled(s, a) && Forgotten(s.d, name)
    requires !a.Save? && a != Submit(Backup, name)
    ensures Forgotten(Apply(s, a).d, name)
  {
    match a
    case RunTick => TickedForgets(s.d, s.d.cfg, s.tickNow.value, name);
    case Submit(kind, job) => SubmitForgets(s, kind, job, name);
    case CancelItem(id) => CancelForgets(s, id, name);
    case Take => PopBusy(s.d, name);
    case RecordFinish => FinishForgets(s, name);
    case _ =>
  }

  // ------------------------------------------------------------------ the queue

  /** At most one backup of a job is queued or running. */
  lemma OneBackupPerJob(run: seq<System>, actions: seq<Action>, k: nat, name: string)
    requires IsRun(run, actions) && k < |run|
    ensures forall i, j :: 0 <= i < j < |run[k].d.queue| ==>
              !(run[k].d.queue[i].BacksUp(name) && run[k].d.queue[j].BacksUp(name))
    ensures !(run[k].d.Running(name) && run[k].d.Queued(name))
  {
    RunInv(run, actions, k);
  }

  predicate IsCurrent(d: State, id: nat) {
    d.current.Some? && d.current.value.id == id
  }

  /** The worker has let go of the item. */
  predicate HasLeft(d: State, id: nat) {
    id in d.log.started && !IsCurrent(d, id)
  }

  /** Every accepted item is in exactly one place: queued, running, finished, cancelled while queued, or dropped. */
  lemma ItemsAreConserved(run: seq<System>, actions: seq<Action>, k: nat, id: nat)
    requires IsRun(run, actions) && k < |run|
    ensures
      var d := run[k].d;
      Bit(id in Ids(d.queue)) + Bit(IsCurrent(d, id)) + Bit(HasLeft(d, id)) +
      Bit(id in d.log.cancelled) + Bit(id in d.log.dropped) == Bit(id < |d.log.accepted|)
  {
    RunInv(run, actions, k);
    var d := run[k].d;
    assert Places(Ids(d.queue), d.log.started, d.log.cancelled, d.log.dropped, id) == Bit(id < |d.log.accepted|);
  }

  /** Items start in submission order: whatever came before a started item has started or was taken out. */
  lemma StartsInSubmissionOrder(run: seq<System>, actions: seq<Action>, k: nat, j: nat, earlier: nat)
    requires IsRun(run, actions) && k < |run|
    requires j < |run[k].d.log.started| && earlier < run[k].d.log.started[j]
    ensures
      var log := run[k].d.log;
      earlier in log.cancelled || earlier in log.dropped || exists i :: 0 <= i < j && log.started[i] == earlier
  {
    RunInv(run, actions, k);
    var d := run[k].d;
    assert Places(Ids(d.queue), d.log.started, d.log.cancelled, d.log.dropped, earlier) == 1;
    if earlier in d.log.started {
      var i :| 0 <= i < |d.log.started| && d.log.started[i] == earlier;
      assert i < j;
    }
  }

  /** Cancelling the running item only marks it; a queued one is removed and nothing else moves. */
  lemma CancelTouchesOneItem(d: State, id: Option<nat>, now: Time)
    ensures d.current.Some? && Means(id, d.current.value) ==>
              && Cancel(d, id, now).Ok?
              && Cancel(d, id, now).value.queue == d.queue
              && Cancel(d, id, now).value.nextRuns == d.nextRuns
              && Cancel(d, id, now).value.current == Some(d.current.value.(stopped := true))
    ensures !(d.current.Some? && Means(id, d.current.value)) ==>
              (Cancel(d, id, now).Ok? <==> exists i :: 0 <= i < |d.queue| && Means(id, d.queue[i]))
    ensures !(d.current.Some? && Means(id, d.current.value)) && Cancel(d, id, now).Ok? ==>
              exists i :: 0 <= i < |d.queue| && Means(id, d.queue[i])
                && Cancel(d, id, now).value.queue == d.queue[..i] + d.queue[i + 1..]
                && Cancel(d, id, now).value.current == d.current
  {
    CancelCases(d, id, now);
    var i := FirstMatch(d.queue, id);
    assert i < |d.queue| ==> Means(id, d.queue[i]);
  }

  // ------------------------------------------------------- success, as the GUI sees it

  /** The client's test on the two stamps of the status record. */
  predicate SeenAsSuccess(e: Entry) {
    e.lastRunAt.Some? && e.lastSuccessAt.Some? && e.lastRunAt.value <= e.lastSuccessAt.value
  }

  /**
    After a backup the client's test agrees with the daemon's success flag, except when a failed run
    started in the very second in which the previous success was stamped.
   */
  lemma SuccessIsSeen(s: System)
    requires Inv(s) && Enabled(s, RecordFinish)
    ensures
      var name, success := s.d.current.value.job, s.worker.outcome.success;
      var before, after := s.d.Record(name), Apply(s, RecordFinish).d.Record(name);
      (SeenAsSuccess(after) <==> success) <==> (success || before.lastSuccessAt != Some(Stamp(s.worker.started)))
  {
    StampMonotone(s.worker.started, s.worker.finished);
  }

  predicate RecordsSuccess(s: System, a: Action, name: string) {
    a.RecordFinish? && Enabled(s, a) && s.d.current.value.job == name && s.worker.outcome.success
  }

  lemma {:induction false} TickedKeepsStatus(d: State, jobs: seq<Job>, now: Time)
    ensures Ticked(d, jobs, now).status == d.status
    decreases |jobs|
  {
    if jobs != [] {
      TickedKeepsStatus(d, jobs[..|jobs| - 1], now);
    }
  }

  /** In every step of every run, `last_success_at` changes on a recorded success only, to the end of that backup. */
  lemma SuccessStampsTheEnd(s: System, a: Action, name: string)
    requires Enabled(s, a)
    ensures Apply(s, a).d.Record(name).lastSuccessAt ==
            if RecordsSuccess(s, a, name) then Some(Stamp(s.worker.finished)) else s.d.Record(name).lastSuccessAt
  {
    if a.RunTick? {
      TickedKeepsStatus(s.d, s.d.cfg, s.tickNow.value);
    } else if a.CancelItem? {
      CancelCases(s.d, a.id, s.clock);
    }
  }

  /** A stamp that is there stays there and does not go back. */
  predicate NotEarlier(before: Option<Time>, after: Option<Time>) {
    before.Some? ==> after.Some? && before.value <= after.value
  }

  lemma StampAdvances(s: System, a: Action, name: string)
    requires Inv(s) && Enabled(s, a)
    ensures NotEarlier(s.d.Record(name).lastSuccessAt, Apply(s, a).d.Record(name).lastSuccessAt)
  {
    SuccessStampsTheEnd(s, a, name);
    if RecordsSuccess(s, a, name) {
      StampMonotone(s.worker.started, s.worker.finished);
    }
  }

  /** Over every run, `last_success_at` never goes back. */
  lemma {:induction false} LastSuccessNeverDecreases(
    run: seq<System>, actions: seq<Action>, i: nat, j: nat, name: string)
    requires IsRun(run, actions) && i <= j < |run|
    ensures NotEarlier(run[i].d.Record(name).lastSuccessAt, run[j].d.Record(name).lastSuccessAt)
    decreases j
  {
    if i < j {
      LastSuccessNeverDecreases(run, actions, i, j - 1, name);
      RunInv(run, actions, j - 1);
      StampAdvances(run[j - 1], actions[j - 1], name);
    }
  }
}
