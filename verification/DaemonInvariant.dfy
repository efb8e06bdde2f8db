/** What every action of the daemon keeps, one concern at a time. */
module DaemonInvariant {
  import opened Wrappers
  import opened Schedule
  import opened DaemonState
  import opened DaemonRuns

  // ------------------------------------------------------------------- the parts

  /** The worker holds an item exactly when `current` is set; only a backup passes the later stations. */
  predicate Shape(s: System) {
    && (s.worker.Idle? <==> s.d.current.None?)
    && (!s.worker.Idle? && !s.worker.Popped? ==> s.d.current.value.kind == Backup)
  }

  /** No second backup of a job beside one that is queued or running. */
  predicate OneBackup(d: State) {
    && (forall i, j :: 0 <= i < j < |d.queue| && d.queue[i].kind == Backup && d.queue[j].kind == Backup ==>
          d.queue[i].job != d.queue[j].job)
    && (forall i :: 0 <= i < |d.queue| && d.queue[i].kind == Backup ==> !d.Running(d.queue[i].job))
  }

  predicate StartsBy(d: State, t: Time) {
    forall p :: 0 <= p < |d.log.starts| ==> d.log.starts[p].time <= t
  }

  ghost predicate StatusBy(d: State, t: Time) {
    forall name :: name in d.status ==> RecordBy(d.status[name], t)
  }

  predicate WorkerClock(s: System) {
    match s.worker
    case Stamped(t) =>
      s.d.current.Some? && t <= s.clock && StartsBy(s.d, t) && RecordBy(s.d.Record(s.d.current.value.job), t)
    case Running(t) => Recorded(s, t) && t <= s.clock
    case Finishing(t, f, _) => Recorded(s, t) && t <= f <= s.clock
    case _ => true
  }

  predicate Recorded(s: System, t: Time) {
    && s.d.current.Some?
    && StartsBy(s.d, t)
    && RecordBy(s.d.Record(s.d.current.value.job), t)
    && s.d.Record(s.d.current.value.job).lastRunAt == Some(Stamp(t))
  }

  ghost predicate Clocked(s: System) {
    && (s.tickNow.Some? ==> s.tickNow.value <= s.clock)
    && StatusBy(s.d, s.clock)
    && StartsBy(s.d, s.clock)
    && WorkerClock(s)
  }

  function Bit(b: bool): nat {
    if b then 1 else 0
  }

  /** In how many of the four places an accepted item is. */
  function Places(queued: set<nat>, started: seq<nat>, cancelled: set<nat>, dropped: set<nat>, id: nat): nat {
    Bit(id in queued) + Bit(id in started) + Bit(id in cancelled) + Bit(id in dropped)
  }

  predicate Increasing(ids: seq<nat>) {
    forall i, j :: 0 <= i < j < |ids| ==> ids[i] < ids[j]
  }

  predicate AcceptedInOrder(d: State) {
    forall k :: 0 <= k < |d.log.accepted| ==> d.log.accepted[k].item.id == k && !d.log.accepted[k].item.stopped
  }

  predicate Genuine(d: State, item: WorkItem) {
    item.id < |d.log.accepted| && d.log.accepted[item.id].item == item
  }

  predicate QueueInOrder(d: State) {
    && (forall i :: 0 <= i < |d.queue| ==> Genuine(d, d.queue[i]))
    && (forall i, j :: 0 <= i < j < |d.queue| ==> d.queue[i].id < d.queue[j].id)
  }

  predicate StartedInOrder(d: State) {
    && Increasing(d.log.started)
    && (forall i :: 0 <= i < |d.log.started| ==> d.log.started[i] < |d.log.accepted|)
    && (forall i, k :: 0 <= i < |d.log.started| && 0 <= k < |d.queue| ==> d.log.started[i] < d.queue[k].id)
  }

  predicate CurrentIsLastStarted(d: State) {
    d.current.Some? ==>
      && d.log.started != []
      && d.log.started[|d.log.started| - 1] == d.current.value.id
      && Genuine(d, d.current.value.(stopped := false))
  }

  /** Every accepted item is in exactly one place, and nothing else is anywhere. */
  ghost predicate OnePlace(accepted: nat, queued: set<nat>, started: seq<nat>, cancelled: set<nat>, dropped: set<nat>) {
    forall id: nat :: Places(queued, started, cancelled, dropped, id) == Bit(id < accepted)
  }

  /** Conservation and order of the items. */
  ghost predicate Ledger(d: State) {
    && AcceptedInOrder(d) && QueueInOrder(d) && StartedInOrder(d) && CurrentIsLastStarted(d)
    && OnePlace(|d.log.accepted|, Ids(d.queue), d.log.started, d.log.cancelled, d.log.dropped)
  }

  /** A backup of this job has recorded its start and not yet its end. */
  predicate Active(s: System, name: string) {
    (s.worker.Running? || s.worker.Finishing?) && s.d.Running(name)
  }

  predicate ClearOfReference(d: State, job: string, rule: Rule, t: Time) {
    d.Reference(job).Some? ==> Clear(rule, d.Reference(job).value, t)
  }

  /** The planned run of a job is clear of the run it was computed from. */
  predicate PlannedClear(s: System, job: Job) {
    job.name !in s.d.log.stale && !Active(s, job.name) && s.d.Next(job.name).Some? ==>
      ClearOfReference(s.d, job.name, job.Rule(), s.d.Next(job.name).value)
  }

  /** Shutting down has thrown away a queued backup of this job. */
  predicate WasDropped(d: State, name: string) {
    exists k :: 0 <= k < |d.log.accepted| && k in d.log.dropped && d.log.accepted[k].item.BacksUp(name)
  }

  /**
    The job will be looked at again, by the tick or at the end of a backup still to be recorded, unless
    its queued backup was thrown away.
   */
  predicate NotLost(s: System, job: Job) {
    job.name !in s.d.log.stale && !job.Rule().Never? ==>
      || s.d.Next(job.name).Some? || s.d.Queued(job.name) || (s.d.Running(job.name) && !s.worker.Done?)
      || WasDropped(s.d, job.name)
  }

  ghost predicate Scheduled(s: System) {
    && ConfigAccepted(s.d.cfg)
    && (forall job :: job in s.d.cfg ==> PlannedClear(s, job) && NotLost(s, job))
  }

  /** A queued scheduled backup is still clear of its job's reference. */
  predicate StillClear(d: State, item: WorkItem, until: Time) {
    item.trigger == BySchedule ==>
      && item.kind == Backup
      && item.id < |d.log.accepted|
      && var acc := d.log.accepted[item.id];
      acc.rule.Valid() &&
      (acc.clean ==> acc.at <= until && ClearOfReference(d, item.job, acc.rule, acc.at))
  }

  predicate Pending(s: System) {
    && (forall i :: 0 <= i < |s.d.queue| ==> StillClear(s.d, s.d.queue[i], s.clock))
    && (s.d.current.Some? && s.worker.Popped? ==> StillClear(s.d, s.d.current.value, s.clock))
    && (s.d.current.Some? && s.worker.Stamped? ==> StillClear(s.d, s.d.current.value, s.worker.started))
  }

  /** Every recorded start is covered by the reference of its job. */
  predicate Covered(d: State) {
    forall p :: 0 <= p < |d.log.starts| ==>
      && d.log.starts[p].id < |d.log.accepted|
      && d.log.accepted[d.log.starts[p].id].item.job == d.log.starts[p].job
      && d.Reference(d.log.starts[p].job).Some?
      && Stamp(d.log.starts[p].time) <= d.Reference(d.log.starts[p].job).value
  }

  predicate ScheduledCleanly(d: State, id: nat) {
    && id < |d.log.accepted|
    && d.log.accepted[id].item.trigger == BySchedule
    && d.log.accepted[id].clean
  }

  /** Scheduled starts are clear of every earlier start of the same job. */
  predicate Spaced(d: State) {
    forall p, q :: 0 <= p < q < |d.log.starts| ==>
      d.log.starts[p].job == d.log.starts[q].job ==> ScheduledCleanly(d, d.log.starts[q].id) ==>
      && d.log.accepted[d.log.starts[q].id].rule.Valid()
      && Clear(d.log.accepted[d.log.starts[q].id].rule, Stamp(d.log.starts[p].time), d.log.starts[q].time)
  }

  /** Everything that does not concern `next_runs`. */
  ghost predicate Core(s: System) {
    && Shape(s) && OneBackup(s.d) && Clocked(s) && Ledger(s.d)
    && Pending(s) && Covered(s.d) && Spaced(s.d)
  }

  ghost predicate Inv(s: System) {
    Core(s) && Scheduled(s)
  }
}
