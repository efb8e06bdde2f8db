/**
  The shared state of the daemon as a value, and what each of its lock regions does to it.
  Class `Daemon.Daemon` performs these operations in place; module `DaemonRuns` interleaves them.
 */
module DaemonState {
  import opened Wrappers
  import opened Schedule
  import Text

  const MISSED_GRACE: Time := 10 * MINUTE

  datatype Kind = Backup | Extract | Delete | InitRepo
  datatype Trigger = ByUser | BySchedule

  datatype Job = Job(
    name: string, scheduleType: string, scheduleInterval: int, scheduleTime: string, catchupMissed: bool)
  {
    function Rule(): (r: Rule)
      ensures r.Valid()
    {
      RuleOf(scheduleType, scheduleInterval, if scheduleTime == "" then "03:15" else scheduleTime)
    }

    /** The checks of `validate_system_config` that concern the schedule. */
    predicate ScheduleAccepted() {
      && (scheduleType == "manual" || scheduleType == "interval" || scheduleType == "daily")
      && (scheduleType == "daily" ==> MatchesTime(scheduleTime))
    }
  }

  /** A work item; its `id` is fresh for every accepted item. */
  datatype WorkItem = WorkItem(id: nat, kind: Kind, job: string, trigger: Trigger, stopped: bool) {
    predicate BacksUp(name: string) {
      kind == Backup && job == name
    }
  }

  /** The status record of one job; its stamps are whole seconds. */
  datatype Entry = Entry(
    lastRunAt: Option<Time>, lastSuccessAt: Option<Time>, lastExitCode: Option<int>, lastError: string)

  const NO_ENTRY := Entry(None, None, None, "")

  datatype Outcome = Outcome(exitCode: int, error: string, success: bool)

  /** An accepted item and, for a scheduled one, when and under which rule the tick queued it. */
  datatype Accepted = Accepted(item: WorkItem, at: Time, rule: Rule, clean: bool)

  datatype Start = Start(id: nat, job: string, time: Time)

  /**
    What happened so far. `started` lists popped items, `starts` the backups that recorded a start,
    `stale` the jobs whose last backup left the worker without `_finish_backup` and whose schedule
    has not been recomputed since.
   */
  datatype Log = Log(
    accepted: seq<Accepted>, started: seq<nat>, cancelled: set<nat>, dropped: set<nat>,
    starts: seq<Start>, stale: set<string>)

  datatype State = State(
    cfg: seq<Job>, status: map<string, Entry>, queue: seq<WorkItem>, current: Option<WorkItem>,
    nextRuns: map<string, Option<Time>>, shuttingDown: bool, log: Log)
  {
    predicate Queued(name: string) {
      exists i :: 0 <= i < |queue| && queue[i].BacksUp(name)
    }

    predicate Running(name: string) {
      current.Some? && current.value.BacksUp(name)
    }

    /** `_job_busy` */
    predicate Busy(name: string) {
      Running(name) || Queued(name)
    }

    function Next(name: string): Option<Time> {
      if name in nextRuns then nextRuns[name] else None
    }

    function Record(name: string): Entry {
      RecordIn(status, name)
    }

    function Reference(name: string): Option<Time> {
      ReferenceIn(status, name)
    }
  }

  function RecordIn(status: map<string, Entry>, name: string): Entry {
    if name in status then status[name] else NO_ENTRY
  }

  /** `_reference_time`: the later of the last success and the last start. */
  function ReferenceIn(status: map<string, Entry>, name: string): Option<Time> {
    var e := RecordIn(status, name);
    match (e.lastSuccessAt, e.lastRunAt)
    case (Some(a), Some(b)) => Some(if a >= b then a else b)
    case (Some(a), None) => Some(a)
    case (None, b) => b
  }

  // ----------------------------------------------------------------- scheduling

  /** `compute_job_next_run` */
  function JobNextRun(job: Job, status: map<string, Entry>, now: Time): Option<Time> {
    NextRun(job.Rule(), job.catchupMissed, ReferenceIn(status, job.name), now)
  }

  function Names(jobs: seq<Job>): set<string> {
    set job | job in jobs :: job.name
  }

  predicate Selected(only: Option<string>, name: string) {
    only.None? || only.value == name
  }

  /** `next_runs` after the loop of `recompute_schedule` has passed over `jobs`. */
  function Recomputed(
    next: map<string, Option<Time>>, jobs: seq<Job>, only: Option<string>, status: map<string, Entry>, now: Time)
    : map<string, Option<Time>>
  {
    if jobs == [] then next
    else
      var rest := Recomputed(next, jobs[..|jobs| - 1], only, status, now);
      var job := jobs[|jobs| - 1];
      if Selected(only, job.name) then rest[job.name := JobNextRun(job, status, now)] else rest
  }

  lemma OneJobMore(
    next: map<string, Option<Time>>, jobs: seq<Job>, job: Job, only: Option<string>, status: map<string, Entry>,
    now: Time)
    ensures Names(jobs + [job]) == Names(jobs) + {job.name}
    ensures
      var rest := Recomputed(next, jobs, only, status, now);
      Recomputed(next, jobs + [job], only, status, now) ==
      if Selected(only, job.name) then rest[job.name := JobNextRun(job, status, now)] else rest
  {
    assert (jobs + [job])[..|jobs|] == jobs;
  }

  function Keep(next: map<string, Option<Time>>, names: set<string>): map<string, Option<Time>> {
    map name | name in next && name in names :: next[name]
  }

  function Recompute(s: State, only: Option<string>, now: Time): State {
    var next := Recomputed(s.nextRuns, s.cfg, only, s.status, now);
    var stale := if only.None? then {} else s.log.stale - {only.value};
    s.(nextRuns := Keep(next, Names(s.cfg)), log := s.log.(stale := stale))
  }

  function Accept(s: State, kind: Kind, job: string, trigger: Trigger, at: Time, rule: Rule): State {
    var item := WorkItem(|s.log.accepted|, kind, job, trigger, false);
    s.(queue := s.queue + [item],
       log := s.log.(accepted := s.log.accepted + [Accepted(item, at, rule, job !in s.log.stale)]))
  }

  /** The body of `scheduler_tick` for one job. */
  function TickJob(s: State, job: Job, now: Time): State {
    var due := s.Next(job.name);
    if due.None? || now < due.value then s
    else if s.Busy(job.name) then s
    else if !job.catchupMissed && now - due.value > MISSED_GRACE then
      s.(nextRuns := s.nextRuns[job.name := JobNextRun(job, s.status, now + SECOND)])
    else
      Accept(s.(nextRuns := s.nextRuns[job.name := None]), Backup, job.name, BySchedule, now, job.Rule())
  }

  function Ticked(s: State, jobs: seq<Job>, now: Time): State {
    if jobs == [] then s else TickJob(Ticked(s, jobs[..|jobs| - 1], now), jobs[|jobs| - 1], now)
  }

  function Tick(s: State, now: Time): State {
    Ticked(s, s.cfg, now)
  }

  // --------------------------------------------------------------- queue, worker

  datatype Refusal = IsBusy | NotFound

  function Enqueue(s: State, kind: Kind, job: string): Result<State, Refusal> {
    if kind == Backup && s.Busy(job) then Err(IsBusy) else Ok(Accept(s, kind, job, ByUser, 0, Never))
  }

  predicate Means(id: Option<nat>, item: WorkItem) {
    id.None? || item.id == id.value
  }

  /** Position of the first queued item that `cancel` with this id means, or the queue's length. */
  function FirstMatch(queue: seq<WorkItem>, id: Option<nat>): (i: nat)
    ensures i <= |queue|
    ensures i < |queue| ==> Means(id, queue[i])
    ensures forall j :: 0 <= j < i ==> !Means(id, queue[j])
  {
    if queue == [] || Means(id, queue[0]) then 0 else 1 + FirstMatch(queue[1..], id)
  }

  lemma FirstMatchIs(queue: seq<WorkItem>, id: Option<nat>, i: nat)
    requires i <= |queue|
    requires forall j :: 0 <= j < i ==> !Means(id, queue[j])
    requires i < |queue| ==> Means(id, queue[i])
    ensures FirstMatch(queue, id) == i
  {
    var k := FirstMatch(queue, id);
    if k < |queue| {
      assert Means(id, queue[k]);
    }
  }

  function Cancel(s: State, id: Option<nat>, now: Time): Result<State, Refusal> {
    if s.current.Some? && (id.None? || s.current.value.id == id.value) then
      Ok(s.(current := Some(s.current.value.(stopped := true))))
    else
      var i := FirstMatch(s.queue, id);
      if i == |s.queue| then Err(NotFound)
      else
        var item := s.queue[i];
        var t := s.(queue := s.queue[..i] + s.queue[i + 1..],
                    log := s.log.(cancelled := s.log.cancelled + {item.id}));
        Ok(if item.kind == Backup then Recompute(t, Some(item.job), now) else t)
  }

  function Pop(s: State): State
    requires s.queue != []
  {
    s.(queue := s.queue[1..], current := Some(s.queue[0]),
       log := s.log.(started := s.log.started + [s.queue[0].id]))
  }

  /** First lock region of `run_backup`. */
  function BeginRun(s: State, started: Time): State
    requires s.current.Some?
  {
    var item := s.current.value;
    var entry := s.Record(item.job).(lastRunAt := Some(Stamp(started)), lastError := "");
    s.(status := s.status[item.job := entry],
       log := s.log.(starts := s.log.starts + [Start(item.id, item.job, started)]))
  }

  function Finished(entry: Entry, finished: Time, outcome: Outcome): Entry {
    var e := entry.(lastExitCode := Some(outcome.exitCode), lastError := outcome.error);
    if outcome.success then e.(lastSuccessAt := Some(Stamp(finished))) else e
  }

  /** The lock region of `_finish_backup`. */
  function Finish(s: State, finished: Time, outcome: Outcome, now: Time): State
    requires s.current.Some?
  {
    var name := s.current.value.job;
    var t := s.(status := s.status[name := Finished(s.Record(name), finished, outcome)]);
    Recompute(t, Some(name), now)
  }

  /** The worker's `finally`; `recorded` says whether a backup reached `_finish_backup`. */
  function Leave(s: State, recorded: bool): State
    requires s.current.Some?
  {
    var item := s.current.value;
    var lost := item.kind == Backup && !recorded;
    s.(current := None,
       log := s.log.(stale := if lost then s.log.stale + {item.job} else s.log.stale))
  }

  function SaveConfig(s: State, cfg: seq<Job>, now: Time): State {
    Recompute(s.(cfg := cfg), None, now)
  }

  function Ids(queue: seq<WorkItem>): set<nat> {
    set i | 0 <= i < |queue| :: queue[i].id
  }

  /** `shutdown` sets the flag before it takes the lock. */
  function RaiseFlag(s: State): State {
    s.(shuttingDown := true)
  }

  /** The lock region of `shutdown`. */
  function ClearQueue(s: State): State {
    s.(queue := [], log := s.log.(dropped := s.log.dropped + Ids(s.queue)))
  }

  /** After the lock region, `shutdown` stops the item that was running then. */
  function StopItem(s: State, id: nat): State {
    if s.current.Some? && s.current.value.id == id then s.(current := Some(s.current.value.(stopped := true))) else s
  }

  function Fresh(cfg: seq<Job>, status: map<string, Entry>, now: Time): State {
    Recompute(State(cfg, status, [], None, map[], false, Log([], [], {}, {}, [], {})), None, now)
  }
}
