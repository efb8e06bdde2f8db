/**
  Scheduler thread, worker thread and control-socket handlers of the daemon, interleaved: every
  action is one lock region of `DaemonState` or one clock read made outside the lock.
 */
module DaemonRuns {
  import opened Wrappers
  import opened Schedule
  import opened DaemonState

  /** Where the worker thread is, with the clock values it holds in local variables. */
  datatype Worker =
    | Idle
    | Popped
    | Stamped(started: Time)
    | Running(started: Time)
    | Finishing(started: Time, finished: Time, outcome: Outcome)
    | Done

  datatype System = System(d: State, clock: Time, worker: Worker, tickNow: Option<Time>)

  datatype Action =
    | Wait(until: Time)
    | ReadTick
    | RunTick
    | Submit(kind: Kind, job: string)
    | CancelItem(id: Option<nat>)
    | Save(cfg: seq<Job>)
    | BeginStop
    | EmptyQueue
    | StopCurrent(item: nat)
    | Take
    | ReadStart
    | RecordStart
    | ReadFinish(outcome: Outcome)
    | RecordFinish
    | Return
    | Fail

  predicate UniqueNames(jobs: seq<Job>) {
    forall i, j :: 0 <= i < j < |jobs| ==> jobs[i].name != jobs[j].name
  }

  /** What `validate_system_config` guarantees about the jobs the scheduler works with. */
  predicate ConfigAccepted(jobs: seq<Job>) {
    UniqueNames(jobs) && forall job :: job in jobs ==> job.ScheduleAccepted()
  }

  predicate WholeBy(stamp: Option<Time>, t: Time) {
    stamp.Some? ==> stamp.value <= t && stamp.value % SECOND == 0
  }

  predicate RecordBy(e: Entry, t: Time) {
    WholeBy(e.lastRunAt, t) && WholeBy(e.lastSuccessAt, t)
  }

  /** A daemon that has just loaded an accepted configuration and a status file without future stamps. */
  ghost predicate Init(s: System) {
    && ConfigAccepted(s.d.cfg)
    && (forall name :: name in s.d.status ==> RecordBy(s.d.status[name], s.clock))
    && s.d == Fresh(s.d.cfg, s.d.status, s.clock)
    && s.worker == Idle && s.tickNow == None
  }

  predicate Enabled(s: System, a: Action) {
    match a
    case Wait(until) => s.clock <= until
    case ReadTick => s.tickNow.None?
    case RunTick => s.tickNow.Some?
    case Submit(_, _) => true
    case CancelItem(_) => true
    case Save(cfg) => ConfigAccepted(cfg)
    case BeginStop => true
    case EmptyQueue => s.d.shuttingDown
    case StopCurrent(_) => s.d.shuttingDown
    case Take => s.worker.Idle? && s.d.current.None? && s.d.queue != [] && !s.d.shuttingDown
    case ReadStart => s.worker.Popped? && s.d.current.Some? && s.d.current.value.kind == Backup
    case RecordStart => s.worker.Stamped? && s.d.current.Some?
    case ReadFinish(_) => s.worker.Running? && s.d.current.Some?
    case RecordFinish => s.worker.Finishing? && s.d.current.Some?
    case Return => s.d.current.Some? && (s.worker.Done? || (s.worker.Popped? && s.d.current.value.kind != Backup))
    case Fail => s.d.current.Some? && !s.worker.Idle?
  }

  function Apply(s: System, a: Action): System
    requires Enabled(s, a)
  {
    match a
    case Wait(until) => s.(clock := until)
    case ReadTick => s.(tickNow := Some(s.clock))
    case RunTick => s.(d := Tick(s.d, s.tickNow.value), tickNow := None)
    case Submit(kind, job) =>
      (match Enqueue(s.d, kind, job)
       case Ok(d) => s.(d := d)
       case Err(_) => s)
    case CancelItem(id) =>
      (match Cancel(s.d, id, s.clock)
       case Ok(d) => s.(d := d)
       case Err(_) => s)
    case Save(cfg) => s.(d := SaveConfig(s.d, cfg, s.clock))
    case BeginStop => s.(d := RaiseFlag(s.d))
    case EmptyQueue => s.(d := ClearQueue(s.d))
    case StopCurrent(id) => s.(d := StopItem(s.d, id))
    case Take => s.(d := Pop(s.d), worker := Popped)
    case ReadStart => s.(worker := Stamped(s.clock))
    case RecordStart => s.(d := BeginRun(s.d, s.worker.started), worker := Running(s.worker.started))
    case ReadFinish(outcome) => s.(worker := Finishing(s.worker.started, s.clock, outcome))
    case RecordFinish =>
      s.(d := Finish(s.d, s.worker.finished, s.worker.outcome, s.clock), worker := Done)
    case Return => s.(d := Leave(s.d, true), worker := Idle)
    case Fail => s.(d := Leave(s.d, s.worker.Done?), worker := Idle)
  }

  /** `run` is a whole execution, `actions[i]` leading from `run[i]` to `run[i + 1]`. */
  ghost predicate IsRun(run: seq<System>, actions: seq<Action>) {
    && |run| == |actions| + 1
    && Init(run[0])
    && forall i :: 0 <= i < |actions| ==> Enabled(run[i], actions[i]) && run[i + 1] == Apply(run[i], actions[i])
  }
}
