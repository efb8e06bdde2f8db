/** Building single runs of a daemon that has one job: the steps from which concrete runs are put together. */
module DaemonReach {
  import opened Wrappers
  import opened Schedule
  import opened DaemonState
  import opened DaemonRuns

  predicate NoFail(actions: seq<Action>) {
    forall i :: 0 <= i < |actions| ==> !actions[i].Fail?
  }

  /** Some run ends in this state; with `recorded`, one in which the worker never fails. */
  ghost predicate Reached(s: System, recorded: bool) {
    exists run, actions :: IsRun(run, actions) && run[|run| - 1] == s && (recorded ==> NoFail(actions))
  }

  lemma InitIsReached(s: System)
    requires Init(s)
    ensures Reached(s, true)
  {
    var actions: seq<Action> := [];
    assert IsRun([s], actions) && NoFail(actions);
  }

  lemma Step(s: System, a: Action, recorded: bool) returns (t: System)
    requires Reached(s, recorded) && Enabled(s, a) && (recorded ==> !a.Fail?)
    ensures Reached(t, recorded) && t == Apply(s, a)
  {
    var run, actions :| IsRun(run, actions) && run[|run| - 1] == s && (recorded ==> NoFail(actions));
    t := Apply(s, a);
    RunGoesOn(run, actions, a);
    assert recorded ==> NoFail(actions + [a]);
  }

  lemma RunGoesOn(run: seq<System>, actions: seq<Action>, a: Action)
    requires IsRun(run, actions) && Enabled(run[|run| - 1], a)
    ensures IsRun(run + [Apply(run[|run| - 1], a)], actions + [a])
  {}

  // ------------------------------------------------- a daemon with one job

  lemma RecomputeOnly(d: State, job: Job, only: Option<string>, now: Time)
    requires d.cfg == [job] && d.nextRuns.Keys <= {job.name} && Selected(only, job.name)
    ensures Recompute(d, only, now) ==
            d.(nextRuns := map[job.name := JobNextRun(job, d.status, now)],
               log := d.log.(stale := if only.None? then {} else d.log.stale - {job.name}))
  {
    RecomputedOnly(d.nextRuns, job, only, d.status, now);
    KeepOnly(d.nextRuns, job.name, JobNextRun(job, d.status, now));
    NamesOnly(job);
  }

  lemma RecomputedOnly(
    next: map<string, Option<Time>>, job: Job, only: Option<string>, status: map<string, Entry>, now: Time)
    requires Selected(only, job.name)
    ensures Recomputed(next, [job], only, status, now) == next[job.name := JobNextRun(job, status, now)]
  {
    assert [job][..0] == [];
  }

  lemma KeepOnly(next: map<string, Option<Time>>, name: string, t: Option<Time>)
    requires next.Keys <= {name}
    ensures Keep(next[name := t], {name}) == map[name := t]
  {}

  lemma NamesOnly(job: Job)
    ensures Names([job]) == {job.name}
  {
    assert job in [job];
  }

  lemma TickOnly(d: State, job: Job, now: Time)
    requires d.cfg == [job] && !d.Busy(job.name)
    requires d.Next(job.name).Some? && d.Next(job.name).value <= now
    requires job.catchupMissed || now - d.Next(job.name).value <= MISSED_GRACE
    ensures Tick(d, now) ==
            Accept(d.(nextRuns := d.nextRuns[job.name := None]), Backup, job.name, BySchedule, now, job.Rule())
  {
    assert d.cfg[..0] == [] && d.cfg[0] == job;
    assert Ticked(d, d.cfg[..0], now) == d;
  }

  /** The daemon has nothing to do. */
  predicate AtRest(s: System, job: Job) {
    && s.d.cfg == [job] && s.d.queue == [] && s.d.current == None && !s.d.shuttingDown
    && s.worker == Idle && s.tickNow == None && s.d.nextRuns.Keys <= {job.name}
  }

  /** Just loaded at time 0, with an empty status file. */
  lemma Loaded(job: Job) returns (s: System)
    requires job.ScheduleAccepted()
    ensures Reached(s, true) && AtRest(s, job) && s.clock == 0
    ensures s.d.Next(job.name) == NextRun(job.Rule(), job.catchupMissed, None, 0)
    ensures s.d.log == Log([], [], {}, {}, [], {}) && s.d.status == map[]
  {
    var empty := State([job], map[], [], None, map[], false, Log([], [], {}, {}, [], {}));
    RecomputeOnly(empty, job, None, 0);
    s := System(Fresh([job], map[], 0), 0, Idle, None);
    InitIsReached(s);
  }

  /** The job's backup is running; what it was queued with is the last accepted entry, its start the last start. */
  predicate Started(s: System, t: System, job: Job, trigger: Trigger, rule: Rule) {
    var n := |s.d.log.accepted|;
    && t.d.cfg == [job] && t.d.queue == [] && !t.d.shuttingDown && t.tickNow == None
    && t.d.current == Some(WorkItem(n, Backup, job.name, trigger, false))
    && t.worker == Running(s.clock) && t.clock == s.clock
    && t.d.log.starts == s.d.log.starts + [Start(n, job.name, s.clock)]
    && |t.d.log.accepted| == n + 1 && t.d.log.accepted[..n] == s.d.log.accepted
    && t.d.log.accepted[n].item.trigger == trigger && t.d.log.accepted[n].rule == rule
    && t.d.log.stale == s.d.log.stale
    && t.d.status == s.d.status[job.name := s.d.Record(job.name).(lastRunAt := Some(Stamp(s.clock)), lastError := "")]
  }

  lemma PopAndStart(s: System, recorded: bool) returns (t: System)
    requires Reached(s, recorded) && s.worker == Idle && s.d.current == None && !s.d.shuttingDown
    requires |s.d.queue| == 1 && s.d.queue[0].kind == Backup
    ensures Reached(t, recorded)
    ensures t == s.(d := BeginRun(Pop(s.d), s.clock), worker := Running(s.clock))
  {
    t := Step(s, Take, recorded);
    t := Step(t, ReadStart, recorded);
    t := Step(t, RecordStart, recorded);
  }

  /** Accepting an item and starting it, put together. */
  lemma QueuedIsStarted(s: System, u: System, t: System, job: Job, trigger: Trigger, at: Time, rule: Rule)
    requires AtRest(s, job) && u == s.(d := Accept(s.d, Backup, job.name, trigger, at, rule))
    requires t == u.(d := BeginRun(Pop(u.d), u.clock), worker := Running(u.clock))
    ensures Started(s, t, job, trigger, rule) && t.d.nextRuns == s.d.nextRuns
  {}

  lemma StartByHand(s: System, job: Job, recorded: bool) returns (t: System)
    requires Reached(s, recorded) && AtRest(s, job)
    ensures Reached(t, recorded) && Started(s, t, job, ByUser, Never) && t.d.nextRuns == s.d.nextRuns
  {
    var u := Step(s, Submit(Backup, job.name), recorded);
    t := PopAndStart(u, recorded);
    QueuedIsStarted(s, u, t, job, ByUser, 0, Never);
  }

  lemma StartByTick(s: System, job: Job, recorded: bool) returns (t: System)
    requires Reached(s, recorded) && AtRest(s, job)
    requires s.d.Next(job.name).Some? && s.d.Next(job.name).value <= s.clock
    requires job.catchupMissed || s.clock - s.d.Next(job.name).value <= MISSED_GRACE
    ensures Reached(t, recorded) && Started(s, t, job, BySchedule, job.Rule()) && t.d.nextRuns.Keys <= {job.name}
  {
    var u := Step(s, ReadTick, recorded);
    TickOnly(u.d, job, s.clock);
    u := Step(u, RunTick, recorded);
    t := PopAndStart(u, recorded);
    QueuedIsStarted(s.(d := s.d.(nextRuns := s.d.nextRuns[job.name := None])), u, t, job, BySchedule, s.clock, job.Rule());
  }

  /** The running backup ends at once and is recorded. */
  lemma FinishNow(s: System, job: Job, outcome: Outcome, recorded: bool) returns (t: System)
    requires Reached(s, recorded) && s.d.cfg == [job] && s.d.nextRuns.Keys <= {job.name} && s.tickNow == None
    requires s.d.queue == [] && !s.d.shuttingDown
    requires s.d.current.Some? && s.d.current.value.BacksUp(job.name) && s.worker.Running?
    ensures Reached(t, recorded) && AtRest(t, job) && t.clock == s.clock
    ensures t.d.status == s.d.status[job.name := Finished(s.d.Record(job.name), s.clock, outcome)]
    ensures t.d.Next(job.name) == JobNextRun(job, t.d.status, s.clock)
    ensures t.d.log.starts == s.d.log.starts && t.d.log.accepted == s.d.log.accepted
  {
    t := Step(s, ReadFinish(outcome), recorded);
    var d := t.d.(status := t.d.status[job.name := Finished(t.d.Record(job.name), s.clock, outcome)]);
    RecomputeOnly(d, job, Some(job.name), s.clock);
    t := Step(t, RecordFinish, recorded);
    t := Step(t, Return, recorded);
  }
}
