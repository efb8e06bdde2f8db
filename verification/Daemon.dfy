/** The `Daemon` object of borg_daemon.py: each method is one lock region, updating the fields in place. */
module Daemon {
  import opened Wrappers
  import opened Schedule
  import D = DaemonState
  import opened DaemonMeaning
  import opened DaemonRuns

  class Daemon {
    var cfg: seq<D.Job>
    var status: map<string, D.Entry>
    var queue: seq<D.WorkItem>
    var current: Option<D.WorkItem>
    var nextRuns: map<string, Option<Time>>
    var shuttingDown: bool
    var nextId: nat
    ghost var log: D.Log

    ghost predicate Valid()
      reads this
    {
      nextId == |log.accepted|
    }

    ghost function View(): D.State
      reads this
    {
      D.State(cfg, status, queue, current, nextRuns, shuttingDown, log)
    }

    constructor (cfg: seq<D.Job>, status: map<string, D.Entry>, now: Time)
      ensures Valid() && View() == D.Fresh(cfg, status, now)
    {
      this.cfg, this.status, this.queue, this.current := cfg, status, [], None;
      this.nextRuns, this.shuttingDown, this.nextId := map[], false, 0;
      this.log := D.Log([], [], {}, {}, [], {});
      new;
      RecomputeSchedule(None, now);
    }

    predicate JobBusy(name: string)
      reads this
      ensures JobBusy(name) == View().Busy(name)
    {
      (current.Some? && current.value.kind == D.Backup && current.value.job == name)
      || exists item <- queue :: item.kind == D.Backup && item.job == name
    }

    method ComputeJobNextRun(job: D.Job, now: Time) returns (next: Option<Time>)
      ensures next == D.JobNextRun(job, status, now)
    {
      next := ComputeNextRun(
        job.scheduleType, job.scheduleInterval, if job.scheduleTime == "" then "03:15" else job.scheduleTime,
        job.catchupMissed, D.ReferenceIn(status, job.name), now, false);
    }

    method RecomputeSchedule(only: Option<string>, now: Time)
      requires Valid()
      modifies this`nextRuns, this`log
      ensures Valid() && View() == D.Recompute(old(View()), only, now)
    {
      var names: set<string> := {};
      for i := 0 to |cfg|
        invariant names == D.Names(cfg[..i])
        invariant nextRuns == D.Recomputed(old(nextRuns), cfg[..i], only, status, now)
        invariant log == old(log)
      {
        assert cfg[..i + 1] == cfg[..i] + [cfg[i]];
        D.OneJobMore(old(nextRuns), cfg[..i], cfg[i], only, status, now);
        names := names + {cfg[i].name};
        RecomputeJob(cfg[i], only, now);
      }
      assert cfg[..|cfg|] == cfg;
      DropUnknown(names);
      log := log.(stale := if only.None? then {} else log.stale - {only.value});
    }

    method RecomputeJob(job: D.Job, only: Option<string>, now: Time)
      modifies this`nextRuns
      ensures nextRuns == if D.Selected(only, job.name)
                          then old(nextRuns)[job.name := D.JobNextRun(job, status, now)] else old(nextRuns)
    {
      if only.None? || only.value == job.name {
        var next := ComputeJobNextRun(job, now);
        nextRuns := nextRuns[job.name := next];
      }
    }

    /** The last loop of `recompute_schedule`: forget the names that are not configured. */
    method DropUnknown(names: set<string>)
      modifies this`nextRuns
      ensures nextRuns == D.Keep(old(nextRuns), names)
    {
      var unknown := nextRuns.Keys - names;
      ghost var gone := unknown;
      while unknown != {}
        invariant unknown <= gone
        invariant nextRuns == old(nextRuns) - (gone - unknown)
        decreases unknown
      {
        var name :| name in unknown;
        nextRuns := nextRuns - {name};
        unknown := unknown - {name};
      }
    }

    method Append(kind: D.Kind, job: string, trigger: D.Trigger, ghost at: Time, ghost rule: Rule)
      returns (item: D.WorkItem)
      requires Valid()
      modifies this`queue, this`log, this`nextId
      ensures Valid() && View() == D.Accept(old(View()), kind, job, trigger, at, rule)
      ensures queue == old(queue) + [item] && item.id == old(nextId) && item.BacksUp(job) == (kind == D.Backup)
    {
      item := D.WorkItem(nextId, kind, job, trigger, false);
      nextId := nextId + 1;
      queue := queue + [item];
      log := log.(accepted := log.accepted + [D.Accepted(item, at, rule, job !in log.stale)]);
    }

    /** Queues the due jobs and returns their names. */
    method SchedulerTick(now: Time) returns (queued: seq<string>)
      requires Valid()
      modifies this`queue, this`nextRuns, this`log, this`nextId
      ensures Valid() && View() == D.Tick(old(View()), now)
      ensures |old(queue)| <= |queue| && queue[..|old(queue)|] == old(queue)
      ensures |queued| == |queue| - |old(queue)|
      ensures forall i :: 0 <= i < |queued| ==> queue[|old(queue)| + i].BacksUp(queued[i])
      ensures UniqueNames(cfg) ==>
                forall k :: 0 <= k < |cfg| ==> TickPlan(old(View()), cfg[k], now, View().Next(cfg[k].name))
    {
      queued := [];
      for i := 0 to |cfg|
        invariant Valid() && View() == D.Ticked(old(View()), cfg[..i], now)
        invariant |queue| == |old(queue)| + |queued|
        invariant queue[..|old(queue)|] == old(queue)
        invariant forall k :: 0 <= k < |queued| ==> queue[|old(queue)| + k].BacksUp(queued[k])
      {
        assert cfg[..i + 1][..i] == cfg[..i] && cfg[..i + 1][i] == cfg[i];
        ghost var before := queue;
        var due := TickJob(cfg[i], now);
        if due {
          queued := queued + [cfg[i].name];
        }
        assert queue[..|before|] == before;
      }
      assert cfg[..|cfg|] == cfg;
      TickPlansAll(old(View()), cfg, now);
    }

    /** The body of the loop of `scheduler_tick`. */
    method TickJob(job: D.Job, now: Time) returns (due: bool)
      requires Valid()
      modifies this`queue, this`nextRuns, this`log, this`nextId
      ensures Valid() && View() == D.TickJob(old(View()), job, now)
      ensures !due ==> queue == old(queue)
      ensures due ==> |queue| == |old(queue)| + 1 && queue[..|old(queue)|] == old(queue)
      ensures due ==> queue[|old(queue)|].BacksUp(job.name)
    {
      var next := if job.name in nextRuns then nextRuns[job.name] else None;
      if next.None? || now < next.value {
        return false;
      }
      if JobBusy(job.name) {
        return false;
      }
      if !job.catchupMissed && now - next.value > D.MISSED_GRACE {
        nextRuns := nextRuns[job.name := D.JobNextRun(job, status, now + SECOND)];
        return false;
      }
      nextRuns := nextRuns[job.name := None];
      var item := Append(D.Backup, job.name, D.BySchedule, now, job.Rule());
      return true;
    }

    method Enqueue(kind: D.Kind, job: string) returns (r: Result<nat, D.Refusal>)
      requires Valid()
      modifies this`queue, this`log, this`nextId
      ensures Valid()
      ensures match D.Enqueue(old(View()), kind, job)
              case Ok(s) => View() == s && r == Ok(old(nextId))
              case Err(e) => View() == old(View()) && r == Err(e)
    {
      if kind == D.Backup && JobBusy(job) {
        return Err(D.IsBusy);
      }
      var item := Append(kind, job, D.ByUser, 0, Never);
      return Ok(item.id);
    }

    /** Stops the running item or removes a queued one; `None` is the empty id. */
    method Cancel(id: Option<nat>, now: Time) returns (r: Result<nat, D.Refusal>)
      requires Valid()
      modifies this`current, this`queue, this`nextRuns, this`log
      ensures Valid()
      ensures match D.Cancel(old(View()), id, now)
              case Ok(s) => View() == s && r.Ok? && (id.Some? ==> r.value == id.value)
              case Err(e) => View() == old(View()) && r == Err(e)
    {
      if current.Some? && (id.None? || current.value.id == id.value) {
        current := Some(current.value.(stopped := true));
        return Ok(current.value.id);
      }
      for i := 0 to |queue|
        invariant View() == old(View()) && Valid()
        invariant forall j :: 0 <= j < i ==> !D.Means(id, queue[j])
      {
        var item := queue[i];
        if D.Means(id, item) {
          D.FirstMatchIs(queue, id, i);
          queue := queue[..i] + queue[i + 1..];
          log := log.(cancelled := log.cancelled + {item.id});
          if item.kind == D.Backup {
            RecomputeSchedule(Some(item.job), now);
          }
          return Ok(item.id);
        }
      }
      D.FirstMatchIs(queue, id, |queue|);
      return Err(D.NotFound);
    }

    /** The worker takes the oldest item. */
    method Pop() returns (item: D.WorkItem)
      requires Valid() && queue != [] && !shuttingDown
      modifies this`queue, this`current, this`log
      ensures Valid() && View() == D.Pop(old(View())) && item == old(queue)[0]
    {
      item := queue[0];
      queue := queue[1..];
      current := Some(item);
      log := log.(started := log.started + [item.id]);
    }

    method BeginRun(started: Time)
      requires Valid() && current.Some?
      modifies this`status, this`log
      ensures Valid() && View() == D.BeginRun(old(View()), started)
    {
      var item := current.value;
      var entry := D.RecordIn(status, item.job);
      status := status[item.job := entry.(lastRunAt := Some(Stamp(started)), lastError := "")];
      log := log.(starts := log.starts + [D.Start(item.id, item.job, started)]);
    }

    method FinishBackup(finished: Time, outcome: D.Outcome, now: Time)
      requires Valid() && current.Some?
      modifies this`status, this`nextRuns, this`log
      ensures Valid() && View() == D.Finish(old(View()), finished, outcome, now)
    {
      var name := current.value.job;
      var entry := D.RecordIn(status, name);
      entry := entry.(lastExitCode := Some(outcome.exitCode), lastError := outcome.error);
      if outcome.success {
        entry := entry.(lastSuccessAt := Some(Stamp(finished)));
      }
      status := status[name := entry];
      RecomputeSchedule(Some(name), now);
    }

    method Leave(ghost recorded: bool)
      requires Valid() && current.Some?
      modifies this`current, this`log
      ensures Valid() && View() == D.Leave(old(View()), recorded)
    {
      log := log.(stale := if current.value.kind == D.Backup && !recorded then log.stale + {current.value.job}
                           else log.stale);
      current := None;
    }

    method SaveConfig(merged: seq<D.Job>, now: Time)
      requires Valid()
      modifies this`cfg, this`nextRuns, this`log
      ensures Valid() && View() == D.SaveConfig(old(View()), merged, now)
    {
      cfg := merged;
      RecomputeSchedule(None, now);
    }

    /** `shutdown`, before the lock is taken. */
    method RaiseFlag()
      requires Valid()
      modifies this`shuttingDown
      ensures Valid() && View() == D.RaiseFlag(old(View()))
    {
      shuttingDown := true;
    }

    /** Its lock region; returns the item to stop. */
    method ClearQueue() returns (running: Option<D.WorkItem>)
      requires Valid()
      modifies this`queue, this`log
      ensures Valid() && View() == D.ClearQueue(old(View()))
      ensures running == current
    {
      running := current;
      log := log.(dropped := log.dropped + D.Ids(queue));
      queue := [];
    }

    /** And after it: the stop event is set, whether or not the item is still running. */
    method StopItem(item: D.WorkItem)
      requires Valid()
      modifies this`current
      ensures Valid() && View() == D.StopItem(old(View()), item.id)
    {
      if current.Some? && current.value.id == item.id {
        current := Some(current.value.(stopped := true));
      }
    }
  }
}
