/** Every action keeps the invariant. */
module DaemonSteps {
  import opened Wrappers
  import opened Schedule
  import opened DaemonState
  import opened DaemonRuns
  import opened DaemonInvariant

  // --------------------------------------------------------------- next_runs

  lemma {:induction false} RecomputedElsewhere(
    next: map<string, Option<Time>>, jobs: seq<Job>, only: Option<string>, status: map<string, Entry>, now: Time,
    name: string)
    requires Selected(only, name) ==> forall k :: 0 <= k < |jobs| ==> jobs[k].name != name
    ensures name in Recomputed(next, jobs, only, status, now) <==> name in next
    ensures name in next ==> Recomputed(next, jobs, only, status, now)[name] == next[name]
    decreases |jobs|
  {
    if jobs != [] {
      RecomputedElsewhere(next, jobs[..|jobs| - 1], only, status, now, name);
    }
  }

  lemma {:induction false} RecomputedAt(
    next: map<string, Option<Time>>, jobs: seq<Job>, only: Option<string>, status: map<string, Entry>, now: Time,
    k: nat)
    requires k < |jobs| && UniqueNames(jobs) && Selected(only, jobs[k].name)
    ensures
      var r := Recomputed(next, jobs, only, status, now);
      jobs[k].name in r && r[jobs[k].name] == JobNextRun(jobs[k], status, now)
    decreases |jobs|
  {
    var init := jobs[..|jobs| - 1];
    if k < |init| {
      RecomputedAt(next, init, only, status, now, k);
      assert jobs[k].name != jobs[|jobs| - 1].name;
    }
  }

  lemma RecomputeNext(d: State, only: Option<string>, now: Time, job: Job)
    requires UniqueNames(d.cfg) && job in d.cfg
    ensures Recompute(d, only, now).Next(job.name) ==
            if Selected(only, job.name) then JobNextRun(job, d.status, now) else d.Next(job.name)
  {
    assert job.name in Names(d.cfg);
    if Selected(only, job.name) {
      var k :| 0 <= k < |d.cfg| && d.cfg[k] == job;
      RecomputedAt(d.nextRuns, d.cfg, only, d.status, now, k);
    } else {
      RecomputedElsewhere(d.nextRuns, d.cfg, only, d.status, now, job.name);
    }
  }

  lemma JobNextRunIsClear(d: State, job: Job, now: Time)
    requires StatusBy(d, now)
    ensures JobNextRun(job, d.status, now).None? <==> job.Rule().Never?
    ensures JobNextRun(job, d.status, now).Some? ==>
              ClearOfReference(d, job.name, job.Rule(), JobNextRun(job, d.status, now).value)
  {
    var reference := d.Reference(job.name);
    NextRunBounds(job.Rule(), job.catchupMissed, reference, now);
    if reference.Some? && !job.Rule().Never? {
      NextRunIsClear(job.Rule(), job.catchupMissed, reference.value, now);
    }
  }

  lemma RecomputeKeepsScheduled(s: System, only: Option<string>, now: Time)
    requires ConfigAccepted(s.d.cfg) && StatusBy(s.d, now)
    requires forall job :: job in s.d.cfg && !Selected(only, job.name) ==> PlannedClear(s, job) && NotLost(s, job)
    ensures Scheduled(s.(d := Recompute(s.d, only, now)))
  {
    var s' := s.(d := Recompute(s.d, only, now));
    forall job | job in s'.d.cfg
      ensures PlannedClear(s', job) && NotLost(s', job)
    {
      RecomputeNext(s.d, only, now, job);
      JobNextRunIsClear(s.d, job, now);
    }
  }

  lemma CoreIgnoresPlans(s: System, next: map<string, Option<Time>>, stale: set<string>)
    requires Core(s)
    ensures Core(s.(d := s.d.(nextRuns := next, log := s.d.log.(stale := stale))))
  {}

  // -------------------------------------------------------------- a new item

  lemma IdsOfAppended(queue: seq<WorkItem>, item: WorkItem)
    ensures Ids(queue + [item]) == Ids(queue) + {item.id}
  {
    var longer := queue + [item];
    forall id
      ensures id in Ids(longer) <==> id in Ids(queue) + {item.id}
    {
      if id in Ids(queue) {
        var i :| 0 <= i < |queue| && queue[i].id == id;
        assert longer[i].id == id;
      }
      assert longer[|queue|].id == item.id;
    }
  }

  lemma AcceptKeepsLedger(d: State, kind: Kind, job: string, trigger: Trigger, at: Time, rule: Rule)
    requires Ledger(d)
    ensures Ledger(Accept(d, kind, job, trigger, at, rule))
  {
    var d' := Accept(d, kind, job, trigger, at, rule);
    var n := |d.log.accepted|;
    IdsOfAppended(d.queue, d'.queue[|d.queue|]);
    forall id: nat
      ensures Places(Ids(d'.queue), d.log.started, d.log.cancelled, d.log.dropped, id) == Bit(id < n + 1)
    {
      assert Places(Ids(d.queue), d.log.started, d.log.cancelled, d.log.dropped, id) == Bit(id < n);
    }
  }

  lemma AcceptKeepsCore(s: System, kind: Kind, job: string, trigger: Trigger, at: Time, rule: Rule)
    requires Core(s)
    requires kind == Backup ==> !s.d.Busy(job)
    requires trigger == BySchedule ==>
      && kind == Backup && rule.Valid() && at <= s.clock
      && (job !in s.d.log.stale ==> ClearOfReference(s.d, job, rule, at))
    ensures Core(s.(d := Accept(s.d, kind, job, trigger, at, rule)))
  {
    AcceptKeepsLedger(s.d, kind, job, trigger, at, rule);
    AcceptKeepsHistory(s.d, kind, job, trigger, at, rule);
  }

  /** A new item changes nothing about what has been recorded. */
  lemma AcceptKeepsHistory(d: State, kind: Kind, job: string, trigger: Trigger, at: Time, rule: Rule)
    requires Covered(d) && Spaced(d)
    ensures Covered(Accept(d, kind, job, trigger, at, rule)) && Spaced(Accept(d, kind, job, trigger, at, rule))
  {}

  // ------------------------------------------------------------------ the tick

  lemma SameName(jobs: seq<Job>, a: Job, b: Job)
    requires UniqueNames(jobs) && a in jobs && b in jobs && a.name == b.name
    ensures a == b
  {
    var i :| 0 <= i < |jobs| && jobs[i] == a;
    var j :| 0 <= j < |jobs| && jobs[j] == b;
    assert i == j;
  }

  /** A job that is due and not busy is clear of its reference by now. */
  lemma DueIsClear(s: System, job: Job, now: Time)
    requires Inv(s) && job in s.d.cfg
    requires s.d.Next(job.name).Some? && s.d.Next(job.name).value <= now && !s.d.Busy(job.name)
    requires job.name !in s.d.log.stale
    ensures ClearOfReference(s.d, job.name, job.Rule(), now)
  {
    assert PlannedClear(s, job);
    if s.d.Reference(job.name).Some? {
      ClearMonotone(job.Rule(), s.d.Reference(job.name).value, s.d.Next(job.name).value,
                    s.d.Reference(job.name).value, now);
    }
  }

  function Skip(d: State, job: Job, now: Time): State {
    d.(nextRuns := d.nextRuns[job.name := JobNextRun(job, d.status, now + SECOND)])
  }

  /** The run computed for a skipped job is clear of its reference again. */
  lemma SkippedRunIsClear(s: System, job: Job, now: Time)
    requires Inv(s) && job in s.d.cfg
    requires s.d.Next(job.name).Some? && s.d.Next(job.name).value <= now && !s.d.Busy(job.name)
    ensures JobNextRun(job, s.d.status, now + SECOND).None? <==> job.Rule().Never?
    ensures job.name !in s.d.log.stale && !job.Rule().Never? ==>
              ClearOfReference(s.d, job.name, job.Rule(), JobNextRun(job, s.d.status, now + SECOND).value)
  {
    var reference := s.d.Reference(job.name);
    NextRunBounds(job.Rule(), job.catchupMissed, reference, now + SECOND);
    if job.name !in s.d.log.stale && reference.Some? && !job.Rule().Never? {
      DueIsClear(s, job, now);
      ClearIsLater(job.Rule(), reference.value, now);
      NextRunIsClear(job.Rule(), job.catchupMissed, reference.value, now + SECOND);
    }
  }

  lemma SkipKeepsInv(s: System, job: Job, now: Time)
    requires Inv(s) && job in s.d.cfg
    requires s.d.Next(job.name).Some? && s.d.Next(job.name).value <= now && !s.d.Busy(job.name)
    ensures Inv(s.(d := Skip(s.d, job, now)))
  {
    var s' := s.(d := Skip(s.d, job, now));
    CoreIgnoresPlans(s, s'.d.nextRuns, s.d.log.stale);
    assert s' == s.(d := s.d.(nextRuns := s'.d.nextRuns, log := s.d.log.(stale := s.d.log.stale)));
    SkippedRunIsClear(s, job, now);
    forall other | other in s.d.cfg
      ensures PlannedClear(s', other) && NotLost(s', other)
    {
      assert PlannedClear(s, other) && NotLost(s, other);
      if other.name == job.name {
        SameName(s.d.cfg, other, job);
      }
    }
  }

  function QueueDue(d: State, job: Job, now: Time): State {
    Accept(d.(nextRuns := d.nextRuns[job.name := None]), Backup, job.name, BySchedule, now, job.Rule())
  }

  lemma QueueDueKeepsCore(s: System, job: Job, now: Time)
    requires Inv(s) && job in s.d.cfg && now <= s.clock
    requires s.d.Next(job.name).Some? && s.d.Next(job.name).value <= now && !s.d.Busy(job.name)
    ensures Core(s.(d := QueueDue(s.d, job, now)))
  {
    var next: map<string, Option<Time>> := s.d.nextRuns[job.name := None];
    var u := s.(d := s.d.(nextRuns := next));
    CoreIgnoresPlans(s, next, s.d.log.stale);
    assert u == s.(d := s.d.(nextRuns := next, log := s.d.log.(stale := s.d.log.stale)));
    if job.name !in s.d.log.stale {
      DueIsClear(s, job, now);
    }
    AcceptKeepsCore(u, Backup, job.name, BySchedule, now, job.Rule());
  }

  lemma QueueDueKeepsJob(s: System, job: Job, now: Time, other: Job)
    requires UniqueNames(s.d.cfg) && job in s.d.cfg && other in s.d.cfg
    requires PlannedClear(s, other) && NotLost(s, other)
    ensures PlannedClear(s.(d := QueueDue(s.d, job, now)), other) && NotLost(s.(d := QueueDue(s.d, job, now)), other)
  {
    var d' := QueueDue(s.d, job, now);
    assert d'.queue[..|s.d.queue|] == s.d.queue;
    QueueGrows(s.d, d', other.name);
    assert d'.queue[|s.d.queue|].BacksUp(job.name);
    assert other.name != job.name ==> d'.Next(other.name) == s.d.Next(other.name);
  }

  lemma QueueDueKeepsInv(s: System, job: Job, now: Time)
    requires Inv(s) && job in s.d.cfg && now <= s.clock
    requires s.d.Next(job.name).Some? && s.d.Next(job.name).value <= now && !s.d.Busy(job.name)
    ensures Inv(s.(d := QueueDue(s.d, job, now)))
  {
    QueueDueKeepsCore(s, job, now);
    forall other | other in s.d.cfg
      ensures PlannedClear(s.(d := QueueDue(s.d, job, now)), other) && NotLost(s.(d := QueueDue(s.d, job, now)), other)
    {
      QueueDueKeepsJob(s, job, now, other);
    }
  }

  lemma QueueGrows(d: State, d': State, name: string)
    requires |d'.queue| == |d.queue| + 1 && d'.queue[..|d.queue|] == d.queue
    ensures d'.Queued(name) <==> d.Queued(name) || d'.queue[|d.queue|].BacksUp(name)
  {
    if d.Queued(name) {
      var i :| 0 <= i < |d.queue| && d.queue[i].BacksUp(name);
      assert d'.queue[i].BacksUp(name);
    }
    if d'.Queued(name) {
      var i :| 0 <= i < |d'.queue| && d'.queue[i].BacksUp(name);
      assert i < |d.queue| ==> d.queue[i] == d'.queue[i];
    }
  }

  lemma {:induction false} TickedKeepsInv(s: System, k: nat, now: Time)
    requires Inv(s) && k <= |s.d.cfg| && now <= s.clock
    ensures Inv(s.(d := Ticked(s.d, s.d.cfg[..k], now)))
    ensures Ticked(s.d, s.d.cfg[..k], now).cfg == s.d.cfg
    decreases k
  {
    if k > 0 {
      TickedKeepsInv(s, k - 1, now);
      var jobs, job := s.d.cfg[..k], s.d.cfg[k - 1];
      assert jobs[..|jobs| - 1] == s.d.cfg[..k - 1] && jobs[|jobs| - 1] == job;
      var u := s.(d := Ticked(s.d, s.d.cfg[..k - 1], now));
      assert job in u.d.cfg;
      TickJobKeepsInv(u, job, now);
    }
  }

  lemma TickJobKeepsInv(s: System, job: Job, now: Time)
    requires Inv(s) && job in s.d.cfg && now <= s.clock
    ensures Inv(s.(d := TickJob(s.d, job, now)))
  {
    var due := s.d.Next(job.name);
    if due.Some? && due.value <= now && !s.d.Busy(job.name) {
      if !job.catchupMissed && now - due.value > MISSED_GRACE {
        SkipKeepsInv(s, job, now);
      } else {
        QueueDueKeepsInv(s, job, now);
      }
    }
  }

  // ------------------------------------------------------------ cancel, config

  lemma StopCurrentKeepsInv(s: System)
    requires Inv(s) && s.d.current.Some?
    ensures Inv(s.(d := s.d.(current := Some(s.d.current.value.(stopped := true)))))
  {
    var s' := s.(d := s.d.(current := Some(s.d.current.value.(stopped := true))));
    assert forall name :: s'.d.Running(name) == s.d.Running(name);
    forall job | job in s'.d.cfg
      ensures PlannedClear(s', job) && NotLost(s', job)
    {
      assert PlannedClear(s, job) && NotLost(s, job);
    }
  }

  function Without(d: State, i: nat): State
    requires i < |d.queue|
  {
    d.(queue := d.queue[..i] + d.queue[i + 1..], log := d.log.(cancelled := d.log.cancelled + {d.queue[i].id}))
  }

  lemma IdsWithout(queue: seq<WorkItem>, i: nat)
    requires i < |queue|
    requires forall j, k :: 0 <= j < k < |queue| ==> queue[j].id < queue[k].id
    ensures Ids(queue[..i] + queue[i + 1..]) == Ids(queue) - {queue[i].id}
  {
    var shorter := queue[..i] + queue[i + 1..];
    forall id
      ensures id in Ids(shorter) <==> id in Ids(queue) - {queue[i].id}
    {
      if id in Ids(queue) && id != queue[i].id {
        var j :| 0 <= j < |queue| && queue[j].id == id;
        assert shorter[if j < i then j else j - 1].id == id;
      }
      if id in Ids(shorter) {
        var j :| 0 <= j < |shorter| && shorter[j].id == id;
        assert queue[if j < i then j else j + 1].id == id;
      }
    }
  }

  lemma WithoutKeepsLedger(d: State, i: nat)
    requires Ledger(d) && i < |d.queue|
    ensures Ledger(Without(d, i))
  {
    var d' := Without(d, i);
    IdsWithout(d.queue, i);
    var gone := d.queue[i].id;
    assert gone in Ids(d.queue);
    forall id: nat
      ensures Places(Ids(d'.queue), d.log.started, d'.log.cancelled, d.log.dropped, id) == Bit(id < |d.log.accepted|)
    {
      assert Places(Ids(d.queue), d.log.started, d.log.cancelled, d.log.dropped, id) == Bit(id < |d.log.accepted|);
    }
  }

  /** What is recorded about the past does not depend on the queue and the worker. */
  lemma HistoryStays(d: State, d': State)
    requires Covered(d) && Spaced(d)
    requires d'.log.accepted == d.log.accepted && d'.log.starts == d.log.starts && d'.status == d.status
    ensures Covered(d') && Spaced(d')
  {}

  lemma WithoutKeepsQueue(s: System, i: nat)
    requires Shape(s) && OneBackup(s.d) && Clocked(s) && Pending(s) && i < |s.d.queue|
    ensures
      var s' := s.(d := Without(s.d, i));
      Shape(s') && OneBackup(s'.d) && Clocked(s') && Pending(s')
  {}

  lemma WithoutKeepsCore(s: System, i: nat)
    requires Core(s) && i < |s.d.queue|
    ensures Core(s.(d := Without(s.d, i)))
  {
    WithoutKeepsLedger(s.d, i);
    WithoutKeepsQueue(s, i);
    HistoryStays(s.d, Without(s.d, i));
  }

  lemma QueueShrinks(d: State, i: nat, name: string)
    requires i < |d.queue| && !d.queue[i].BacksUp(name)
    ensures Without(d, i).Queued(name) <==> d.Queued(name)
  {
    var shorter := Without(d, i).queue;
    if d.Queued(name) {
      var j :| 0 <= j < |d.queue| && d.queue[j].BacksUp(name);
      assert shorter[if j < i then j else j - 1].BacksUp(name);
    }
    if Without(d, i).Queued(name) {
      var j :| 0 <= j < |shorter| && shorter[j].BacksUp(name);
      assert d.queue[if j < i then j else j + 1].BacksUp(name);
    }
  }

  lemma WithoutKeepsJob(s: System, i: nat, job: Job)
    requires i < |s.d.queue| && !s.d.queue[i].BacksUp(job.name)
    requires PlannedClear(s, job) && NotLost(s, job)
    ensures PlannedClear(s.(d := Without(s.d, i)), job) && NotLost(s.(d := Without(s.d, i)), job)
  {
    QueueShrinks(s.d, i, job.name);
  }

  lemma RecomputeKeepsCore(s: System, only: Option<string>, now: Time)
    requires Core(s)
    ensures Core(s.(d := Recompute(s.d, only, now)))
  {
    var d' := Recompute(s.d, only, now);
    CoreIgnoresPlans(s, d'.nextRuns, d'.log.stale);
    assert d' == s.d.(nextRuns := d'.nextRuns, log := s.d.log.(stale := d'.log.stale));
  }

  lemma CancelQueuedKeepsInv(s: System, i: nat)
    requires Inv(s) && i < |s.d.queue|
    ensures
      var item, t := s.d.queue[i], Without(s.d, i);
      Inv(s.(d := if item.kind == Backup then Recompute(t, Some(item.job), s.clock) else t))
  {
    var item, u := s.d.queue[i], s.(d := Without(s.d, i));
    WithoutKeepsCore(s, i);
    forall job | job in u.d.cfg && !item.BacksUp(job.name)
      ensures PlannedClear(u, job) && NotLost(u, job)
    {
      WithoutKeepsJob(s, i, job);
    }
    if item.kind == Backup {
      RecomputeKeepsCore(u, Some(item.job), s.clock);
      RecomputeKeepsScheduled(u, Some(item.job), s.clock);
    }
  }

  lemma SaveKeepsInv(s: System, cfg: seq<Job>)
    requires Inv(s) && ConfigAccepted(cfg)
    ensures Inv(s.(d := SaveConfig(s.d, cfg, s.clock)))
  {
    var u := s.(d := s.d.(cfg := cfg));
    assert Core(u);
    RecomputeKeepsCore(u, None, s.clock);
    RecomputeKeepsScheduled(u, None, s.clock);
  }

  lemma ClearQueueKeepsLedger(d: State)
    requires Ledger(d)
    ensures Ledger(ClearQueue(d))
  {
    var d' := ClearQueue(d);
    assert Ids(d'.queue) == {};
    forall id: nat
      ensures Places({}, d.log.started, d.log.cancelled, d'.log.dropped, id) == Bit(id < |d.log.accepted|)
    {
      assert Places(Ids(d.queue), d.log.started, d.log.cancelled, d.log.dropped, id) == Bit(id < |d.log.accepted|);
    }
  }

  lemma ClearQueueKeepsInv(s: System)
    requires Inv(s)
    ensures Inv(s.(d := ClearQueue(s.d)))
  {
    var s' := s.(d := ClearQueue(s.d));
    ClearQueueKeepsLedger(s.d);
    forall job | job in s'.d.cfg
      ensures PlannedClear(s', job) && NotLost(s', job)
    {
      assert PlannedClear(s, job);
      assert s'.d.Running(job.name) == s.d.Running(job.name);
    }
  }

  // ---------------------------------------------------------------- the worker

  lemma IdsOfRest(queue: seq<WorkItem>)
    requires queue != []
    requires forall j, k :: 0 <= j < k < |queue| ==> queue[j].id < queue[k].id
    ensures Ids(queue[1..]) == Ids(queue) - {queue[0].id}
  {
    IdsWithout(queue, 0);
    assert queue[..0] + queue[1..] == queue[1..];
  }

  lemma PopKeepsLedger(d: State)
    requires Ledger(d) && d.queue != []
    ensures Ledger(Pop(d))
  {
    var d' := Pop(d);
    IdsOfRest(d.queue);
    var taken := d.queue[0].id;
    assert taken in Ids(d.queue);
    assert d.queue[0] == d.log.accepted[taken].item;
    assert taken !in d.log.cancelled && taken !in d.log.dropped && taken !in d.log.started by {
      assert Places(Ids(d.queue), d.log.started, d.log.cancelled, d.log.dropped, taken) == 1;
    }
    forall id: nat
      ensures Places(Ids(d'.queue), d'.log.started, d.log.cancelled, d.log.dropped, id) == Bit(id < |d.log.accepted|)
    {
      assert Places(Ids(d.queue), d.log.started, d.log.cancelled, d.log.dropped, id) == Bit(id < |d.log.accepted|);
      assert id in d'.log.started <==> id in d.log.started || id == taken;
    }
  }

  lemma PopBusy(d: State, name: string)
    requires d.queue != [] && d.current.None?
    ensures Pop(d).Busy(name) <==> d.Busy(name)
    ensures Pop(d).Running(name) <==> d.queue[0].BacksUp(name)
  {
    var rest := d.queue[1..];
    if d.Queued(name) && !d.queue[0].BacksUp(name) {
      var i :| 0 <= i < |d.queue| && d.queue[i].BacksUp(name);
      assert rest[i - 1].BacksUp(name);
    }
    if Pop(d).Queued(name) {
      var i :| 0 <= i < |rest| && rest[i].BacksUp(name);
      assert d.queue[i + 1].BacksUp(name);
    }
  }

  lemma TakeKeepsCore(s: System)
    requires Core(s) && Enabled(s, Take)
    ensures Core(Apply(s, Take))
  {
    PopKeepsLedger(s.d);
    var s' := Apply(s, Take);
    assert OneBackup(s'.d) by {
      forall i | 0 <= i < |s'.d.queue| && s'.d.queue[i].kind == Backup
        ensures !s'.d.Running(s'.d.queue[i].job)
      {
        assert s'.d.queue[i] == s.d.queue[i + 1];
      }
    }
  }

  lemma TakeKeepsInv(s: System)
    requires Inv(s) && Enabled(s, Take)
    ensures Inv(Apply(s, Take))
  {
    TakeKeepsCore(s);
    var s' := Apply(s, Take);
    forall job | job in s'.d.cfg
      ensures PlannedClear(s', job) && NotLost(s', job)
    {
      assert PlannedClear(s, job) && NotLost(s, job);
      PopBusy(s.d, job.name);
    }
  }

  /** Actions that only move the clock or the worker's local variables. */
  lemma LocalKeepsInv(s: System, a: Action)
    requires Inv(s) && Enabled(s, a)
    requires a.Wait? || a.ReadTick? || a.ReadStart? || a.ReadFinish?
    ensures Inv(Apply(s, a))
  {
    var s' := Apply(s, a);
    forall job | job in s'.d.cfg
      ensures PlannedClear(s', job) && NotLost(s', job)
    {
      assert PlannedClear(s, job) && NotLost(s, job);
    }
  }

  lemma RaiseFlagKeepsInv(s: System)
    requires Inv(s)
    ensures Inv(s.(d := RaiseFlag(s.d)))
  {
    var s' := s.(d := RaiseFlag(s.d));
    forall job | job in s'.d.cfg
      ensures PlannedClear(s', job) && NotLost(s', job)
    {
      assert PlannedClear(s, job);
    }
  }

  lemma BeginKeepsReference(d: State, started: Time, name: string)
    requires d.current.Some? && name != d.current.value.job
    ensures BeginRun(d, started).Reference(name) == d.Reference(name)
  {}

  lemma BeginKeepsCovered(s: System)
    requires Core(s) && Enabled(s, RecordStart)
    ensures Covered(Apply(s, RecordStart).d)
  {
    forall p | 0 <= p < |s.d.log.starts|
      ensures Stamp(s.d.log.starts[p].time) <= Stamp(s.worker.started)
    {
      StampMonotone(s.d.log.starts[p].time, s.worker.started);
    }
  }

  lemma BeginKeepsSpaced(s: System)
    requires Core(s) && Enabled(s, RecordStart)
    ensures Spaced(Apply(s, RecordStart).d)
  {
    var item := s.d.current.value;
    forall p | 0 <= p < |s.d.log.starts| && s.d.log.starts[p].job == item.job && ScheduledCleanly(s.d, item.id)
      ensures Clear(s.d.log.accepted[item.id].rule, Stamp(s.d.log.starts[p].time), s.worker.started)
    {
      NewStartIsClear(s, p);
    }
  }

  /** The start about to be recorded is clear of start p if it was scheduled. */
  lemma NewStartIsClear(s: System, p: nat)
    requires Core(s) && Enabled(s, RecordStart) && p < |s.d.log.starts|
    ensures
      var d, item, started := s.d, s.d.current.value, s.worker.started;
      && Stamp(d.log.starts[p].time) <= Stamp(started)
      && (d.log.starts[p].job == item.job && ScheduledCleanly(d, item.id) ==>
            Clear(d.log.accepted[item.id].rule, Stamp(d.log.starts[p].time), started))
  {
    var d, item, started := s.d, s.d.current.value, s.worker.started;
    StampMonotone(d.log.starts[p].time, started);
    if d.log.starts[p].job == item.job && ScheduledCleanly(d, item.id) {
      var acc := d.log.accepted[item.id];
      assert StillClear(d, item, started);
      ClearMonotone(acc.rule, d.Reference(item.job).value, acc.at, Stamp(d.log.starts[p].time), started);
    }
  }

  lemma BeginKeepsCore(s: System)
    requires Core(s) && Enabled(s, RecordStart)
    ensures Core(Apply(s, RecordStart))
  {
    var s' := Apply(s, RecordStart);
    BeginKeepsCovered(s);
    BeginKeepsSpaced(s);
    assert Ledger(s'.d);
    assert Clocked(s') by {
      assert Stamp(s.worker.started) % SECOND == 0;
    }
    forall i | 0 <= i < |s'.d.queue|
      ensures StillClear(s'.d, s'.d.queue[i], s'.clock)
    {
      var item := s.d.queue[i];
      assert StillClear(s.d, item, s.clock);
      if item.trigger == BySchedule {
        assert !s.d.Running(item.job);
        BeginKeepsReference(s.d, s.worker.started, item.job);
      }
    }
  }

  lemma RecordStartKeepsInv(s: System)
    requires Inv(s) && Enabled(s, RecordStart)
    ensures Inv(Apply(s, RecordStart))
  {
    var s' := Apply(s, RecordStart);
    BeginKeepsCore(s);
    forall job | job in s'.d.cfg
      ensures PlannedClear(s', job) && NotLost(s', job)
    {
      assert PlannedClear(s, job) && NotLost(s, job);
      if job.name != s.d.current.value.job {
        BeginKeepsReference(s.d, s.worker.started, job.name);
      }
    }
  }

  /** `_finish_backup` before its call of `recompute_schedule`. */
  function Recording(s: System): System
    requires Enabled(s, RecordFinish)
  {
    var name := s.d.current.value.job;
    var entry := Finished(s.d.Record(name), s.worker.finished, s.worker.outcome);
    s.(d := s.d.(status := s.d.status[name := entry]), worker := Done)
  }

  lemma RecordingKeepsReference(s: System, name: string)
    requires Enabled(s, RecordFinish) && name != s.d.current.value.job
    ensures Recording(s).d.Reference(name) == s.d.Reference(name)
  {}

  lemma RecordingKeepsCore(s: System)
    requires Core(s) && Enabled(s, RecordFinish)
    ensures Core(Recording(s))
  {
    var s' := Recording(s);
    var name := s.d.current.value.job;
    assert Ledger(s'.d);
    assert Clocked(s') by {
      assert Stamp(s.worker.finished) % SECOND == 0;
    }
    forall p | 0 <= p < |s.d.log.starts|
      ensures s'.d.Reference(s.d.log.starts[p].job).Some?
      ensures Stamp(s.d.log.starts[p].time) <= s'.d.Reference(s.d.log.starts[p].job).value
    {
      RecordingRemembers(s, p);
    }
    forall i | 0 <= i < |s'.d.queue|
      ensures StillClear(s'.d, s'.d.queue[i], s'.clock)
    {
      RecordingKeepsClear(s, i);
    }
  }

  lemma RecordingRemembers(s: System, p: nat)
    requires Core(s) && Enabled(s, RecordFinish) && p < |s.d.log.starts|
    ensures Recording(s).d.Reference(s.d.log.starts[p].job).Some?
    ensures Stamp(s.d.log.starts[p].time) <= Recording(s).d.Reference(s.d.log.starts[p].job).value
  {
    StampMonotone(s.d.log.starts[p].time, s.worker.started);
    assert Recording(s).d.Record(s.d.current.value.job).lastRunAt == Some(Stamp(s.worker.started));
  }

  lemma RecordingKeepsClear(s: System, i: nat)
    requires Core(s) && Enabled(s, RecordFinish) && i < |s.d.queue|
    ensures StillClear(Recording(s).d, s.d.queue[i], s.clock)
  {
    var item := s.d.queue[i];
    assert StillClear(s.d, item, s.clock);
    if item.trigger == BySchedule {
      assert !s.d.Running(item.job);
      RecordingKeepsReference(s, item.job);
    }
  }

  lemma RecordFinishKeepsInv(s: System)
    requires Inv(s) && Enabled(s, RecordFinish)
    ensures Inv(Apply(s, RecordFinish))
  {
    var u, name := Recording(s), s.d.current.value.job;
    RecordingKeepsCore(s);
    forall job | job in u.d.cfg && job.name != name
      ensures PlannedClear(u, job) && NotLost(u, job)
    {
      assert PlannedClear(s, job) && NotLost(s, job);
      RecordingKeepsReference(s, job.name);
    }
    RecomputeKeepsCore(u, Some(name), s.clock);
    RecomputeKeepsScheduled(u, Some(name), s.clock);
    assert Apply(s, RecordFinish) == u.(d := Recompute(u.d, Some(name), s.clock));
  }

  /** The worker leaves its item, recorded or not. */
  lemma LeaveKeepsInv(s: System, a: Action)
    requires Inv(s) && Enabled(s, a) && (a.Return? || a.Fail?)
    ensures Inv(Apply(s, a))
  {
    var s' := Apply(s, a);
    LeaveKeepsCore(s, a);
    forall job | job in s'.d.cfg
      ensures PlannedClear(s', job) && NotLost(s', job)
    {
      assert PlannedClear(s, job) && NotLost(s, job);
    }
  }

  lemma LeaveKeepsCore(s: System, a: Action)
    requires Core(s) && Enabled(s, a) && (a.Return? || a.Fail?)
    ensures Core(Apply(s, a))
  {
    LeaveKeepsQueue(s, a);
    LeaveKeepsLedger(s, a);
    HistoryStays(s.d, Apply(s, a).d);
  }

  lemma LeaveKeepsQueue(s: System, a: Action)
    requires Shape(s) && OneBackup(s.d) && Clocked(s) && Pending(s)
    requires Enabled(s, a) && (a.Return? || a.Fail?)
    ensures
      var s' := Apply(s, a);
      Shape(s') && OneBackup(s'.d) && Clocked(s') && Pending(s')
  {}

  lemma LeaveKeepsLedger(s: System, a: Action)
    requires Ledger(s.d) && Enabled(s, a) && (a.Return? || a.Fail?)
    ensures Ledger(Apply(s, a).d)
  {}

  // ------------------------------------------------------------- every action

  lemma SubmitKeepsInv(s: System, kind: Kind, job: string)
    requires Inv(s)
    ensures Inv(Apply(s, Submit(kind, job)))
  {
    if kind != Backup || !s.d.Busy(job) {
      AcceptKeepsCore(s, kind, job, ByUser, 0, Never);
      var s' := Apply(s, Submit(kind, job));
      forall other | other in s'.d.cfg
        ensures PlannedClear(s', other) && NotLost(s', other)
      {
        assert PlannedClear(s, other) && NotLost(s, other);
        assert s'.d.queue[..|s.d.queue|] == s.d.queue;
        QueueGrows(s.d, s'.d, other.name);
      }
    }
  }

  /** The three outcomes of a cancel request. */
  lemma CancelCases(d: State, id: Option<nat>, now: Time)
    ensures
      var i := FirstMatch(d.queue, id);
      Cancel(d, id, now) ==
        if d.current.Some? && Means(id, d.current.value) then Ok(d.(current := Some(d.current.value.(stopped := true))))
        else if i == |d.queue| then Err(NotFound)
        else if d.queue[i].kind == Backup then Ok(Recompute(Without(d, i), Some(d.queue[i].job), now))
        else Ok(Without(d, i))
  {}

  lemma CancelKeepsInv(s: System, id: Option<nat>)
    requires Inv(s)
    ensures Inv(Apply(s, CancelItem(id)))
  {
    CancelCases(s.d, id, s.clock);
    var i := FirstMatch(s.d.queue, id);
    if s.d.current.Some? && Means(id, s.d.current.value) {
      StopCurrentKeepsInv(s);
    } else if i < |s.d.queue| {
      CancelQueuedKeepsInv(s, i);
    }
  }

  lemma RunTickKeepsInv(s: System)
    requires Inv(s) && Enabled(s, RunTick)
    ensures Inv(Apply(s, RunTick))
  {
    TickedKeepsInv(s, |s.d.cfg|, s.tickNow.value);
    assert s.d.cfg[..|s.d.cfg|] == s.d.cfg;
    var u := s.(d := Tick(s.d, s.tickNow.value));
    var s' := Apply(s, RunTick);
    assert s' == u.(tickNow := None);
    forall job | job in s'.d.cfg
      ensures PlannedClear(s', job) && NotLost(s', job)
    {
      assert PlannedClear(u, job) && NotLost(u, job);
    }
  }

  /** Every action keeps the whole invariant. */
  lemma ActionKeepsInv(s: System, a: Action)
    requires Inv(s) && Enabled(s, a)
    ensures Inv(Apply(s, a))
  {
    match a
    case Wait(_) => LocalKeepsInv(s, a);
    case ReadTick => LocalKeepsInv(s, a);
    case RunTick => RunTickKeepsInv(s);
    case Submit(kind, job) => SubmitKeepsInv(s, kind, job);
    case CancelItem(id) => CancelKeepsInv(s, id);
    case Save(cfg) => SaveKeepsInv(s, cfg);
    case BeginStop => RaiseFlagKeepsInv(s);
    case EmptyQueue => ClearQueueKeepsInv(s);
    case StopCurrent(id) =>
      if s.d.current.Some? && s.d.current.value.id == id {
        StopCurrentKeepsInv(s);
      }
    case Take => TakeKeepsInv(s);
    case ReadStart => LocalKeepsInv(s, a);
    case RecordStart => RecordStartKeepsInv(s);
    case ReadFinish(_) => LocalKeepsInv(s, a);
    case RecordFinish => RecordFinishKeepsInv(s);
    case Return => LeaveKeepsInv(s, a);
    case Fail => LeaveKeepsInv(s, a);
  }

  lemma InitInv(s: System)
    requires Init(s)
    ensures Inv(s)
  {
    var d := State(s.d.cfg, s.d.status, [], None, map[], false, Log([], [], {}, {}, [], {}));
    var u := s.(d := d);
    assert Ids(d.queue) == {};
    assert Core(u);
    RecomputeKeepsCore(u, None, s.clock);
    RecomputeKeepsScheduled(u, None, s.clock);
  }

  /** The invariant holds in every state of every run. */
  lemma {:induction false} RunInv(run: seq<System>, actions: seq<Action>, k: nat)
    requires IsRun(run, actions) && k < |run|
    ensures Inv(run[k])
    decreases k
  {
    if k == 0 {
      InitInv(run[0]);
    } else {
      RunInv(run, actions, k - 1);
      ActionKeepsInv(run[k - 1], actions[k - 1]);
    }
  }
}
