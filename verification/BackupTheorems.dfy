/** Planner, executor, canary and status record taken together. */
module BackupTheorems {
  import opened Wrappers
  import opened Schedule
  import opened SysConfig
  import opened Planner
  import opened Plans
  import opened Backup
  import Canary
  import DaemonState
  import Text
  import Validation

  /** One backup from mounting the accounts to the record of its outcome. */
  method PlanAndRun(
    run: BackupRun, c: Config, jobName: string, mounted: bool, started: Time, stamp: string, archiveName: string,
    world: World, w: Course)
    returns (s: Summary, ghost plan: Option<Plan>, ghost ran: nat)
    modifies run
    ensures plan.Some? <==> s.exitCode != -1
    ensures plan.Some? <==>
            && mounted && FindJob(c.jobs, jobName).Some?
            && CanPlan(c, FindJob(c.jobs, jobName).value, archiveName, world)
    ensures plan.Some? ==>
              && Planned(c, FindJob(c.jobs, jobName).value, old(run.record.upkept), started, stamp, world, true, plan.value)
              && WellShaped(plan.value) && Ran(plan.value, w, ran) && Outcome(plan.value, w, ran, s)
    ensures run.record ==
            Finished(if plan.Some? then Upkeeping(run.sha, plan.value, w, ran, Begun(old(run.record), started))
                     else Begun(old(run.record), started), s, w.finishedAt)
    ensures Told(old(run.record), run.record, s, started, w.finishedAt)
    ensures plan.None? ==> run.record.upkept == old(run.record.upkept) && run.record.canary == old(run.record.canary)
    ensures plan.Some? ==>
              && StampMoves(plan.value, w, ran, Check,
                            old(run.record.upkept.lastCheckAt), run.record.upkept.lastCheckAt)
              && StampMoves(plan.value, w, ran, Compact,
                            old(run.record.upkept.lastCompactAt), run.record.upkept.lastCompactAt)
              && CanaryChanges(run.sha, plan.value, w, ran, old(run.record), run.record)
  {
    var planned := Err(NotMounted);
    if mounted {
      planned := PlanBackup(c, jobName, run.record.upkept, started, stamp, archiveName, world, true);
    }
    if planned.Ok? {
      PlannedIsWellShaped(c, FindJob(c.jobs, jobName).value, run.record.upkept, started, stamp, world, true,
                          planned.value);
    }
    s, ran := run.RunBackup(planned, started, w);
    plan := if planned.Ok? then Some(planned.value) else None;
  }

  // ------------------------------------------------------------------- canary

  /** The canary is verified on exactly the targets whose create succeeded, in target order. */
  lemma {:induction false} GoodTargetsExactly(targets: seq<Target>, results: seq<DestResult>, t: Target)
    requires |results| <= |targets|
    ensures t in GoodTargets(targets, results) <==>
            exists i :: 0 <= i < |results| && results[i].good && targets[i] == t
    decreases |results|
  {
    if results != [] {
      GoodTargetsExactly(targets, results[..|results| - 1], t);
    }
  }

  /**
    A canary result "ok" vouches for the backup: what every good target gave back carries, besides
    hash lines, exactly the content that was written for this run.
   */
  lemma CanaryVouches(
    c: Config, job: Job, upkept: Upkept, now: Time, stamp: string, world: World, plan: Plan, w: Course, k: nat)
    requires Planned(c, job, upkept, now, stamp, world, true, plan) && c.canaryEnabled
    requires Canary.Digest(world.sha) && Canary.Injective(world.sha)
    requires k < |GoodTargets(plan.targets, Results(plan, w, |plan.targets|))|
    requires CanaryOutcome(world.sha, plan, w).good
    ensures w.extracted(k).exitCode == 0
    ensures Canary.Data(w.extracted(k).stdout) == Canary.Content(job.name, stamp)
  {
    var n := |GoodTargets(plan.targets, Results(plan, w, |plan.targets|))|;
    var content := Canary.Content(job.name, stamp);
    AllFoundMeansEach(world.sha, w.extracted, world.sha(content), n, k);
    Canary.AcceptedIsWritten(world.sha, w.extracted(k).stdout, content);
  }

  /** A result counts as good when borg ended with 0 or 1, nobody stopped it, and starting it did not fail. */
  lemma GoodMeans(r: CommandResult)
    ensures r.Good() <==> r.exitCode in {0, 1} && !r.stopped && r.error == ""
  {}

  /** There is one extraction per target whose create was good. */
  lemma {:induction false} OneExtractionEach(targets: seq<Target>, results: seq<DestResult>)
    requires |results| <= |targets|
    ensures |GoodTargets(targets, results)| == |set i: nat | i < |results| && results[i].good|
    decreases |results|
  {
    var good := set i: nat | i < |results| && results[i].good;
    if results == [] {
      assert good == {};
    } else {
      var n := |results| - 1;
      OneExtractionEach(targets, results[..n]);
      var before := set i: nat | i < n && results[..n][i].good;
      assert good == before + if results[n].good then {n} else {};
    }
  }

  /** Text that was extracted without an error and that the checker accepts. */
  predicate Vouches(sha: Canary.Hash, r: CommandResult, expectedHash: string) {
    var stored := Canary.StoredHash(r.stdout);
    && r.exitCode == 0 && Text.Strip(r.stdout) != "" && stored != ""
    && sha(Canary.Data(r.stdout)) == stored && (expectedHash == "" || stored == expectedHash)
  }

  /**
    What a verification records: when it ended, the hash that was expected, whether every extraction
    vouches for its target, and the hash stored in the last text that could be extracted at all.
   */
  lemma CanaryRecords(sha: Canary.Hash, plan: Plan, w: Course, last: nat)
    requires plan.canary.Some?
    ensures
      var n, r := |GoodTargets(plan.targets, Results(plan, w, |plan.targets|))|, CanaryOutcome(sha, plan, w);
      && r.checkedAt == w.canaryAt && r.expectedHash == plan.canary.value.expectedHash
      && (r.good <==> forall k :: 0 <= k < n ==> Vouches(sha, w.extracted(k), plan.canary.value.expectedHash))
      && (last < n && w.extracted(last).exitCode == 0 && (forall k :: last < k < n ==> w.extracted(k).exitCode != 0) ==>
            r.verifiedHash == Canary.StoredHash(w.extracted(last).stdout))
      && ((forall k :: 0 <= k < n ==> w.extracted(k).exitCode != 0) ==> r.verifiedHash == "")
  {
    var n := |GoodTargets(plan.targets, Results(plan, w, |plan.targets|))|;
    var expected := plan.canary.value.expectedHash;
    forall k: nat
      ensures CanaryFound(sha, w.extracted(k), expected) <==> Vouches(sha, w.extracted(k), expected)
    {
      Canary.VerdictIs(sha, w.extracted(k).stdout, expected);
    }
    if AllFound(sha, w.extracted, expected, n) {
      forall k: nat | k < n
        ensures CanaryFound(sha, w.extracted(k), expected)
      {
        AllFoundMeansEach(sha, w.extracted, expected, n, k);
      }
    } else if forall k :: 0 <= k < n ==> CanaryFound(sha, w.extracted(k), expected) {
      AllFoundIsEach(sha, w.extracted, expected, n);
    }
    LastHash(sha, w.extracted, expected, n, last);
  }

  lemma LastHash(sha: Canary.Hash, extracted: nat -> CommandResult, expectedHash: string, n: nat, last: nat)
    ensures last < n && extracted(last).exitCode == 0 && (forall k :: last < k < n ==> extracted(k).exitCode != 0) ==>
              LastStored(sha, extracted, expectedHash, n) == Canary.StoredHash(extracted(last).stdout)
    ensures (forall k :: 0 <= k < n ==> extracted(k).exitCode != 0) ==>
              LastStored(sha, extracted, expectedHash, n) == ""
  {
    if last < n && forall k :: last < k < n ==> extracted(k).exitCode != 0 {
      LastStoredIs(sha, extracted, expectedHash, n, last);
    }
    if n > 0 && forall k :: 0 <= k < n ==> extracted(k).exitCode != 0 {
      LastStoredIs(sha, extracted, expectedHash, n, 0);
    }
  }

  /** The stop event keeps every later task from starting, and nothing else does but a stopped maintenance task. */
  lemma StopEndsTheLoop(plan: Plan, w: Course, ran: nat, k: nat)
    requires Ran(plan, w, ran) && k < |plan.tasks|
    ensures w.stopAt.Some? && w.stopAt.value <= 2 * k ==> ran <= k
    ensures ran <= k ==>
              (w.stopAt.Some? && w.stopAt.value <= 2 * ran) ||
              (ran > 0 && plan.tasks[ran - 1].kind != Create && w.result(ran - 1).stopped)
  {
    if k < ran {
      assert !w.Stop(2 * k);
    }
  }

  predicate GivesBack(sha: Canary.Hash, r: CommandResult, name: string, stamp: string) {
    r.exitCode == 0 && r.stdout == Canary.Written(sha, name, stamp)
  }

  lemma WrittenIsFound(sha: Canary.Hash, r: CommandResult, name: string, stamp: string)
    requires Canary.Digest(sha) && '\n' !in stamp && '\n' !in name && GivesBack(sha, r, name, stamp)
    ensures CanaryFound(sha, r, sha(Canary.Content(name, stamp)))
  {
    Canary.ValidNameIsAccepted(sha, name, stamp);
  }

  lemma {:induction false} AllWrittenAreFound(
    sha: Canary.Hash, extracted: nat -> CommandResult, name: string, stamp: string, n: nat)
    requires Canary.Digest(sha) && '\n' !in stamp && '\n' !in name
    requires forall k :: 0 <= k < n ==> GivesBack(sha, extracted(k), name, stamp)
    ensures AllFound(sha, extracted, sha(Canary.Content(name, stamp)), n)
    decreases n
  {
    if n > 0 {
      AllWrittenAreFound(sha, extracted, name, stamp, n - 1);
      WrittenIsFound(sha, extracted(n - 1), name, stamp);
    }
  }

  lemma AcceptedNameHasNoBreaks(c: Config, i: nat)
    requires Validation.Accepted(c) && i < |c.jobs|
    ensures '\n' !in c.jobs[i].name
  {
    assert !Validation.Broken(c, Validation.InJob(i, Validation.NameIsPrintable));
  }

  lemma PlannedHash(c: Config, job: Job, upkept: Upkept, now: Time, stamp: string, world: World, plan: Plan)
    requires Planned(c, job, upkept, now, stamp, world, true, plan) && c.canaryEnabled
    ensures plan.canary.Some? && plan.canary.value.expectedHash == world.sha(Canary.Content(job.name, stamp))
  {}

  lemma CanaryIsGood(sha: Canary.Hash, plan: Plan, w: Course, name: string, stamp: string)
    requires Canary.Digest(sha) && '\n' !in stamp && '\n' !in name
    requires plan.canary.Some? && plan.canary.value.expectedHash == sha(Canary.Content(name, stamp))
    requires forall k :: 0 <= k < |GoodTargets(plan.targets, Results(plan, w, |plan.targets|))| ==>
               GivesBack(sha, w.extracted(k), name, stamp)
    ensures CanaryOutcome(sha, plan, w).good
  {
    AllWrittenAreFound(sha, w.extracted, name, stamp, |GoodTargets(plan.targets, Results(plan, w, |plan.targets|))|);
  }

  /**
    The other way round: for a job of an accepted configuration, the canary result is "ok" whenever
    every good target gives back the file as written for this run.
   */
  lemma CanaryOfAcceptedJob(
    c: Config, i: nat, upkept: Upkept, now: Time, stamp: string, world: World, plan: Plan, w: Course)
    requires Validation.Accepted(c) && i < |c.jobs| && c.canaryEnabled
    requires Planned(c, c.jobs[i], upkept, now, stamp, world, true, plan)
    requires Canary.Digest(world.sha) && '\n' !in stamp
    requires forall k :: 0 <= k < |GoodTargets(plan.targets, Results(plan, w, |plan.targets|))| ==>
               GivesBack(world.sha, w.extracted(k), c.jobs[i].name, stamp)
    ensures CanaryOutcome(world.sha, plan, w).good
  {
    AcceptedNameHasNoBreaks(c, i);
    PlannedHash(c, c.jobs[i], upkept, now, stamp, world, plan);
    CanaryIsGood(world.sha, plan, w, c.jobs[i].name, stamp);
  }

  // -------------------------------------------------------------- maintenance

  /**
    Maintained target t is the primary destination, named once more perhaps, and the task at place `at` of
    its group was reached and the runner found nothing wrong.
   */
  predicate PrimaryWentWell(plan: Plan, w: Course, ran: nat, size: nat, t: nat, at: nat) {
    var i := |plan.targets| + t * size + at;
    && t < |plan.targets| && plan.targets[t].destId == plan.targets[0].destId
    && 0 <= i < ran && (w.result(i).exitCode == 0 || w.result(i).exitCode == 1)
    && !w.result(i).stopped && w.result(i).error == ""
  }

  lemma WellTaskIsWanted(
    plan: Plan, archive: Archive, maintained: seq<Target>, prune: bool, w: Course, ran: nat, kind: Kind, k: nat)
    returns (t: nat)
    requires 0 < |maintained| && maintained <= plan.targets
    requires Layout(plan.tasks, plan.targets, archive, maintained, prune, plan.runCheck, plan.runCompact)
    requires (kind == Check || kind == Compact) && WentWell(plan, w, ran, k, kind)
    ensures kind == Check ==> plan.runCheck
    ensures kind == Compact ==> plan.runCompact
    ensures t < |maintained|
    ensures
      var at := (if prune then 1 else 0) + if kind == Compact && plan.runCheck then 1 else 0;
      PrimaryWentWell(plan, w, ran, GroupSize(prune, plan.runCheck, plan.runCompact), t, at)
  {
    assert |plan.targets| <= k;
    var place: nat;
    t, place := EveryTaskHasItsPlace(
      plan.tasks, plan.targets, archive, maintained, prune, plan.runCheck, plan.runCompact, k);
  }

  lemma PlaceOfWanted(
    plan: Plan, archive: Archive, maintained: seq<Target>, prune: bool, w: Course, ran: nat, kind: Kind,
    t: nat, at: nat)
    requires 0 < |maintained| && maintained <= plan.targets && t < |maintained|
    requires Layout(plan.tasks, plan.targets, archive, maintained, prune, plan.runCheck, plan.runCompact)
    requires (kind == Check && plan.runCheck) || (kind == Compact && plan.runCompact)
    requires at == (if prune then 1 else 0) + if kind == Compact && plan.runCheck then 1 else 0
    requires PrimaryWentWell(plan, w, ran, GroupSize(prune, plan.runCheck, plan.runCompact), t, at)
    ensures WentWell(plan, w, ran, |plan.targets| + t * GroupSize(prune, plan.runCheck, plan.runCompact) + at, kind)
  {
    var start := |plan.targets| + t * GroupSize(prune, plan.runCheck, plan.runCompact);
    assert GroupStands(plan.tasks, start, maintained[t], prune, plan.runCheck, plan.runCompact);
  }

  lemma MovesExactly(
    plan: Plan, archive: Archive, maintained: seq<Target>, prune: bool, w: Course, ran: nat, kind: Kind, at: nat)
    requires 0 < |maintained| && maintained <= plan.targets
    requires Layout(plan.tasks, plan.targets, archive, maintained, prune, plan.runCheck, plan.runCompact)
    requires kind == Check || kind == Compact
    requires at == (if prune then 1 else 0) + if kind == Compact && plan.runCheck then 1 else 0
    ensures (exists k: nat :: WentWell(plan, w, ran, k, kind)) <==>
            && (if kind == Check then plan.runCheck else plan.runCompact)
            && exists t: nat :: t < |maintained| &&
                 PrimaryWentWell(plan, w, ran, GroupSize(prune, plan.runCheck, plan.runCompact), t, at)
  {
    var size := GroupSize(prune, plan.runCheck, plan.runCompact);
    if k: nat :| WentWell(plan, w, ran, k, kind) {
      var t := WellTaskIsWanted(plan, archive, maintained, prune, w, ran, kind, k);
    }
    if (kind == Check && plan.runCheck) || (kind == Compact && plan.runCompact) {
      if t: nat :| t < |maintained| && PrimaryWentWell(plan, w, ran, size, t, at) {
        PlaceOfWanted(plan, archive, maintained, prune, w, ran, kind, t, at);
      }
    }
  }

  /**
    However far the backup came, a maintenance stamp moves exactly when that maintenance was due and was
    reached and went well at the primary target, or at another maintained one with the same id.
   */
  lemma StampMovesExactly(
    c: Config, job: Job, upkept: Upkept, now: Time, stamp: string, world: World, plan: Plan, w: Course,
    ran: nat, kind: Kind, at: nat)
    requires Planned(c, job, upkept, now, stamp, world, true, plan)
    requires kind == Check || kind == Compact
    requires at == (if job.pruneEnabled then 1 else 0) + if kind == Compact && plan.runCheck then 1 else 0
    ensures (exists k: nat :: WentWell(plan, w, ran, k, kind)) <==>
            && (if kind == Check then plan.runCheck else plan.runCompact)
            && exists t: nat :: t < (if c.maintainAllDestinations then |plan.targets| else 1) &&
                 PrimaryWentWell(plan, w, ran, GroupSize(job.pruneEnabled, plan.runCheck, plan.runCompact), t, at)
  {
    MaintenanceFollowsInOrder(c, job, upkept, now, stamp, world, true, plan);
    MovesExactly(plan, ArchiveOf(job, plan.archiveName, plan.canary, world), Maintained(c, plan.targets),
                 job.pruneEnabled, w, ran, kind, at);
  }

  // ---------------------------------------------------------- the daemon's view

  /** The record as the scheduler sees it, with any wording of the errors. */
  function EntryOf(r: Record, wording: (Complaint, seq<nat>) -> string): DaemonState.Entry {
    DaemonState.Entry(r.lastRunAt, r.lastSuccessAt, r.lastExitCode, wording(r.complaint, r.failedUpkeep))
  }

  /** `run_backup` changes the record as the daemon's `BeginRun` and `Finish` say. */
  lemma RecordRefinesEntry(
    sha: Canary.Hash, plan: Plan, w: Course, ran: nat, r: Record, started: Time, s: Summary,
    wording: (Complaint, seq<nat>) -> string)
    requires plan.targets != [] && ran <= |plan.tasks| && wording(Nothing, []) == ""
    ensures EntryOf(Begun(r, started), wording) ==
            EntryOf(r, wording).(lastRunAt := Some(Stamp(started)), lastError := "")
    ensures
      var before := Upkeeping(sha, plan, w, ran, Begun(r, started));
      EntryOf(Finished(before, s, w.finishedAt), wording) ==
      DaemonState.Finished(EntryOf(before, wording), w.finishedAt,
                           DaemonState.Outcome(s.exitCode, wording(s.complaint, s.failedUpkeep), s.success))
  {}
}
