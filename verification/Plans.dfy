/** The ordered task list of one backup: `plan_backup` of borg_engine.py from the checked parts on. */
module Plans {
  import opened Wrappers
  import opened Text
  import opened SysConfig
  import opened Schedule
  import opened Planner
  import Canary

  datatype Kind = Create | Prune | Check | Compact

  /** What a `create` command is given besides the repository. */
  datatype Archive = Archive(
    name: string, compression: string, includes: seq<string>, excludes: seq<string>, canaryPath: Option<string>)

  datatype Task = Task(kind: Kind, target: Target, archive: Option<Archive>)

  datatype CanaryInfo = CanaryInfo(path: string, relPath: string, expectedHash: string)

  datatype Plan = Plan(
    jobName: string, archiveName: string, tasks: seq<Task>, targets: seq<Target>, missingSources: seq<string>,
    canary: Option<CanaryInfo>, runCheck: bool, runCompact: bool)

  /** The maintenance stamps of a job's status record. */
  datatype Upkept = Upkept(lastCheckAt: Option<Time>, lastCompactAt: Option<Time>)

  /** `maintenance_due`; `None` stands for a stamp that is missing or cannot be read. */
  predicate MaintenanceDue(last: Option<Time>, intervalWeeks: int, now: Time) {
    var weeks := if intervalWeeks > 1 then intervalWeeks else 1;
    last.None? || now > last.value + weeks * 7 * DAY
  }

  /** No stamp, or one more than this many weeks old; a week has 604 800 seconds, and the least interval is one. */
  predicate WeeksOld(last: Option<Time>, weeks: int, now: Time) {
    last == None || now - last.value > (if weeks >= 1 then weeks else 1) * 604_800_000_000
  }

  lemma DueAfterWeeks(last: Option<Time>, weeks: int, now: Time)
    ensures MaintenanceDue(last, weeks, now) <==> WeeksOld(last, weeks, now)
  {}

  // ---------------------------------------------------------- shape of a plan

  function Creates(targets: seq<Target>, archive: Archive): (tasks: seq<Task>)
    ensures |tasks| == |targets|
    ensures forall i :: 0 <= i < |tasks| ==> tasks[i] == Task(Create, targets[i], Some(archive))
  {
    seq(|targets|, i requires 0 <= i < |targets| => Task(Create, targets[i], Some(archive)))
  }

  /** The maintenance tasks of one target, in the order of `kinds`. */
  function Group(target: Target, kinds: seq<Kind>): (tasks: seq<Task>)
    ensures |tasks| == |kinds|
    ensures forall i :: 0 <= i < |tasks| ==> tasks[i] == Task(kinds[i], target, None)
  {
    seq(|kinds|, i requires 0 <= i < |kinds| => Task(kinds[i], target, None))
  }

  function Upkeep(targets: seq<Target>, kinds: seq<Kind>): seq<Task> {
    if targets == [] then []
    else Upkeep(targets[..|targets| - 1], kinds) + Group(targets[|targets| - 1], kinds)
  }

  function Due(prune: bool, check: bool, compact: bool): (kinds: seq<Kind>)
    ensures Create !in kinds && |kinds| <= 3
  {
    (if prune then [Prune] else []) + (if check then [Check] else []) + (if compact then [Compact] else [])
  }

  /** Position of task k of group t when every group has `size` tasks: t * size + k. */
  function Place(size: nat, t: nat, k: nat): nat {
    if t == 0 then k else size + Place(size, t - 1, k)
  }

  lemma {:induction false} PlaceIsProduct(size: nat, t: nat, k: nat)
    ensures Place(size, t, k) == t * size + k
    decreases t
  {
    if t > 0 {
      PlaceIsProduct(size, t - 1, k);
      assert t * size == (t - 1) * size + size;
    }
  }

  lemma {:induction false} PlaceInGroup(size: nat, t: nat, k: nat)
    ensures Place(size, t, k) == Place(size, t, 0) + k
    decreases t
  {
    if t > 0 {
      PlaceInGroup(size, t - 1, k);
    }
  }

  lemma {:induction false} UpkeepLength(targets: seq<Target>, kinds: seq<Kind>)
    ensures |Upkeep(targets, kinds)| == Place(|kinds|, |targets|, 0)
    decreases |targets|
  {
    if targets != [] {
      UpkeepLength(targets[..|targets| - 1], kinds);
    }
  }

  lemma {:induction false} UpkeepAt(targets: seq<Target>, kinds: seq<Kind>, t: nat, k: nat)
    requires t < |targets| && k < |kinds|
    ensures Place(|kinds|, t, k) < |Upkeep(targets, kinds)|
    ensures Upkeep(targets, kinds)[Place(|kinds|, t, k)] == Task(kinds[k], targets[t], None)
    decreases |targets|
  {
    var init := targets[..|targets| - 1];
    UpkeepLength(init, kinds);
    if t < |init| {
      UpkeepAt(init, kinds, t, k);
    } else {
      PlaceInGroup(|kinds|, t, k);
    }
  }

  predicate OnlyMaintains(tasks: seq<Task>, targets: seq<Target>) {
    forall i :: 0 <= i < |tasks| ==> tasks[i].kind != Create && tasks[i].target in targets
  }

  lemma {:induction false} UpkeepOnlyMaintains(targets: seq<Target>, kinds: seq<Kind>)
    requires Create !in kinds
    ensures OnlyMaintains(Upkeep(targets, kinds), targets)
    decreases |targets|
  {
    if targets != [] {
      var init, last := targets[..|targets| - 1], targets[|targets| - 1];
      UpkeepOnlyMaintains(init, kinds);
      forall i | 0 <= i < |Upkeep(targets, kinds)|
        ensures Upkeep(targets, kinds)[i].kind != Create && Upkeep(targets, kinds)[i].target in targets
      {
        if i < |Upkeep(init, kinds)| {
          assert Upkeep(init, kinds)[i].target in init;
        } else {
          assert Upkeep(targets, kinds)[i] == Group(last, kinds)[i - |Upkeep(init, kinds)|];
        }
      }
    }
  }

  /** What the executor takes for granted: one create per target, in target order, and no create afterwards. */
  predicate WellShaped(plan: Plan) {
    && 0 < |plan.targets| <= |plan.tasks|
    && (forall i :: 0 <= i < |plan.targets| ==>
          plan.tasks[i].kind == Create && plan.tasks[i].target == plan.targets[i])
    && (forall i :: |plan.targets| <= i < |plan.tasks| ==>
          plan.tasks[i].kind != Create && plan.tasks[i].target in plan.targets)
  }

  // ---------------------------------------- where the maintenance tasks stand

  /** How many maintenance tasks each maintained target gets. */
  function GroupSize(prune: bool, check: bool, compact: bool): nat {
    (if prune then 1 else 0) + (if check then 1 else 0) + (if compact then 1 else 0)
  }

  /** From `at` on stand the wanted ones of prune, check and compact of this target, in this order. */
  predicate GroupStands(tasks: seq<Task>, at: nat, target: Target, prune: bool, check: bool, compact: bool) {
    var afterPrune := if prune then at + 1 else at;
    var afterCheck := if check then afterPrune + 1 else afterPrune;
    && (prune ==> at < |tasks| && tasks[at] == Task(Prune, target, None))
    && (check ==> afterPrune < |tasks| && tasks[afterPrune] == Task(Check, target, None))
    && (compact ==> afterCheck < |tasks| && tasks[afterCheck] == Task(Compact, target, None))
  }

  /** One create per target, then one group per maintained target, and nothing else. */
  predicate Layout(
    tasks: seq<Task>, targets: seq<Target>, archive: Archive, maintained: seq<Target>,
    prune: bool, check: bool, compact: bool)
  {
    var size := GroupSize(prune, check, compact);
    && |tasks| == |targets| + |maintained| * size
    && (forall i :: 0 <= i < |targets| ==> tasks[i] == Task(Create, targets[i], Some(archive)))
    && forall t :: 0 <= t < |maintained| ==>
         GroupStands(tasks, |targets| + t * size, maintained[t], prune, check, compact)
  }

  lemma KindsOf(prune: bool, check: bool, compact: bool)
    ensures
      var kinds, p := Due(prune, check, compact), if prune then 1 else 0;
      var q := if check then p + 1 else p;
      && |kinds| == GroupSize(prune, check, compact)
      && (prune ==> 0 < |kinds| && kinds[0] == Prune)
      && (check ==> p < |kinds| && kinds[p] == Check)
      && (compact ==> q < |kinds| && kinds[q] == Compact)
  {}

  lemma TaskOfGroup(
    tasks: seq<Task>, targets: seq<Target>, archive: Archive, maintained: seq<Target>, kinds: seq<Kind>,
    t: nat, k: nat, at: nat)
    requires tasks == Creates(targets, archive) + Upkeep(maintained, kinds)
    requires t < |maintained| && k < |kinds| && at == |targets| + t * |kinds|
    ensures at + k < |tasks| && tasks[at + k] == Task(kinds[k], maintained[t], None)
  {
    UpkeepAt(maintained, kinds, t, k);
    PlaceIsProduct(|kinds|, t, k);
  }

  lemma GroupIsThere(
    tasks: seq<Task>, targets: seq<Target>, archive: Archive, maintained: seq<Target>,
    prune: bool, check: bool, compact: bool, t: nat, at: nat)
    requires tasks == Creates(targets, archive) + Upkeep(maintained, Due(prune, check, compact))
    requires t < |maintained| && at == |targets| + t * |Due(prune, check, compact)|
    ensures GroupStands(tasks, at, maintained[t], prune, check, compact)
  {
    var kinds := Due(prune, check, compact);
    forall k: nat | k < |kinds|
      ensures at + k < |tasks| && tasks[at + k] == Task(kinds[k], maintained[t], None)
    {
      TaskOfGroup(tasks, targets, archive, maintained, kinds, t, k, at);
    }
    GroupFromKinds(tasks, at, maintained[t], prune, check, compact);
  }

  lemma GroupFromKinds(tasks: seq<Task>, at: nat, target: Target, prune: bool, check: bool, compact: bool)
    requires forall k: nat :: k < |Due(prune, check, compact)| ==>
               at + k < |tasks| && tasks[at + k] == Task(Due(prune, check, compact)[k], target, None)
    ensures GroupStands(tasks, at, target, prune, check, compact)
  {
    KindsOf(prune, check, compact);
  }

  lemma TasksAreLaidOut(
    tasks: seq<Task>, targets: seq<Target>, archive: Archive, maintained: seq<Target>,
    prune: bool, check: bool, compact: bool)
    requires tasks == Creates(targets, archive) + Upkeep(maintained, Due(prune, check, compact))
    ensures Layout(tasks, targets, archive, maintained, prune, check, compact)
  {
    KindsOf(prune, check, compact);
    UpkeepLength(maintained, Due(prune, check, compact));
    PlaceIsProduct(GroupSize(prune, check, compact), |maintained|, 0);
    forall t | 0 <= t < |maintained|
      ensures GroupStands(tasks, |targets| + t * GroupSize(prune, check, compact), maintained[t], prune, check, compact)
    {
      GroupIsThere(tasks, targets, archive, maintained, prune, check, compact, t,
                   |targets| + t * GroupSize(prune, check, compact));
    }
  }

  lemma {:induction false} GroupOf(size: nat, groups: nat, j: nat) returns (t: nat, k: nat)
    requires j < Place(size, groups, 0)
    ensures t < groups && k < size && j == t * size + k
    decreases groups
  {
    PlaceIsProduct(size, groups - 1, 0);
    if j < Place(size, groups - 1, 0) {
      t, k := GroupOf(size, groups - 1, j);
    } else {
      t, k := groups - 1, j - (groups - 1) * size;
    }
  }

  /**
    Every task after the creates is the one prune, check or compact of one maintained target: its kind is
    wanted, and which group and which place in it follows from its position.
   */
  lemma EveryTaskHasItsPlace(
    tasks: seq<Task>, targets: seq<Target>, archive: Archive, maintained: seq<Target>,
    prune: bool, check: bool, compact: bool, i: nat)
    returns (t: nat, k: nat)
    requires Layout(tasks, targets, archive, maintained, prune, check, compact)
    requires |targets| <= i < |tasks|
    ensures t < |maintained| && tasks[i].target == maintained[t] && tasks[i].archive == None
    ensures i == |targets| + t * GroupSize(prune, check, compact) + k
    ensures match tasks[i].kind
            case Create => false
            case Prune => prune && k == 0
            case Check => check && k == if prune then 1 else 0
            case Compact => compact && k == (if prune then 1 else 0) + if check then 1 else 0
  {
    var size := GroupSize(prune, check, compact);
    PlaceIsProduct(size, |maintained|, 0);
    t, k := GroupOf(size, |maintained|, i - |targets|);
    assert GroupStands(tasks, |targets| + t * size, maintained[t], prune, check, compact);
  }

  method BuildGroup(target: Target, prune: bool, check: bool, compact: bool) returns (tasks: seq<Task>)
    ensures tasks == Group(target, Due(prune, check, compact))
  {
    tasks := [];
    if prune {
      tasks := tasks + [Task(Prune, target, None)];
    }
    if check {
      tasks := tasks + [Task(Check, target, None)];
    }
    if compact {
      tasks := tasks + [Task(Compact, target, None)];
    }
  }

  method BuildTasks(targets: seq<Target>, archive: Archive, maintained: seq<Target>,
                    prune: bool, check: bool, compact: bool)
    returns (tasks: seq<Task>)
    ensures tasks == Creates(targets, archive) + Upkeep(maintained, Due(prune, check, compact))
    ensures Layout(tasks, targets, archive, maintained, prune, check, compact)
  {
    tasks := [];
    for i := 0 to |targets|
      invariant tasks == Creates(targets, archive)[..i]
    {
      tasks := tasks + [Task(Create, targets[i], Some(archive))];
    }
    var upkeep := BuildUpkeep(maintained, prune, check, compact);
    tasks := tasks + upkeep;
    TasksAreLaidOut(tasks, targets, archive, maintained, prune, check, compact);
  }

  method BuildUpkeep(maintained: seq<Target>, prune: bool, check: bool, compact: bool) returns (tasks: seq<Task>)
    ensures tasks == Upkeep(maintained, Due(prune, check, compact))
  {
    tasks := [];
    for i := 0 to |maintained|
      invariant tasks == Upkeep(maintained[..i], Due(prune, check, compact))
    {
      var group := BuildGroup(maintained[i], prune, check, compact);
      tasks := tasks + group;
      assert maintained[..i + 1][..i] == maintained[..i];
    }
    assert maintained[..|maintained|] == maintained;
  }

  // ------------------------------------------------------------- whole planner

  /** `archive_ref` refuses this name. */
  predicate BadName(archive: string) {
    archive == "" || StartsWith(archive, "-") || Contains(archive, "::") || '/' in archive
  }

  predicate Contains(s: string, p: string) {
    exists i :: 0 <= i <= |s| && StartsWith(s[i..], p)
  }

  function Maintained(c: Config, targets: seq<Target>): seq<Target>
    requires targets != []
  {
    if c.maintainAllDestinations then targets else targets[..1]
  }

  function Excludes(job: Job, w: World): seq<string> {
    WithInternal(WithInternal(StripAll(job.excludeFolders), w.borgBaseDir), w.logsDir)
  }

  function WithInternal(excludes: seq<string>, path: string): seq<string> {
    if path in excludes then excludes else excludes + [path]
  }

  function SourcePaths(job: Job): seq<string> {
    if job.includeFolders == [] then ["/"] else job.includeFolders
  }

  function Available(job: Job, w: World): seq<string> {
    Only(Configured(SourcePaths(job)), w.found, true)
  }

  function CanaryOf(c: Config, jobName: string, stamp: string, w: World, write: bool): Option<CanaryInfo> {
    if !c.canaryEnabled then None
    else
      Some(CanaryInfo(w.canaryFile, WithoutSlashes(w.canaryFile),
                      if write then w.sha(Canary.Content(jobName, stamp)) else ""))
  }

  function ArchiveOf(job: Job, archiveName: string, canary: Option<CanaryInfo>, w: World): Archive {
    var includes := Available(job, w);
    Archive(archiveName, Strip(Either(job.compression, "lz4")),
            if canary.Some? then WithInternal(includes, canary.value.path) else includes,
            Excludes(job, w), if canary.Some? then Some(canary.value.relPath) else None)
  }

  /** Every destination of the job resolves to a repository. */
  predicate Resolves(c: Config, job: Job, w: World) {
    forall k :: 0 <= k < |job.destinationIds| ==> ResolveTarget(c, job.destinationIds[k], w).Ok?
  }

  predicate CanPlan(c: Config, job: Job, archiveName: string, w: World) {
    && job.destinationIds != [] && Resolves(c, job, w)
    && AllAbsolute(SourcePaths(job)) && Available(job, w) != []
    && !BadName(archiveName)
  }

  /** Which refusal goes with which input, in the order in which the source looks. */
  predicate Explains(c: Config, job: Job, archiveName: string, w: World, error: PlanError) {
    match error
    case NoSuchJob => false
    case NoTarget => job.destinationIds == []
    case RelativeSource => Resolves(c, job, w) && !AllAbsolute(SourcePaths(job))
    case NoSource => Resolves(c, job, w) && AllAbsolute(SourcePaths(job)) && Available(job, w) == []
    case BadArchiveName =>
      Resolves(c, job, w) && AllAbsolute(SourcePaths(job)) && Available(job, w) != [] && BadName(archiveName)
    case _ => exists k :: 0 <= k < |job.destinationIds| && FirstFailure(c, job.destinationIds, w, k, error)
  }

  /** What a plan for `job` consists of. */
  predicate Planned(c: Config, job: Job, upkept: Upkept, now: Time, stamp: string, w: World, write: bool, plan: Plan) {
    && plan.jobName == job.name
    && |plan.targets| == |job.destinationIds| > 0
    && (forall k :: 0 <= k < |plan.targets| ==>
          ResolveTarget(c, job.destinationIds[k], w) == Ok(plan.targets[k]))
    && plan.missingSources == Only(Configured(SourcePaths(job)), w.found, false)
    && plan.canary == CanaryOf(c, job.name, stamp, w, write)
    && plan.runCheck == (job.validateEnabled && MaintenanceDue(upkept.lastCheckAt, job.validateInterval, now))
    && plan.runCompact == (job.optimizeEnabled && MaintenanceDue(upkept.lastCompactAt, job.optimizeInterval, now))
    && plan.tasks ==
       Creates(plan.targets, ArchiveOf(job, plan.archiveName, plan.canary, w)) +
       Upkeep(Maintained(c, plan.targets), Due(job.pruneEnabled, plan.runCheck, plan.runCompact))
  }

  /** The refusals of `plan_backup` in their order; otherwise the targets and the missing sources. */
  method CheckInputs(c: Config, job: Job, archiveName: string, w: World)
    returns (r: Result<(seq<Target>, seq<string>), PlanError>)
    ensures r.Ok? <==> CanPlan(c, job, archiveName, w)
    ensures r.Ok? ==> |r.value.0| == |job.destinationIds|
    ensures r.Ok? ==> forall k :: 0 <= k < |r.value.0| ==> ResolveTarget(c, job.destinationIds[k], w) == Ok(r.value.0[k])
    ensures r.Ok? ==> r.value.1 == Only(Configured(SourcePaths(job)), w.found, false)
    ensures r.Err? ==> !r.error.NoSuchJob? && Explains(c, job, archiveName, w, r.error)
  {
    var targets := ResolveTargets(c, job, w);
    if targets.Err? {
      return Err(targets.error);
    }
    var absolute, available, missing := SplitSources(SourcePaths(job), w.found);
    if !absolute {
      return Err(RelativeSource);
    }
    if available == [] {
      return Err(NoSource);
    }
    if BadName(archiveName) {
      return Err(BadArchiveName);
    }
    return Ok((targets.value, missing));
  }

  method PlanBackup(c: Config, jobName: string, upkept: Upkept, now: Time, stamp: string, archiveName: string,
                    w: World, write: bool)
    returns (r: Result<Plan, PlanError>)
    ensures r == Err(NoSuchJob) <==> FindJob(c.jobs, jobName).None?
    ensures r.Ok? <==> FindJob(c.jobs, jobName).Some? && CanPlan(c, FindJob(c.jobs, jobName).value, archiveName, w)
    ensures r.Ok? ==> Planned(c, FindJob(c.jobs, jobName).value, upkept, now, stamp, w, write, r.value)
    ensures r.Ok? ==> r.value.archiveName == archiveName
    ensures r.Ok? ==>
              var job, plan := FindJob(c.jobs, jobName).value, r.value;
              && Layout(plan.tasks, plan.targets, ArchiveOf(job, archiveName, plan.canary, w),
                        if c.maintainAllDestinations then plan.targets else plan.targets[..1],
                        job.pruneEnabled, plan.runCheck, plan.runCompact)
              && (plan.runCheck <==> job.validateEnabled && WeeksOld(upkept.lastCheckAt, job.validateInterval, now))
              && (plan.runCompact <==> job.optimizeEnabled && WeeksOld(upkept.lastCompactAt, job.optimizeInterval, now))
    ensures r.Err? && !r.error.NoSuchJob? ==> Explains(c, FindJob(c.jobs, jobName).value, archiveName, w, r.error)
  {
    var found := FindJob(c.jobs, jobName);
    if found.None? {
      return Err(NoSuchJob);
    }
    var job := found.value;
    var inputs := CheckInputs(c, job, archiveName, w);
    if inputs.Err? {
      return Err(inputs.error);
    }
    var (targets, missing) := inputs.value;
    var canary := CanaryOf(c, jobName, stamp, w, write);
    var runCheck := job.validateEnabled && MaintenanceDue(upkept.lastCheckAt, job.validateInterval, now);
    var runCompact := job.optimizeEnabled && MaintenanceDue(upkept.lastCompactAt, job.optimizeInterval, now);
    var tasks := BuildTasks(targets, ArchiveOf(job, archiveName, canary, w), Maintained(c, targets),
                            job.pruneEnabled, runCheck, runCompact);
    DueAfterWeeks(upkept.lastCheckAt, job.validateInterval, now);
    DueAfterWeeks(upkept.lastCompactAt, job.optimizeInterval, now);
    return Ok(Plan(jobName, archiveName, tasks, targets, missing, canary, runCheck, runCompact));
  }

  /** One create per target, then a group of `kinds` for each of the first targets. */
  predicate Arranged(plan: Plan, archive: Archive, maintained: seq<Target>, kinds: seq<Kind>) {
    && 0 < |maintained| && maintained <= plan.targets
    && plan.tasks == Creates(plan.targets, archive) + Upkeep(maintained, kinds)
  }

  lemma ArrangedIsWellShaped(plan: Plan, archive: Archive, maintained: seq<Target>, kinds: seq<Kind>)
    requires Arranged(plan, archive, maintained, kinds) && Create !in kinds
    ensures WellShaped(plan)
    ensures |plan.tasks| == |plan.targets| + Place(|kinds|, |maintained|, 0)
  {
    var n := |plan.targets|;
    UpkeepLength(maintained, kinds);
    UpkeepOnlyMaintains(maintained, kinds);
    forall i | n <= i < |plan.tasks|
      ensures plan.tasks[i].kind != Create && plan.tasks[i].target in plan.targets
    {
      assert plan.tasks[i] == Upkeep(maintained, kinds)[i - n];
      assert plan.tasks[i].target in maintained;
    }
    assert forall i :: 0 <= i < n ==> plan.tasks[i] == Creates(plan.targets, archive)[i];
  }

  /** Every plan has the shape that `run_backup` takes for granted. */
  lemma PlannedIsWellShaped(
    c: Config, job: Job, upkept: Upkept, now: Time, stamp: string, w: World, write: bool, plan: Plan)
    requires Planned(c, job, upkept, now, stamp, w, write, plan)
    ensures WellShaped(plan)
    ensures |plan.tasks| ==
            |plan.targets| +
            Place(|Due(job.pruneEnabled, plan.runCheck, plan.runCompact)|, |Maintained(c, plan.targets)|, 0)
  {
    ArrangedIsWellShaped(plan, ArchiveOf(job, plan.archiveName, plan.canary, w), Maintained(c, plan.targets),
                         Due(job.pruneEnabled, plan.runCheck, plan.runCompact));
  }

  /**
    Where each task of a plan stands: the creates, then for every maintained target its prune, check and
    compact tasks in this order, each only if it is wanted, and nothing else.
   */
  lemma MaintenanceFollowsInOrder(
    c: Config, job: Job, upkept: Upkept, now: Time, stamp: string, w: World, write: bool, plan: Plan)
    requires Planned(c, job, upkept, now, stamp, w, write, plan)
    ensures Layout(plan.tasks, plan.targets, ArchiveOf(job, plan.archiveName, plan.canary, w),
                   if c.maintainAllDestinations then plan.targets else plan.targets[..1],
                   job.pruneEnabled, plan.runCheck, plan.runCompact)
  {
    TasksAreLaidOut(plan.tasks, plan.targets, ArchiveOf(job, plan.archiveName, plan.canary, w),
                    Maintained(c, plan.targets), job.pruneEnabled, plan.runCheck, plan.runCompact);
  }
}
