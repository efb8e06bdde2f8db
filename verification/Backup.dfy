/**
  `run_backup`, `_verify_canary` and `_finish_backup` of borg_daemon.py. The runner is an oracle,
  and the stop event may become set at any instant.
 */
module Backup {
  import opened Wrappers
  import opened Schedule
  import opened Planner
  import opened Plans
  import Canary
  import Text

  datatype CommandResult = CommandResult(exitCode: int, stopped: bool, error: string, stdout: string) {
    predicate Good() {
      (exitCode == 0 || exitCode == 1) && !stopped && error == ""
    }
  }

  /**
    What happens around one backup: `result(i)` is what the runner returns for task i, `extracted(k)`
    for the k-th canary extraction. Task i starts right after instant 2i and has returned at instant
    2i + 1; the backup is summed up at instant 2n for n tasks. The stop event is set from `stopAt` on.
    The times are those of the clock after the canary check, after the last task, and in `_finish_backup`.
   */
  datatype Course = Course(
    stopAt: Option<nat>, result: nat -> CommandResult, extracted: nat -> CommandResult,
    canaryAt: Time, endAt: Time, finishedAt: Time)
  {
    predicate Stop(instant: nat) {
      stopAt.Some? && stopAt.value <= instant
    }
  }

  /** The runner reports `stopped` only when the stop event is set. */
  predicate Honest(plan: Plan, w: Course) {
    forall i :: 0 <= i < |plan.tasks| && w.result(i).stopped ==> w.Stop(2 * i + 1)
  }

  datatype DestResult = DestResult(id: string, name: string, good: bool, exitCode: int)

  function ResultOf(target: Target, r: CommandResult): DestResult {
    DestResult(target.destId, target.destName, r.Good(), r.exitCode)
  }

  /** The text of the error in the status record. */
  datatype Complaint =
    | Nothing | Refused(error: PlanError) | Cancelled | NoDestination
    | Partial(failed: nat, good: nat) | AllFailed | Warnings

  /** `failedUpkeep` holds the positions of the maintenance tasks named in the error message. */
  datatype Summary = Summary(
    exitCode: int, complaint: Complaint, failedUpkeep: seq<nat>, destResults: seq<DestResult>, success: bool)

  datatype CanaryRecord = CanaryRecord(good: bool, checkedAt: Time, expectedHash: string, verifiedHash: string)

  /** The parts of a job's status record that one backup may change. */
  datatype Record = Record(
    lastRunAt: Option<Time>, lastSuccessAt: Option<Time>, lastExitCode: Option<int>, complaint: Complaint,
    failedUpkeep: seq<nat>, destResults: seq<DestResult>, upkept: Upkept, canary: Option<CanaryRecord>)

  // ------------------------------------------------------------------- canary

  /** The targets whose create succeeded: `zip(plan.targets, dest_results)` filtered. */
  function GoodTargets(targets: seq<Target>, results: seq<DestResult>): seq<Target>
    requires |results| <= |targets|
  {
    if results == [] then []
    else
      var n := |results| - 1;
      GoodTargets(targets, results[..n]) + if results[n].good then [targets[n]] else []
  }

  function StoredPart(v: Canary.Verdict): string {
    match v
    case Empty => ""
    case NoHash => ""
    case Mismatch(stored) => stored
    case Outdated(stored) => stored
    case Verified(stored) => stored
  }

  predicate CanaryFound(sha: Canary.Hash, r: CommandResult, expectedHash: string) {
    r.exitCode == 0 && Canary.Check(sha, r.stdout, expectedHash).Verified?
  }

  function StoredAfter(sha: Canary.Hash, r: CommandResult, expectedHash: string, before: string): string {
    if r.exitCode == 0 then StoredPart(Canary.Check(sha, r.stdout, expectedHash)) else before
  }

  /** The hash kept in the record: that of the last extraction that worked. */
  function LastStored(sha: Canary.Hash, extracted: nat -> CommandResult, expectedHash: string, n: nat): string {
    if n == 0 then ""
    else StoredAfter(sha, extracted(n - 1), expectedHash, LastStored(sha, extracted, expectedHash, n - 1))
  }

  predicate AllFound(sha: Canary.Hash, extracted: nat -> CommandResult, expectedHash: string, n: nat) {
    n == 0 || (AllFound(sha, extracted, expectedHash, n - 1) && CanaryFound(sha, extracted(n - 1), expectedHash))
  }

  lemma {:induction false} AllFoundMeansEach(
    sha: Canary.Hash, extracted: nat -> CommandResult, expectedHash: string, n: nat, k: nat)
    requires AllFound(sha, extracted, expectedHash, n) && k < n
    ensures CanaryFound(sha, extracted(k), expectedHash)
    decreases n
  {
    if k < n - 1 {
      AllFoundMeansEach(sha, extracted, expectedHash, n - 1, k);
    }
  }

  lemma {:induction false} AllFoundIsEach(
    sha: Canary.Hash, extracted: nat -> CommandResult, expectedHash: string, n: nat)
    requires forall k :: 0 <= k < n ==> CanaryFound(sha, extracted(k), expectedHash)
    ensures AllFound(sha, extracted, expectedHash, n)
    decreases n
  {
    if n > 0 {
      AllFoundIsEach(sha, extracted, expectedHash, n - 1);
    }
  }

  /** Whatever the verdict, what is kept of it is the hash that the text stores. */
  lemma StoredPartIsStored(sha: Canary.Hash, text: string, expectedHash: string)
    ensures StoredPart(Canary.Check(sha, text, expectedHash)) == Canary.StoredHash(text)
  {
    if Text.Strip(text) == "" {
      var lines := Text.Split(Text.Strip(text), '\n');
      assert lines == [""] && lines[..0] == [] && !Canary.IsMark("");
      assert Canary.Stored(lines) == Canary.Stored([]) == "";
    }
  }

  /** The kept hash is the one stored in the last text that was extracted without an error. */
  lemma {:induction false} LastStoredIs(
    sha: Canary.Hash, extracted: nat -> CommandResult, expectedHash: string, n: nat, k: nat)
    requires k < n && forall i :: k < i < n ==> extracted(i).exitCode != 0
    ensures extracted(k).exitCode == 0 ==>
              LastStored(sha, extracted, expectedHash, n) == Canary.StoredHash(extracted(k).stdout)
    ensures k == 0 && extracted(0).exitCode != 0 ==> LastStored(sha, extracted, expectedHash, n) == ""
    decreases n
  {
    if k < n - 1 {
      LastStoredIs(sha, extracted, expectedHash, n - 1, k);
    } else {
      StoredPartIsStored(sha, extracted(k).stdout, expectedHash);
    }
  }

  method VerifyTarget(sha: Canary.Hash, res: CommandResult, expectedHash: string, before: string)
    returns (found: bool, stored: string)
    ensures found <==> CanaryFound(sha, res, expectedHash)
    ensures stored == StoredAfter(sha, res, expectedHash, before)
  {
    if res.exitCode != 0 {
      return false, before;
    }
    var verdict := Canary.CheckCanaryContent(sha, res.stdout, expectedHash);
    return verdict.Verified?, StoredPart(verdict);
  }

  method VerifyTargets(sha: Canary.Hash, n: nat, extracted: nat -> CommandResult, expectedHash: string)
    returns (good: bool, stored: string)
    ensures good <==> AllFound(sha, extracted, expectedHash, n)
    ensures stored == LastStored(sha, extracted, expectedHash, n)
  {
    good, stored := true, "";
    for k := 0 to n
      invariant good <==> AllFound(sha, extracted, expectedHash, k)
      invariant stored == LastStored(sha, extracted, expectedHash, k)
    {
      var found, now := VerifyTarget(sha, extracted(k), expectedHash, stored);
      good, stored := good && found, now;
    }
  }

  // ---------------------------------------------------------------- summing up

  function CountGood(results: seq<DestResult>): (n: nat)
    ensures n <= |results|
    ensures n == |results| <==> forall i :: 0 <= i < |results| ==> results[i].good
    ensures n > 0 <==> exists i :: 0 <= i < |results| && results[i].good
  {
    if results == [] then 0
    else CountGood(results[..|results| - 1]) + if results[|results| - 1].good then 1 else 0
  }

  /** The positions of the results that are good. */
  function GoodOnes(results: seq<DestResult>): set<nat> {
    set i: nat | i < |results| && results[i].good
  }

  lemma {:induction false} GoodAreCounted(results: seq<DestResult>)
    ensures CountGood(results) == |GoodOnes(results)|
    decreases |results|
  {
    if results == [] {
      assert GoodOnes(results) == {};
    } else {
      var n := |results| - 1;
      GoodAreCounted(results[..n]);
      assert GoodOnes(results) == GoodOnes(results[..n]) + if results[n].good then {n} else {};
    }
  }

  method WorstExitCode(results: seq<DestResult>) returns (code: int)
    requires results != []
    ensures exists i :: 0 <= i < |results| && results[i].exitCode == code
    ensures forall i :: 0 <= i < |results| ==> results[i].exitCode <= code
  {
    code := results[0].exitCode;
    for i := 1 to |results|
      invariant exists k :: 0 <= k < i && results[k].exitCode == code
      invariant forall k :: 0 <= k < i ==> results[k].exitCode <= code
    {
      if results[i].exitCode > code {
        code := results[i].exitCode;
      }
    }
  }

  /** What the end of `run_backup` makes of the results of the create tasks. */
  ghost predicate SumsUp(results: seq<DestResult>, failedUpkeep: seq<nat>, stopped: bool, s: Summary) {
    && (s.exitCode == -2 <==> stopped)
    && (s.exitCode == -1 <==> !stopped && results == [])
    && (s.exitCode == 2 <==> !stopped && exists i :: 0 <= i < |results| && !results[i].good)
    && (s.exitCode == 1 <==>
        && !stopped && (forall i :: 0 <= i < |results| ==> results[i].good)
        && exists i :: 0 <= i < |results| && results[i].exitCode == 1)
    && -2 <= s.exitCode <= 2
    && (s.success <==> !stopped && exists i :: 0 <= i < |results| && results[i].good)
    && (s.complaint == Nothing <==> s.exitCode == 0)
    && (s.complaint == NoDestination <==> s.exitCode == -1)
    && (s.complaint == Cancelled <==> s.exitCode == -2)
    && (s.complaint == Warnings <==> s.exitCode == 1)
    && (s.complaint == AllFailed <==> s.exitCode == 2 && forall i :: 0 <= i < |results| ==> !results[i].good)
    && (s.complaint.Partial? ==>
        s.complaint.good == |GoodOnes(results)| && s.complaint.failed == |results| - |GoodOnes(results)|)
    && s.destResults == results && s.failedUpkeep == if stopped then [] else failedUpkeep
  }

  method SumUp(results: seq<DestResult>, failedUpkeep: seq<nat>, stopped: bool) returns (s: Summary)
    requires forall i :: 0 <= i < |results| && results[i].good ==> 0 <= results[i].exitCode <= 1
    ensures SumsUp(results, failedUpkeep, stopped, s)
  {
    var good := CountGood(results);
    var failed := |results| - good;
    GoodAreCounted(results);
    var code, complaint := 0, Nothing;
    if stopped {
      code, complaint := -2, Cancelled;
    } else if results == [] {
      code, complaint := -1, NoDestination;
    } else if failed > 0 {
      code, complaint := 2, if failed == |results| then AllFailed else Partial(failed, good);
    } else {
      code := WorstExitCode(results);
      complaint := if code == 1 then Warnings else Nothing;
    }
    s := Summary(code, complaint, if stopped then [] else failedUpkeep, results, good > 0 && !stopped);
  }

  // ------------------------------------------------------------- the task loop

  /** Maintenance task i makes the loop end: it was stopped. */
  predicate Quits(plan: Plan, w: Course, i: nat)
    requires i < |plan.tasks|
  {
    plan.tasks[i].kind != Create && w.result(i).stopped
  }

  /** Exactly the first `ran` tasks are run. */
  predicate Ran(plan: Plan, w: Course, ran: nat) {
    && ran <= |plan.tasks|
    && (forall i :: 0 <= i < ran ==> !w.Stop(2 * i))
    && (forall i :: 0 <= i < ran - 1 ==> !Quits(plan, w, i))
    && (ran < |plan.tasks| ==> w.Stop(2 * ran) || (ran > 0 && Quits(plan, w, ran - 1)))
  }

  function Results(plan: Plan, w: Course, n: nat): (r: seq<DestResult>)
    requires n <= |plan.targets|
    ensures |r| == n
    ensures forall i :: 0 <= i < n ==> r[i] == ResultOf(plan.targets[i], w.result(i))
  {
    seq(n, i requires 0 <= i < n => ResultOf(plan.targets[i], w.result(i)))
  }

  function Min(a: nat, b: nat): nat {
    if a < b then a else b
  }

  predicate UpkeepFailed(plan: Plan, w: Course, ran: nat, k: nat)
    requires ran <= |plan.tasks|
  {
    k < ran && plan.tasks[k].kind != Create && !w.result(k).Good() && !w.result(k).stopped
  }

  /** A `kind` task at the primary target was run and succeeded. */
  predicate UpkeepDone(plan: Plan, w: Course, ran: nat, kind: Kind)
    requires ran <= |plan.tasks| && plan.targets != []
  {
    exists k :: 0 <= k < ran && IsDone(plan, w, k, kind)
  }

  /** The local variables of the task loop after `ran` tasks. */
  datatype Progress = Progress(
    ran: nat, results: seq<DestResult>, failedUpkeep: seq<nat>, checkOk: bool, compactOk: bool)

  ghost predicate Tracks(plan: Plan, w: Course, p: Progress)
    requires plan.targets != []
  {
    && p.ran <= |plan.tasks|
    && p.results == Results(plan, w, Min(p.ran, |plan.targets|))
    && (forall k: nat :: k in p.failedUpkeep <==> UpkeepFailed(plan, w, p.ran, k))
    && (p.checkOk <==> UpkeepDone(plan, w, p.ran, Check))
    && (p.compactOk <==> UpkeepDone(plan, w, p.ran, Compact))
  }

  /** A good `kind` task at the primary target. */
  predicate IsDone(plan: Plan, w: Course, k: nat, kind: Kind)
    requires plan.targets != [] && k < |plan.tasks|
  {
    plan.tasks[k].kind == kind && plan.tasks[k].target.destId == plan.targets[0].destId && w.result(k).Good()
  }

  function Next(plan: Plan, w: Course, p: Progress): Progress
    requires plan.targets != [] && p.ran < |plan.tasks|
  {
    var task, r := plan.tasks[p.ran], w.result(p.ran);
    if task.kind == Create then p.(ran := p.ran + 1, results := p.results + [ResultOf(task.target, r)])
    else if !r.Good() then
      p.(ran := p.ran + 1, failedUpkeep := p.failedUpkeep + if r.stopped then [] else [p.ran])
    else
      p.(ran := p.ran + 1,
         checkOk := p.checkOk || IsDone(plan, w, p.ran, Check),
         compactOk := p.compactOk || IsDone(plan, w, p.ran, Compact))
  }

  lemma UpkeepDoneNext(plan: Plan, w: Course, ran: nat, kind: Kind)
    requires plan.targets != [] && ran < |plan.tasks|
    ensures UpkeepDone(plan, w, ran + 1, kind) <==> UpkeepDone(plan, w, ran, kind) || IsDone(plan, w, ran, kind)
  {}

  lemma UpkeepFailedNext(plan: Plan, w: Course, ran: nat)
    requires ran < |plan.tasks|
    ensures forall k: nat :: UpkeepFailed(plan, w, ran + 1, k) <==>
              UpkeepFailed(plan, w, ran, k) ||
              (k == ran && plan.tasks[k].kind != Create && !w.result(k).Good() && !w.result(k).stopped)
  {}

  lemma NextTracks(plan: Plan, w: Course, p: Progress)
    requires WellShaped(plan) && p.ran < |plan.tasks| && Tracks(plan, w, p)
    ensures Tracks(plan, w, Next(plan, w, p))
  {
    UpkeepDoneNext(plan, w, p.ran, Check);
    UpkeepDoneNext(plan, w, p.ran, Compact);
    UpkeepFailedNext(plan, w, p.ran);
    if p.ran < |plan.targets| {
      assert Results(plan, w, p.ran + 1) == Results(plan, w, p.ran) + [ResultOf(plan.targets[p.ran], w.result(p.ran))];
    }
  }

  predicate SomeGood(plan: Plan, w: Course) {
    exists k :: 0 <= k < |plan.targets| && w.result(k).Good()
  }

  /** The canary is checked right after task number `ran`. */
  predicate CanaryDueAfter(plan: Plan, w: Course, ran: nat) {
    plan.canary.Some? && ran == |plan.targets| && ran > 0 && !w.Stop(2 * ran - 1) && SomeGood(plan, w)
  }

  predicate CanaryDue(plan: Plan, w: Course, ran: nat) {
    |plan.targets| <= ran && CanaryDueAfter(plan, w, |plan.targets|)
  }

  function CanaryOutcome(sha: Canary.Hash, plan: Plan, w: Course): CanaryRecord
    requires plan.canary.Some?
  {
    var n := |GoodTargets(plan.targets, Results(plan, w, |plan.targets|))|;
    var expected := plan.canary.value.expectedHash;
    CanaryRecord(AllFound(sha, w.extracted, expected, n), w.canaryAt, expected,
                 LastStored(sha, w.extracted, expected, n))
  }

  function WithCanary(sha: Canary.Hash, plan: Plan, w: Course, ran: nat, r: Record): Record
  {
    if CanaryDue(plan, w, ran) then r.(canary := Some(CanaryOutcome(sha, plan, w))) else r
  }

  lemma {:induction false} SomeTargetIsGood(targets: seq<Target>, results: seq<DestResult>)
    requires |results| <= |targets|
    ensures GoodTargets(targets, results) == [] <==> forall i :: 0 <= i < |results| ==> !results[i].good
    decreases |results|
  {
    if results != [] {
      SomeTargetIsGood(targets, results[..|results| - 1]);
    }
  }

  // ------------------------------------------------------------------- outcome

  predicate AllGood(plan: Plan, w: Course) {
    forall k :: 0 <= k < |plan.targets| ==> w.result(k).Good()
  }

  /** What the summary of a backup means, whatever the runner did and whenever the stop event was set. */
  ghost predicate Outcome(plan: Plan, w: Course, ran: nat, s: Summary) {
    var stopped := w.Stop(2 * |plan.tasks|);
    && (s.exitCode == -2 <==> stopped)
    && (s.exitCode == 2 <==> !stopped && !AllGood(plan, w))
    && (s.exitCode == 1 <==> !stopped && AllGood(plan, w) && !AllClean(plan, w))
    && (s.exitCode == 0 <==> !stopped && AllGood(plan, w) && AllClean(plan, w))
    && (s.success <==> !stopped && SomeGood(plan, w))
    && (s.complaint == Nothing <==> s.exitCode == 0)
    && s.complaint != NoDestination
    && (s.complaint == Cancelled <==> s.exitCode == -2)
    && (s.complaint == Warnings <==> s.exitCode == 1)
    && (s.complaint == AllFailed <==> s.exitCode == 2 && !SomeGood(plan, w))
    && s.destResults == Results(plan, w, Min(ran, |plan.targets|))
    && (|s.destResults| < |plan.targets| ==> w.Stop(2 * |s.destResults|))
    && (!stopped ==> |s.destResults| == |plan.targets|)
    && (stopped ==> s.failedUpkeep == [])
    && (!stopped ==> forall k: nat :: k in s.failedUpkeep <==> ran <= |plan.tasks| && UpkeepFailed(plan, w, ran, k))
  }

  predicate AllClean(plan: Plan, w: Course) {
    forall k :: 0 <= k < |plan.targets| ==> w.result(k).exitCode == 0
  }

  /** Without a stop every create is run; with an honest runner, every task. */
  lemma UnstoppedRunsAll(plan: Plan, w: Course, ran: nat)
    requires WellShaped(plan) && Ran(plan, w, ran) && !w.Stop(2 * |plan.tasks|)
    ensures |plan.targets| <= ran
    ensures Honest(plan, w) ==> ran == |plan.tasks|
  {
    if ran < |plan.tasks| {
      assert ran > 0 && Quits(plan, w, ran - 1);
    }
  }

  lemma StoppedEarly(plan: Plan, w: Course, ran: nat)
    requires WellShaped(plan) && Ran(plan, w, ran) && ran < |plan.targets|
    ensures w.Stop(2 * ran)
  {
    assert ran > 0 ==> plan.tasks[ran - 1].kind == Create;
  }

  lemma SummaryIsOutcome(plan: Plan, w: Course, p: Progress, s: Summary)
    requires WellShaped(plan) && Ran(plan, w, p.ran) && Tracks(plan, w, p)
    requires SumsUp(p.results, p.failedUpkeep, w.Stop(2 * |plan.tasks|), s)
    ensures Outcome(plan, w, p.ran, s)
  {
    if p.ran < |plan.targets| {
      StoppedEarly(plan, w, p.ran);
    }
    if !w.Stop(2 * |plan.tasks|) {
      UnstoppedRunsAll(plan, w, p.ran);
      var n := |plan.targets|;
      assert |p.results| == n;
      assert forall i :: 0 <= i < n ==> p.results[i].good == w.result(i).Good();
      assert forall i :: 0 <= i < n ==> p.results[i].exitCode == w.result(i).exitCode;
    }
  }

  // ----------------------------------------------------------- the job's record

  function Begun(r: Record, started: Time): Record {
    r.(lastRunAt := Some(Stamp(started)), complaint := Nothing, failedUpkeep := [])
  }

  /** The record after the task loop: canary result, and stamps of maintenance done at the primary target. */
  function Upkeeping(sha: Canary.Hash, plan: Plan, w: Course, ran: nat, r: Record): Record
    requires plan.targets != [] && ran <= |plan.tasks|
  {
    var at := Some(Stamp(w.endAt));
    WithCanary(sha, plan, w, ran, r).(upkept := Upkept(
      if UpkeepDone(plan, w, ran, Check) then at else r.upkept.lastCheckAt,
      if UpkeepDone(plan, w, ran, Compact) then at else r.upkept.lastCompactAt))
  }

  function Finished(r: Record, s: Summary, finished: Time): Record {
    r.(lastExitCode := Some(s.exitCode), complaint := s.complaint, failedUpkeep := s.failedUpkeep,
       destResults := s.destResults,
       lastSuccessAt := if s.success then Some(Stamp(finished)) else r.lastSuccessAt)
  }

  // ------------------------------------------------- the record, field by field

  /** `stamp` is the whole second that contains `t`. */
  predicate StampOf(stamp: Option<Time>, t: Time) {
    stamp.Some? && stamp.value % 1_000_000 == 0 && stamp.value <= t < stamp.value + 1_000_000
  }

  /** Task k was reached, is of this kind, belongs to the primary destination, and the runner found nothing wrong. */
  predicate WentWell(plan: Plan, w: Course, ran: nat, k: nat, kind: Kind) {
    && k < ran && k < |plan.tasks| && plan.targets != []
    && plan.tasks[k].kind == kind
    && plan.tasks[k].target.destId == plan.targets[0].destId
    && (w.result(k).exitCode == 0 || w.result(k).exitCode == 1)
    && !w.result(k).stopped && w.result(k).error == ""
  }

  /** A maintenance stamp becomes the end of the task loop if such a task went well, and else stays. */
  ghost predicate StampMoves(plan: Plan, w: Course, ran: nat, kind: Kind, before: Option<Time>, after: Option<Time>) {
    if exists k: nat :: WentWell(plan, w, ran, k, kind) then StampOf(after, w.endAt) else after == before
  }

  /** The other fields: start, end, exit code, error and results. */
  predicate Told(before: Record, after: Record, s: Summary, started: Time, finished: Time) {
    && StampOf(after.lastRunAt, started)
    && after.lastExitCode == Some(s.exitCode)
    && after.complaint == s.complaint && after.failedUpkeep == s.failedUpkeep && after.destResults == s.destResults
    && if s.success then StampOf(after.lastSuccessAt, finished) else after.lastSuccessAt == before.lastSuccessAt
  }

  /** The canary is verified once all creates were run without a stop and one of them succeeded. */
  ghost predicate CanaryChanges(sha: Canary.Hash, plan: Plan, w: Course, ran: nat, before: Record, after: Record) {
    if plan.canary.Some? && 0 < |plan.targets| <= ran
       && (w.stopAt.None? || w.stopAt.value >= 2 * |plan.targets|)
       && exists k :: 0 <= k < |plan.targets| && w.result(k).Good()
    then after.canary == Some(CanaryOutcome(sha, plan, w))
    else after.canary == before.canary
  }

  lemma StampIsStampOf(t: Time)
    ensures StampOf(Some(Stamp(t)), t)
  {
    StampIsWholeSecond(t);
  }

  lemma DoneMeansWell(plan: Plan, w: Course, ran: nat, kind: Kind)
    requires plan.targets != [] && ran <= |plan.tasks|
    ensures UpkeepDone(plan, w, ran, kind) <==> exists k: nat :: WentWell(plan, w, ran, k, kind)
  {
    if k: nat :| k < ran && IsDone(plan, w, k, kind) {
      assert WentWell(plan, w, ran, k, kind);
    }
    if k: nat :| WentWell(plan, w, ran, k, kind) {
      assert IsDone(plan, w, k, kind);
    }
  }

  lemma RecordMoves(
    sha: Canary.Hash, plan: Plan, w: Course, ran: nat, before: Record, started: Time, s: Summary, after: Record)
    requires plan.targets != [] && ran <= |plan.tasks|
    requires after == Finished(Upkeeping(sha, plan, w, ran, Begun(before, started)), s, w.finishedAt)
    ensures StampMoves(plan, w, ran, Check, before.upkept.lastCheckAt, after.upkept.lastCheckAt)
    ensures StampMoves(plan, w, ran, Compact, before.upkept.lastCompactAt, after.upkept.lastCompactAt)
  {
    StampIsStampOf(w.endAt);
    DoneMeansWell(plan, w, ran, Check);
    DoneMeansWell(plan, w, ran, Compact);
  }

  lemma RecordTells(
    sha: Canary.Hash, plan: Plan, w: Course, ran: nat, before: Record, started: Time, s: Summary, after: Record)
    requires plan.targets != [] && ran <= |plan.tasks|
    requires after == Finished(Upkeeping(sha, plan, w, ran, Begun(before, started)), s, w.finishedAt)
    ensures Told(before, after, s, started, w.finishedAt)
    ensures CanaryChanges(sha, plan, w, ran, before, after)
  {
    StampIsStampOf(started);
    StampIsStampOf(w.finishedAt);
  }

  lemma RefusalTells(before: Record, started: Time, s: Summary, finished: Time, after: Record)
    requires after == Finished(Begun(before, started), s, finished)
    ensures Told(before, after, s, started, finished)
    ensures after.upkept == before.upkept && after.canary == before.canary
  {
    StampIsStampOf(started);
    StampIsStampOf(finished);
  }

  class BackupRun {
    var record: Record
    const sha: Canary.Hash

    constructor (record: Record, sha: Canary.Hash)
      ensures this.record == record && this.sha == sha
    {
      this.record := record;
      this.sha := sha;
    }

    /** `_verify_canary` */
    method VerifyCanary(plan: Plan, w: Course, results: seq<DestResult>)
      requires plan.canary.Some? && results == Results(plan, w, |plan.targets|)
      modifies this
      ensures record ==
              if SomeGood(plan, w) then old(record).(canary := Some(CanaryOutcome(sha, plan, w)))
              else old(record)
    {
      var targets := GoodTargets(plan.targets, results);
      SomeTargetIsGood(plan.targets, results);
      if targets == [] {
        assert forall k :: 0 <= k < |plan.targets| ==> w.result(k).Good() == results[k].good;
        return;
      }
      ghost var i :| 0 <= i < |results| && results[i].good;
      assert w.result(i).Good();
      var expected := plan.canary.value.expectedHash;
      var good, stored := VerifyTargets(sha, |targets|, w.extracted, expected);
      record := record.(canary := Some(CanaryRecord(good, w.canaryAt, expected, stored)));
    }

    /** The body of the task loop, without its exits. */
    method RunTask(plan: Plan, w: Course, p: Progress) returns (q: Progress)
      requires WellShaped(plan) && p.ran < |plan.tasks| && Tracks(plan, w, p)
      modifies this
      ensures q == Next(plan, w, p)
      ensures record == if CanaryDueAfter(plan, w, p.ran + 1)
                        then old(record).(canary := Some(CanaryOutcome(sha, plan, w))) else old(record)
    {
      var task, result := plan.tasks[p.ran], w.result(p.ran);
      q := p.(ran := p.ran + 1);
      if task.kind == Create {
        q := q.(results := q.results + [ResultOf(task.target, result)]);
        if q.ran == |plan.targets| && plan.canary.Some? && !w.Stop(2 * q.ran - 1) {
          NextTracks(plan, w, p);
          VerifyCanary(plan, w, q.results);
        }
      } else if !result.Good() {
        if !result.stopped {
          q := q.(failedUpkeep := q.failedUpkeep + [p.ran]);
        }
      } else if task.kind == Check && task.target.destId == plan.targets[0].destId {
        q := q.(checkOk := true);
      } else if task.kind == Compact && task.target.destId == plan.targets[0].destId {
        q := q.(compactOk := true);
      }
    }

    method RunNext(plan: Plan, w: Course, p: Progress, ghost before: Record) returns (q: Progress)
      requires WellShaped(plan) && p.ran < |plan.tasks| && Tracks(plan, w, p)
      requires record == WithCanary(sha, plan, w, p.ran, before)
      modifies this
      ensures q.ran == p.ran + 1 && Tracks(plan, w, q)
      ensures record == WithCanary(sha, plan, w, q.ran, before)
    {
      NextTracks(plan, w, p);
      q := RunTask(plan, w, p);
    }

    /** The task loop of `run_backup`. */
    method RunTasks(plan: Plan, w: Course) returns (p: Progress)
      requires WellShaped(plan)
      modifies this
      ensures Ran(plan, w, p.ran)
      ensures Tracks(plan, w, p)
      ensures record == WithCanary(sha, plan, w, p.ran, old(record))
    {
      p := Progress(0, [], [], false, false);
      while p.ran < |plan.tasks|
        invariant p.ran <= |plan.tasks|
        invariant forall i :: 0 <= i < p.ran ==> !w.Stop(2 * i) && !Quits(plan, w, i)
        invariant Tracks(plan, w, p)
        invariant record == WithCanary(sha, plan, w, p.ran, old(record))
        decreases |plan.tasks| - p.ran
      {
        if w.Stop(2 * p.ran) {
          break;
        }
        var i := p.ran;
        p := RunNext(plan, w, p, old(record));
        if Quits(plan, w, i) {
          break;
        }
      }
    }

    /** `run_backup` with the planner's answer, up to and including `_finish_backup`. */
    method RunBackup(planned: Result<Plan, PlanError>, started: Time, w: Course) returns (s: Summary, ghost ran: nat)
      requires planned.Ok? ==> WellShaped(planned.value)
      modifies this
      ensures planned.Err? ==> s == Summary(-1, Refused(planned.error), [], [], false)
      ensures planned.Err? ==> record == Finished(Begun(old(record), started), s, w.finishedAt)
      ensures planned.Ok? ==> Ran(planned.value, w, ran) && Outcome(planned.value, w, ran, s)
      ensures planned.Ok? ==>
                record == Finished(Upkeeping(sha, planned.value, w, ran, Begun(old(record), started)), s, w.finishedAt)
      ensures Told(old(record), record, s, started, w.finishedAt)
      ensures planned.Err? ==> record.upkept == old(record.upkept) && record.canary == old(record.canary)
      ensures planned.Ok? ==>
                && StampMoves(planned.value, w, ran, Check,
                              old(record.upkept.lastCheckAt), record.upkept.lastCheckAt)
                && StampMoves(planned.value, w, ran, Compact,
                              old(record.upkept.lastCompactAt), record.upkept.lastCompactAt)
                && CanaryChanges(sha, planned.value, w, ran, old(record), record)
    {
      record := record.(lastRunAt := Some(Stamp(started)), complaint := Nothing, failedUpkeep := []);
      if planned.Err? {
        s, ran := Summary(-1, Refused(planned.error), [], [], false), 0;
        FinishBackup(s, w.finishedAt);
        RefusalTells(old(record), started, s, w.finishedAt, record);
        return;
      }
      var plan := planned.value;
      var p := RunTasks(plan, w);
      ran := p.ran;
      if p.checkOk {
        record := record.(upkept := record.upkept.(lastCheckAt := Some(Stamp(w.endAt))));
      }
      if p.compactOk {
        record := record.(upkept := record.upkept.(lastCompactAt := Some(Stamp(w.endAt))));
      }
      s := SumUp(p.results, p.failedUpkeep, w.Stop(2 * |plan.tasks|));
      SummaryIsOutcome(plan, w, p, s);
      FinishBackup(s, w.finishedAt);
      RecordMoves(sha, plan, w, ran, old(record), started, s, record);
      RecordTells(sha, plan, w, ran, old(record), started, s, record);
    }

    /** The part of `_finish_backup` that concerns this job's record. */
    method FinishBackup(s: Summary, finished: Time)
      modifies this
      ensures record == Finished(old(record), s, finished)
    {
      record := record.(lastExitCode := Some(s.exitCode), complaint := s.complaint, failedUpkeep := s.failedUpkeep,
                        destResults := s.destResults);
      if s.success {
        record := record.(lastSuccessAt := Some(Stamp(finished)));
      }
    }
  }
}
