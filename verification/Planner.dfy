/** `plan_backup` of borg_engine.py with the lookups it builds on. */
module Planner {
  import opened Wrappers
  import opened Text
  import opened SysConfig
  import opened Validation
  import Canary

  // ------------------------------------------------------------------ targets

  datatype Target = Target(destId: string, destName: string, repo: string)

  /** Why a backup cannot be planned; `NotMounted` stands for a failure before the planner is asked. */
  datatype PlanError =
    | NotMounted | NoSuchJob | NoSuchDestination | NoAccount | NoRepository | BadRepository | NoTarget
    | RelativeSource | NoSource | BadArchiveName

  /** The machine around the planner: directories, existing paths, mount points and the hash function. */
  datatype World = World(
    borgBaseDir: string, logsDir: string, canaryFile: string,
    found: string -> bool, mounted: (string, string) -> string, sha: Canary.Hash)

  /** `find_by_id` */
  function FindDestination(destinations: seq<Destination>, id: string): (r: Option<Destination>)
    ensures r.Some? <==> exists i :: 0 <= i < |destinations| && destinations[i].id == id
    ensures r.Some? ==> exists i :: 0 <= i < |destinations| && destinations[i] == r.value && r.value.id == id
  {
    if destinations == [] then None
    else if destinations[0].id == id then Some(destinations[0])
    else
      assert forall i :: 1 <= i < |destinations| ==> destinations[i] == destinations[1..][i - 1];
      FindDestination(destinations[1..], id)
  }

  function FindAccount(accounts: seq<Account>, id: string): (r: Option<Account>)
    ensures r.Some? <==> exists i :: 0 <= i < |accounts| && IdOf(accounts[i]) == id
    ensures r.Some? ==> exists i :: 0 <= i < |accounts| && accounts[i] == r.value && IdOf(r.value) == id
  {
    if accounts == [] then None
    else if IdOf(accounts[0]) == id then Some(accounts[0])
    else
      assert forall i :: 1 <= i < |accounts| ==> accounts[i] == accounts[1..][i - 1];
      FindAccount(accounts[1..], id)
  }

  /** `find_job` */
  function FindJob(jobs: seq<Job>, name: string): (r: Option<Job>)
    ensures r.Some? <==> exists i :: 0 <= i < |jobs| && jobs[i].name == name
    ensures r.Some? ==> exists i :: 0 <= i < |jobs| && jobs[i] == r.value && r.value.name == name
  {
    if jobs == [] then None
    else if jobs[0].name == name then Some(jobs[0])
    else
      assert forall i :: 1 <= i < |jobs| ==> jobs[i] == jobs[1..][i - 1];
      FindJob(jobs[1..], name)
  }

  function Either(first: string, second: string): string {
    if first != "" then first else second
  }

  /** `str.lstrip("/")` */
  function WithoutSlashes(s: string): string {
    if s != "" && s[0] == '/' then WithoutSlashes(s[1..]) else s
  }

  /** `absolute_repo_path`, with `resolve_repo` of borg_model.py inside. */
  function Repository(a: Account, d: Destination, mounted: (string, string) -> string): string {
    if IsMountedType(TypeOf(a)) then
      var sub := Strip(Either(Either(d.localPath, d.storage), "borg-repo"));
      mounted(IdOf(a), Either(WithoutSlashes(sub), "borg-repo"))
    else if TypeOf(a) == "local" then Either(d.localPath, d.storage)
    else if TypeOf(a) == "s3" then
      var bucket := Strip(d.storage);
      if StartsWith(bucket, "s3:") then bucket else "s3:" + bucket
    else d.storage
  }

  /** One round of the loop in `resolve_targets`. */
  function ResolveTarget(c: Config, destId: string, w: World): Result<Target, PlanError> {
    var dest := FindDestination(c.destinations, destId);
    if dest.None? then Err(NoSuchDestination)
    else
      var account := FindAccount(c.accounts, dest.value.accountId);
      if account.None? then Err(NoAccount)
      else
        var repo := Strip(Repository(account.value, dest.value, w.mounted));
        if repo == "" then Err(NoRepository)
        else if StartsWith(repo, "-") then Err(BadRepository)
        else Ok(Target(destId, Either(dest.value.name, repo), repo))
  }

  method ResolveTargets(c: Config, job: Job, w: World) returns (r: Result<seq<Target>, PlanError>)
    ensures r.Ok? ==> |r.value| == |job.destinationIds| > 0
    ensures r.Ok? ==>
              forall k :: 0 <= k < |r.value| ==> ResolveTarget(c, job.destinationIds[k], w) == Ok(r.value[k])
    ensures r.Err? ==> r.error.NoTarget? || exists k :: FirstFailure(c, job.destinationIds, w, k, r.error)
    ensures r.Err? && r.error.NoTarget? ==> job.destinationIds == []
  {
    var targets := [];
    for k := 0 to |job.destinationIds|
      invariant |targets| == k
      invariant forall i :: 0 <= i < k ==> ResolveTarget(c, job.destinationIds[i], w) == Ok(targets[i])
    {
      var target := ResolveTarget(c, job.destinationIds[k], w);
      if target.Err? {
        assert FirstFailure(c, job.destinationIds, w, k, target.error);
        return Err(target.error);
      }
      targets := targets + [target.value];
    }
    if targets == [] {
      return Err(NoTarget);
    }
    return Ok(targets);
  }

  predicate FirstFailure(c: Config, ids: seq<string>, w: World, k: int, error: PlanError) {
    && 0 <= k < |ids|
    && ResolveTarget(c, ids[k], w) == Err(error)
    && forall i :: 0 <= i < k ==> ResolveTarget(c, ids[i], w).Ok?
  }

  // ------------------------------------------------------------------ sources

  function StripEach(texts: seq<string>): (r: seq<string>)
    ensures |r| == |texts|
    ensures forall i :: 0 <= i < |r| ==> r[i] == Strip(texts[i])
  {
    seq(|texts|, i requires 0 <= i < |texts| => Strip(texts[i]))
  }

  /** The elements for which `p` has the given answer, in their order. */
  function Only(texts: seq<string>, p: string -> bool, answer: bool): seq<string> {
    if texts == [] then []
    else
      var last := texts[|texts| - 1];
      Only(texts[..|texts| - 1], p, answer) + if p(last) == answer then [last] else []
  }

  lemma {:induction false} OnlyMembers(texts: seq<string>, p: string -> bool, answer: bool, x: string)
    ensures x in Only(texts, p, answer) <==> x in texts && p(x) == answer
    decreases |texts|
  {
    if texts != [] {
      OnlyMembers(texts[..|texts| - 1], p, answer, x);
      assert texts == texts[..|texts| - 1] + [texts[|texts| - 1]];
    }
  }

  predicate NoRepeats(texts: seq<string>) {
    forall i, j :: 0 <= i < j < |texts| ==> texts[i] != texts[j]
  }

  lemma {:induction false} OnlyKeepsDistinct(texts: seq<string>, p: string -> bool, answer: bool)
    requires NoRepeats(texts)
    ensures NoRepeats(Only(texts, p, answer))
    decreases |texts|
  {
    if texts != [] {
      var init, last := texts[..|texts| - 1], texts[|texts| - 1];
      OnlyKeepsDistinct(init, p, answer);
      OnlyMembers(init, p, answer, last);
      assert last !in init;
    }
  }

  /** The configured sources, stripped, each once. */
  function Configured(paths: seq<string>): seq<string> {
    Dedup(StripEach(paths))
  }

  lemma OneMoreSource(seen: seq<string>, path: string, p: string -> bool, answer: bool)
    ensures Only(Dedup(seen + [path]), p, answer) ==
            Only(Dedup(seen), p, answer) + if path !in Dedup(seen) && p(path) == answer then [path] else []
  {
    DedupLast(seen, path);
    if path !in Dedup(seen) {
      var all := Dedup(seen) + [path];
      assert all[..|all| - 1] == Dedup(seen);
    }
  }

  /** The body of the loop over the sources. */
  method AddSource(
    ghost seen: seq<string>, path: string, found: string -> bool, available: seq<string>, missing: seq<string>)
    returns (nowAvailable: seq<string>, nowMissing: seq<string>)
    requires available == Only(Dedup(seen), found, true) && missing == Only(Dedup(seen), found, false)
    ensures nowAvailable == Only(Dedup(seen + [path]), found, true)
    ensures nowMissing == Only(Dedup(seen + [path]), found, false)
  {
    OneMoreSource(seen, path, found, true);
    OneMoreSource(seen, path, found, false);
    OnlyMembers(Dedup(seen), found, true, path);
    OnlyMembers(Dedup(seen), found, false, path);
    nowAvailable, nowMissing := available, missing;
    if path in available || path in missing {
      return;
    }
    if found(path) {
      nowAvailable := nowAvailable + [path];
    } else {
      nowMissing := nowMissing + [path];
    }
  }

  predicate IsAbsolute(path: string) {
    StartsWith(Strip(path), "/")
  }

  predicate AllAbsolute(paths: seq<string>) {
    forall i :: 0 <= i < |paths| ==> IsAbsolute(paths[i])
  }

  method SplitSources(paths: seq<string>, found: string -> bool)
    returns (absolute: bool, available: seq<string>, missing: seq<string>)
    ensures absolute <==> AllAbsolute(paths)
    ensures absolute ==> available == Only(Configured(paths), found, true)
    ensures absolute ==> missing == Only(Configured(paths), found, false)
  {
    var stripped := StripEach(paths);
    absolute, available, missing := SplitStripped(stripped, found);
    assert forall i :: 0 <= i < |paths| ==> IsAbsolute(paths[i]) == StartsWith(stripped[i], "/");
  }

  method SplitStripped(stripped: seq<string>, found: string -> bool)
    returns (absolute: bool, available: seq<string>, missing: seq<string>)
    ensures absolute <==> forall i :: 0 <= i < |stripped| ==> StartsWith(stripped[i], "/")
    ensures absolute ==> available == Only(Dedup(stripped), found, true)
    ensures absolute ==> missing == Only(Dedup(stripped), found, false)
  {
    absolute, available, missing := true, [], [];
    for i := 0 to |stripped|
      invariant absolute && forall k :: 0 <= k < i ==> StartsWith(stripped[k], "/")
      invariant available == Only(Dedup(stripped[..i]), found, true)
      invariant missing == Only(Dedup(stripped[..i]), found, false)
    {
      if !StartsWith(stripped[i], "/") {
        absolute := false;
        return;
      }
      assert stripped[..i + 1] == stripped[..i] + [stripped[i]];
      available, missing := AddSource(stripped[..i], stripped[i], found, available, missing);
    }
    assert stripped[..|stripped|] == stripped;
  }

  /** Available and missing sources are free of duplicates, disjoint, and together the configured set. */
  lemma SourcesArePartitioned(paths: seq<string>, found: string -> bool)
    ensures
      var available, missing := Only(Configured(paths), found, true), Only(Configured(paths), found, false);
      && NoRepeats(available) && NoRepeats(missing)
      && (forall x :: x in available ==> x !in missing && found(x))
      && (forall x :: x in available || x in missing <==> exists i :: 0 <= i < |paths| && Strip(paths[i]) == x)
  {
    var all := Configured(paths);
    DedupKeeps(StripEach(paths), "");
    OnlyKeepsDistinct(all, found, true);
    OnlyKeepsDistinct(all, found, false);
    forall x: string
      ensures x in Only(all, found, true) <==> x in all && found(x)
      ensures x in Only(all, found, false) <==> x in all && !found(x)
      ensures x in all <==> exists i :: 0 <= i < |paths| && Strip(paths[i]) == x
    {
      OnlyMembers(all, found, true, x);
      OnlyMembers(all, found, false, x);
      DedupKeeps(StripEach(paths), x);
      if x in StripEach(paths) {
        var i :| 0 <= i < |StripEach(paths)| && StripEach(paths)[i] == x;
      }
    }
  }
}
