/** What the tasks of a plan are given: targets, sources, exclusions and canary, each told from the configuration. */
module PlanContents {
  import opened Wrappers
  import opened Text
  import opened SysConfig
  import opened Schedule
  import opened Validation
  import opened Planner
  import opened Plans
  import Canary

  // ------------------------------------------------------------------ lookups

  /** The lookups take the first entry with the id or name. */
  lemma {:induction false} FirstJobIsFound(jobs: seq<Job>, name: string, i: nat)
    requires i < |jobs| && jobs[i].name == name && forall j :: 0 <= j < i ==> jobs[j].name != name
    ensures FindJob(jobs, name) == Some(jobs[i])
  {
    if i > 0 {
      assert jobs[0].name != name;
      FirstJobIsFound(jobs[1..], name, i - 1);
    }
  }

  lemma {:induction false} FirstDestinationIsFound(destinations: seq<Destination>, id: string, i: nat)
    requires i < |destinations| && destinations[i].id == id
    requires forall j :: 0 <= j < i ==> destinations[j].id != id
    ensures FindDestination(destinations, id) == Some(destinations[i])
  {
    if i > 0 {
      assert destinations[0].id != id;
      FirstDestinationIsFound(destinations[1..], id, i - 1);
    }
  }

  lemma {:induction false} FirstAccountIsFound(accounts: seq<Account>, id: string, i: nat)
    requires i < |accounts| && IdOf(accounts[i]) == id && forall j :: 0 <= j < i ==> IdOf(accounts[j]) != id
    ensures FindAccount(accounts, id) == Some(accounts[i])
  {
    if i > 0 {
      assert IdOf(accounts[0]) != id;
      FirstAccountIsFound(accounts[1..], id, i - 1);
    }
  }

  // ------------------------------------------------------------------ targets

  lemma {:induction false} SlashesGo(s: string) returns (n: nat)
    ensures n <= |s| && WithoutSlashes(s) == s[n..]
    ensures forall i :: 0 <= i < n ==> s[i] == '/'
    ensures n < |s| ==> s[n] != '/'
  {
    n := 0;
    if s != "" && s[0] == '/' {
      var m := SlashesGo(s[1..]);
      n := m + 1;
    }
  }

  lemma DefaultFolder(s: string)
    requires s == "borg-repo"
    ensures Strip(s) == s && WithoutSlashes(s) == s
  {
    StripTrims(s);
  }

  /**
    The repository of each account type: the storage as it is, a local path if one is given, the bucket
    marked `s3:` once, or a directory of the mounted volume without leading slashes.
   */
  lemma RepositoryIs(a: Account, d: Destination, w: World, place: string) returns (n: nat)
    requires place == if d.localPath != "" then d.localPath else d.storage
    ensures TypeOf(a) == "ssh" ==> Repository(a, d, w.mounted) == d.storage
    ensures TypeOf(a) == "local" ==> Repository(a, d, w.mounted) == place
    ensures TypeOf(a) == "s3" ==>
              Repository(a, d, w.mounted) ==
              if StartsWith(Strip(d.storage), "s3:") then Strip(d.storage) else "s3:" + Strip(d.storage)
    ensures n <= |Strip(place)| && forall i :: 0 <= i < n ==> Strip(place)[i] == '/'
    ensures n < |Strip(place)| ==> Strip(place)[n] != '/'
    ensures TypeOf(a) == "usb" || TypeOf(a) == "smb" || TypeOf(a) == "nfs" ==>
              Repository(a, d, w.mounted) ==
              w.mounted(IdOf(a), if n < |Strip(place)| then Strip(place)[n..] else "borg-repo")
  {
    n := SlashesGo(Strip(place));
    DefaultFolder("borg-repo");
  }

  /** A resolved target belongs to the first destination with its id and to the first account behind that. */
  lemma TargetIs(c: Config, id: string, w: World, t: Target, i: nat, j: nat)
    requires ResolveTarget(c, id, w) == Ok(t)
    requires i < |c.destinations| && c.destinations[i].id == id
    requires forall x :: 0 <= x < i ==> c.destinations[x].id != id
    requires j < |c.accounts| && IdOf(c.accounts[j]) == c.destinations[i].accountId
    requires forall x :: 0 <= x < j ==> IdOf(c.accounts[x]) != c.destinations[i].accountId
    ensures t.destId == id
    ensures t.repo == Strip(Repository(c.accounts[j], c.destinations[i], w.mounted))
    ensures t.repo != "" && t.repo[0] != '-'
    ensures t.destName == if c.destinations[i].name != "" then c.destinations[i].name else t.repo
  {
    FirstDestinationIsFound(c.destinations, id, i);
    FirstAccountIsFound(c.accounts, c.destinations[i].accountId, j);
  }

  // -------------------------------------------------------- sources, exclusions

  lemma {:induction false} StripAllKeeps(texts: seq<string>, x: string)
    ensures x in StripAll(texts) <==> x != "" && exists i :: 0 <= i < |texts| && Strip(texts[i]) == x
    decreases |texts|
  {
    if texts != [] {
      var init, last := texts[..|texts| - 1], texts[|texts| - 1];
      StripAllKeeps(init, x);
      assert forall i :: 0 <= i < |init| ==> init[i] == texts[i];
      if x != "" && Strip(last) == x {
        assert Strip(texts[|texts| - 1]) == x;
      }
    }
  }

  /** The configured sources; none stands for the whole system. */
  predicate IsSource(job: Job, path: string) {
    if job.includeFolders == [] then path == "/"
    else exists i :: 0 <= i < |job.includeFolders| && Strip(job.includeFolders[i]) == path
  }

  lemma WholeSystem(job: Job, s: string)
    requires s == "/"
    ensures Strip(s) == s
  {
    StripTrims(s);
  }

  lemma AvailableIs(job: Job, w: World, path: string)
    ensures path in Available(job, w) <==> IsSource(job, path) && w.found(path)
    ensures path in Only(Configured(SourcePaths(job)), w.found, false) <==> IsSource(job, path) && !w.found(path)
  {
    SourcesArePartitioned(SourcePaths(job), w.found);
    WholeSystem(job, "/");
    SourceIsConfigured(job, path);
    OnlyMembers(Configured(SourcePaths(job)), w.found, true, path);
    OnlyMembers(Configured(SourcePaths(job)), w.found, false, path);
    DedupKeeps(StripEach(SourcePaths(job)), path);
  }

  lemma SourceIsConfigured(job: Job, path: string)
    ensures path in StripEach(SourcePaths(job)) <==> IsSource(job, path)
  {
    WholeSystem(job, "/");
    var each := StripEach(SourcePaths(job));
    if path in each {
      var i :| 0 <= i < |each| && each[i] == path;
      assert Strip(SourcePaths(job)[i]) == path;
    }
    if IsSource(job, path) {
      if job.includeFolders == [] {
        assert each[0] == path;
      } else {
        var i :| 0 <= i < |job.includeFolders| && Strip(job.includeFolders[i]) == path;
        assert each[i] == path;
      }
    }
  }

  lemma ArchiveOfTask(
    c: Config, job: Job, upkept: Upkept, now: Time, stamp: string, w: World, write: bool, plan: Plan, t: nat)
    requires Planned(c, job, upkept, now, stamp, w, write, plan) && t < |plan.targets|
    ensures t < |plan.tasks| && plan.tasks[t].archive == Some(ArchiveOf(job, plan.archiveName, plan.canary, w))
    ensures plan.canary == CanaryOf(c, job.name, stamp, w, write)
  {
    assert plan.tasks[t] == Creates(plan.targets, ArchiveOf(job, plan.archiveName, plan.canary, w))[t];
  }

  /**
    What a create task archives and leaves out: every configured source that is there, and the canary file;
    never the daemon's two own directories, nor what the job excludes.
   */
  lemma ArchiveHolds(c: Config, job: Job, name: string, stamp: string, w: World, write: bool, path: string)
    ensures
      var archive := ArchiveOf(job, name, CanaryOf(c, job.name, stamp, w, write), w);
      && archive.name == name
      && archive.compression == Strip(if job.compression != "" then job.compression else "lz4")
      && (path in archive.includes <==>
          (IsSource(job, path) && w.found(path)) || (c.canaryEnabled && path == w.canaryFile))
      && (path in archive.excludes <==>
          path == w.borgBaseDir || path == w.logsDir ||
          (path != "" && exists i :: 0 <= i < |job.excludeFolders| && Strip(job.excludeFolders[i]) == path))
  {
    AvailableIs(job, w, path);
    StripAllKeeps(job.excludeFolders, path);
  }

  /** With the canary on, its pattern and hash go with every archive; else there is none. */
  lemma CanaryIsPlanned(c: Config, job: Job, name: string, stamp: string, w: World, write: bool) returns (n: nat)
    ensures n <= |w.canaryFile| && forall i :: 0 <= i < n ==> w.canaryFile[i] == '/'
    ensures n < |w.canaryFile| ==> w.canaryFile[n] != '/'
    ensures
      var canary := CanaryOf(c, job.name, stamp, w, write);
      if c.canaryEnabled then
        && canary == Some(CanaryInfo(w.canaryFile, w.canaryFile[n..],
                                     if write then w.sha(Canary.Content(job.name, stamp)) else ""))
        && ArchiveOf(job, name, canary, w).canaryPath == Some(w.canaryFile[n..])
      else canary == None && ArchiveOf(job, name, canary, w).canaryPath == None
  {
    n := SlashesGo(w.canaryFile);
  }

  /** Exactly the configured sources that are not there are reported as missing. */
  lemma MissingAreReported(
    c: Config, job: Job, upkept: Upkept, now: Time, stamp: string, w: World, write: bool, plan: Plan, path: string)
    requires Planned(c, job, upkept, now, stamp, w, write, plan)
    ensures path in plan.missingSources <==> IsSource(job, path) && !w.found(path)
  {
    AvailableIs(job, w, path);
  }

  /** An archive name must not be empty, nor look like an option, a path, or a repository with an archive. */
  lemma BadNames(archive: string)
    ensures BadName(archive) <==>
            || archive == "" || archive[0] == '-' || '/' in archive
            || exists i :: 0 < i < |archive| && archive[i - 1] == ':' && archive[i] == ':'
  {
    if i :| 0 <= i <= |archive| && StartsWith(archive[i..], "::") {
      var k := i + 1;
      assert archive[i..][0] == ':' && archive[i..][1] == ':';
      assert archive[k - 1] == ':' && archive[k] == ':';
    }
    if k :| 0 < k < |archive| && archive[k - 1] == ':' && archive[k] == ':' {
      var rest := archive[k - 1..];
      assert rest[..2] == "::";
      assert StartsWith(archive[k - 1..], "::");
    }
    if archive != "" {
      assert archive[..1] == [archive[0]];
    }
  }
}
