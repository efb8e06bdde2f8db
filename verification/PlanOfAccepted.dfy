/** Planning a backup from a configuration that the validator has accepted. */
module PlanOfAccepted {
  import opened Wrappers
  import opened Text
  import opened SysConfig
  import opened Validation
  import opened Planner
  import opened Plans
  import ConfigLaws
  import ConfigStore

  /** Mount points lie below an absolute directory. */
  ghost predicate AbsoluteMounts(w: World) {
    forall id, sub :: StartsWith(w.mounted(id, sub), "/")
  }

  /** All that is left to go wrong with the repository of an accepted destination. */
  predicate RepositoryGiven(accountType: string, d: Destination) {
    if accountType == "ssh" then d.storage != ""
    else if accountType == "local" then
      Either(d.localPath, d.storage) != "" && !StartsWith(Either(d.localPath, d.storage), "-")
    else true
  }

  lemma StripKeepsHead(s: string)
    requires s != "" && !IsSpace(s[0])
    ensures Strip(s) != "" && Strip(s)[0] == s[0]
  {
    assert LeftStrip(s) == s;
    RightStripKeepsHead(s);
  }

  lemma RepositoryIsUsable(a: Account, d: Destination, w: World)
    requires NormalDestination(d) && AbsoluteMounts(w) && IsAccountType(TypeOf(a))
    requires !StartsWith(CheckedRepo(d), "-")
    ensures
      var repo := Strip(Repository(a, d, w.mounted));
      (repo != "" && !StartsWith(repo, "-")) <==> RepositoryGiven(TypeOf(a), d)
  {
    if IsMountedType(TypeOf(a)) {
      assert StartsWith(Repository(a, d, w.mounted), "/");
      StripKeepsHead(Repository(a, d, w.mounted));
    } else if TypeOf(a) == "s3" {
      assert Repository(a, d, w.mounted)[0] == 's';
      StripKeepsHead(Repository(a, d, w.mounted));
    } else {
      StripTrims(Repository(a, d, w.mounted));
    }
  }

  lemma {:induction false} FoundAccountIsLast(accounts: seq<Account>, id: string)
    requires ConfigLaws.UniqueIds(accounts)
    ensures FindAccount(accounts, id).Some? ==> LastType(accounts, id) == TypeOf(FindAccount(accounts, id).value)
    decreases |accounts|
  {
    var found := FindAccount(accounts, id);
    if found.Some? {
      var i :| 0 <= i < |accounts| && accounts[i] == found.value && IdOf(found.value) == id;
      LastIsUnique(accounts, i);
    }
  }

  lemma {:induction false} LastIsUnique(accounts: seq<Account>, i: nat)
    requires ConfigLaws.UniqueIds(accounts) && i < |accounts|
    ensures LastType(accounts, IdOf(accounts[i])) == TypeOf(accounts[i])
    decreases |accounts|
  {
    var init := accounts[..|accounts| - 1];
    if i < |init| {
      LastIsUnique(init, i);
      assert init[i] == accounts[i];
    }
  }

  /** Of an accepted job, each destination and its account exist. */
  lemma LookupsSucceed(c: Config, i: nat, k: nat)
    requires Accepted(c) && i < |c.jobs| && k < |c.jobs[i].destinationIds|
    ensures FindDestination(c.destinations, c.jobs[i].destinationIds[k]).Some?
    ensures
      var d := FindDestination(c.destinations, c.jobs[i].destinationIds[k]).value;
      FindAccount(c.accounts, d.accountId).Some?
  {
    assert !Broken(c, InJob(i, TargetExists(k)));
    var d := FindDestination(c.destinations, c.jobs[i].destinationIds[k]).value;
    var j :| 0 <= j < |c.destinations| && c.destinations[j] == d;
    assert !Broken(c, InDestination(j, AccountExists));
  }

  /** The type of the account behind destination k of job i, and that destination. */
  predicate TargetGiven(c: Config, job: Job, k: nat)
    requires k < |job.destinationIds|
  {
    var dest := FindDestination(c.destinations, job.destinationIds[k]);
    dest.Some? && RepositoryGiven(LastType(c.accounts, dest.value.accountId), dest.value)
  }

  lemma FoundDestination(c: Config, id: string)
    requires Normal(c) && Accepted(c) && FindDestination(c.destinations, id).Some?
    ensures NormalDestination(FindDestination(c.destinations, id).value)
    ensures !StartsWith(CheckedRepo(FindDestination(c.destinations, id).value), "-")
  {
    var j :| 0 <= j < |c.destinations| && c.destinations[j] == FindDestination(c.destinations, id).value;
    assert !Broken(c, InDestination(j, RepositoryIsPlain));
  }

  lemma FoundAccount(c: Config, id: string)
    requires Accepted(c) && FindAccount(c.accounts, id).Some?
    ensures IsAccountType(TypeOf(FindAccount(c.accounts, id).value))
    ensures LastType(c.accounts, id) == TypeOf(FindAccount(c.accounts, id).value)
  {
    var n :| 0 <= n < |c.accounts| && c.accounts[n] == FindAccount(c.accounts, id).value;
    assert !Broken(c, InAccount(n, TypeIsKnown));
    ConfigStore.AcceptedIdsAreUnique(c);
    FoundAccountIsLast(c.accounts, id);
  }

  lemma TargetResolves(c: Config, i: nat, k: nat, w: World)
    requires Normal(c) && Accepted(c) && AbsoluteMounts(w)
    requires i < |c.jobs| && k < |c.jobs[i].destinationIds|
    ensures ResolveTarget(c, c.jobs[i].destinationIds[k], w).Ok? <==> TargetGiven(c, c.jobs[i], k)
  {
    var id := c.jobs[i].destinationIds[k];
    LookupsSucceed(c, i, k);
    FoundDestination(c, id);
    var d := FindDestination(c.destinations, id).value;
    FoundAccount(c, d.accountId);
    RepositoryIsUsable(FindAccount(c.accounts, d.accountId).value, d, w);
  }

  lemma AcceptedSourcesAreAbsolute(c: Config, i: nat)
    requires Accepted(c) && i < |c.jobs|
    ensures AllAbsolute(SourcePaths(c.jobs[i]))
  {
    var job := c.jobs[i];
    forall k | 0 <= k < |SourcePaths(job)|
      ensures IsAbsolute(SourcePaths(job)[k])
    {
      if job.includeFolders != [] {
        assert !Broken(c, InJob(i, SourceIsAbsolute(k)));
      }
      StripKeepsHead(SourcePaths(job)[k]);
    }
  }

  /**
    With an accepted configuration, planning fails only for want of a destination, of a repository
    in one of them, of an available source, or because of the archive name.
   */
  lemma PlanOfAcceptedJob(c: Config, i: nat, archiveName: string, w: World)
    requires Normal(c) && Accepted(c) && AbsoluteMounts(w) && i < |c.jobs|
    ensures FindJob(c.jobs, c.jobs[i].name) == Some(c.jobs[i])
    ensures CanPlan(c, c.jobs[i], archiveName, w) <==>
            && c.jobs[i].destinationIds != []
            && (forall k :: 0 <= k < |c.jobs[i].destinationIds| ==> TargetGiven(c, c.jobs[i], k))
            && Available(c.jobs[i], w) != []
            && !BadName(archiveName)
  {
    var job := c.jobs[i];
    ConfigStore.AcceptedIdsAreUnique(c);
    var j :| 0 <= j < |c.jobs| && c.jobs[j] == FindJob(c.jobs, job.name).value;
    AcceptedSourcesAreAbsolute(c, i);
    forall k | 0 <= k < |job.destinationIds|
      ensures ResolveTarget(c, job.destinationIds[k], w).Ok? <==> TargetGiven(c, job, k)
    {
      TargetResolves(c, i, k, w);
    }
  }

  /** The configuration with another local path in destination i. */
  function WithLocalPath(c: Config, i: nat, path: string): Config
    requires i < |c.destinations|
  {
    c.(destinations := c.destinations[i := c.destinations[i].(localPath := path)])
  }

  lemma LocalPathBreaksNothing(c: Config, i: nat, path: string, f: Fault)
    requires i < |c.destinations| && c.destinations[i].storage != ""
    requires Broken(WithLocalPath(c, i, path), f)
    ensures Broken(c, f)
  {
    if f.InDestination? && f.destinationRule.DestinationIdIsNew? {
      var e := WithLocalPath(c, i, path);
      var j :| 0 <= j < f.destination && e.destinations[j].id == e.destinations[f.destination].id;
      assert c.destinations[j].id == c.destinations[f.destination].id;
    } else if f.InJob? && f.jobRule.TargetExists? {
      var e := WithLocalPath(c, i, path);
      assert forall d :: 0 <= d < |c.destinations| ==> e.destinations[d].id == c.destinations[d].id;
    }
  }

  // ------------------------------------ what was checked and what is planned

  /** The part of a mounted repository's path below the mount point. */
  function SubPath(d: Destination): string {
    Either(WithoutSlashes(Strip(Either(Either(d.localPath, d.storage), "borg-repo"))), "borg-repo")
  }

  /** Of an accepted configuration, an id leads to its own destination. */
  lemma DestinationIsFound(c: Config, i: nat)
    requires Accepted(c) && i < |c.destinations|
    ensures FindDestination(c.destinations, c.destinations[i].id) == Some(c.destinations[i])
  {
    ConfigStore.AcceptedIdsAreUnique(c);
    var found := FindDestination(c.destinations, c.destinations[i].id);
    var j :| 0 <= j < |c.destinations| && c.destinations[j] == found.value && found.value.id == c.destinations[i].id;
    assert j == i;
  }

  /** And its account is there. */
  lemma AccountIsFound(c: Config, i: nat)
    requires Accepted(c) && i < |c.destinations|
    ensures FindAccount(c.accounts, c.destinations[i].accountId).Some?
  {
    assert !Broken(c, InDestination(i, AccountExists));
  }

  /** The account behind destination i. */
  function AccountOf(c: Config, i: nat): Option<Account>
    requires i < |c.destinations|
  {
    FindAccount(c.accounts, c.destinations[i].accountId)
  }

  /** The last two checks of `resolve_targets` on a repository. */
  function Usable(d: Destination, repo: string): Result<Target, PlanError> {
    if repo == "" then Err(NoRepository)
    else if StartsWith(repo, "-") then Err(BadRepository)
    else Ok(Target(d.id, Either(d.name, repo), repo))
  }

  lemma ResolvesToRepository(c: Config, i: nat, w: World)
    requires Accepted(c) && i < |c.destinations|
    ensures AccountOf(c, i).Some?
    ensures
      var d := c.destinations[i];
      ResolveTarget(c, d.id, w) == Usable(d, Strip(Repository(AccountOf(c, i).value, d, w.mounted)))
  {
    DestinationIsFound(c, i);
    AccountIsFound(c, i);
  }

  lemma LocalRepository(a: Account, d: Destination, w: World)
    requires NormalDestination(d) && TypeOf(a) == "local"
    ensures Strip(Repository(a, d, w.mounted)) == Either(d.localPath, d.storage)
  {
    StripTrims(Either(d.localPath, d.storage));
  }

  lemma MountedRepository(a: Account, d: Destination, w: World)
    requires AbsoluteMounts(w) && IsMountedType(TypeOf(a))
    ensures
      var repo := Strip(w.mounted(IdOf(a), SubPath(d)));
      Strip(Repository(a, d, w.mounted)) == repo && Usable(d, repo).Ok?
  {
    StripKeepsHead(w.mounted(IdOf(a), SubPath(d)));
  }

  /** The local path does not matter to the other types. */
  lemma RemoteRepository(a: Account, d: Destination, path: string, w: World)
    requires TypeOf(a) == "ssh" || TypeOf(a) == "s3"
    ensures Repository(a, d.(localPath := path), w.mounted) == Repository(a, d, w.mounted)
  {}

  lemma OtherLocalPathIsAccepted(c: Config, i: nat, path: string)
    requires Normal(c) && Accepted(c) && i < |c.destinations| && c.destinations[i].storage != "" && Trimmed(path)
    ensures Normal(WithLocalPath(c, i, path)) && Accepted(WithLocalPath(c, i, path))
  {
    forall f | Broken(WithLocalPath(c, i, path), f)
      ensures false
    {
      LocalPathBreaksNothing(c, i, path, f);
    }
  }

  /**
    The validator looks at `storage` first, the planner of local and mounted backups at `local_path`
    first: once `storage` is given, any local path at all is accepted, and a local or mounted backup is
    planned with it unchecked, but for the planner's own refusal of a leading "-". Of the other account
    types it changes nothing.
   */
  lemma LocalPathIsNotChecked(c: Config, i: nat, path: string, w: World)
    requires Normal(c) && Accepted(c) && AbsoluteMounts(w) && i < |c.destinations|
    requires c.destinations[i].storage != "" && path != "" && Trimmed(path)
    ensures Accepted(WithLocalPath(c, i, path))
    ensures AccountOf(c, i).Some? && IsAccountType(TypeOf(AccountOf(c, i).value))
    ensures
      var d, a := c.destinations[i], AccountOf(c, i).value;
      var target := ResolveTarget(WithLocalPath(c, i, path), d.id, w);
      && (TypeOf(a) == "local" ==> target == Usable(d, path))
      && (IsMountedType(TypeOf(a)) ==>
            target == Usable(d, Strip(w.mounted(IdOf(a), Either(WithoutSlashes(path), "borg-repo")))) && target.Ok?)
      && (TypeOf(a) == "ssh" || TypeOf(a) == "s3" ==> target == ResolveTarget(c, d.id, w))
  {
    OtherLocalPathIsAccepted(c, i, path);
    TargetWithLocalPath(c, i, path, w);
    FoundAccount(c, c.destinations[i].accountId);
    RepositoryWithLocalPath(AccountOf(c, i).value, c.destinations[i], path, w);
  }

  lemma TargetWithLocalPath(c: Config, i: nat, path: string, w: World)
    requires Accepted(c) && i < |c.destinations| && Accepted(WithLocalPath(c, i, path))
    ensures AccountOf(c, i).Some?
    ensures
      var d, a := c.destinations[i], AccountOf(c, i).value;
      && ResolveTarget(c, d.id, w) == Usable(d, Strip(Repository(a, d, w.mounted)))
      && ResolveTarget(WithLocalPath(c, i, path), d.id, w) ==
         Usable(d, Strip(Repository(a, d.(localPath := path), w.mounted)))
  {
    ResolvesToRepository(WithLocalPath(c, i, path), i, w);
    ResolvesToRepository(c, i, w);
  }

  lemma RepositoryWithLocalPath(a: Account, d: Destination, path: string, w: World)
    requires NormalDestination(d) && AbsoluteMounts(w) && path != "" && Trimmed(path)
    ensures
      var other := d.(localPath := path);
      var repo := Strip(Repository(a, other, w.mounted));
      && (TypeOf(a) == "local" ==> repo == path)
      && (IsMountedType(TypeOf(a)) ==>
            && repo == Strip(w.mounted(IdOf(a), Either(WithoutSlashes(path), "borg-repo")))
            && Usable(d, repo).Ok?)
      && (TypeOf(a) == "ssh" || TypeOf(a) == "s3" ==> repo == Strip(Repository(a, d, w.mounted)))
  {
    var other := d.(localPath := path);
    if TypeOf(a) == "local" {
      LocalRepository(a, other, w);
    } else if IsMountedType(TypeOf(a)) {
      MountedRepository(a, other, w);
      StripTrims(path);
    } else if TypeOf(a) == "ssh" || TypeOf(a) == "s3" {
      RemoteRepository(a, d, path, w);
    }
  }

  lemma {:induction false} SlashesHaveNoDots(s: string)
    ensures HasDots(WithoutSlashes(s)) <==> HasDots(s)
    decreases |s|
  {
    if s != "" && s[0] == '/' {
      SlashesHaveNoDots(s[1..]);
      DotsAfterSlash(s);
    }
  }

  lemma DotsAfterSlash(s: string)
    requires s != "" && s[0] == '/'
    ensures HasDots(s[1..]) <==> HasDots(s)
  {
    if HasDots(s) {
      var i :| 0 <= i < |s| - 1 && s[i] == '.' && s[i + 1] == '.';
      assert s[1..][i - 1] == '.' && s[1..][i - 1 + 1] == '.';
    }
    if HasDots(s[1..]) {
      var i :| 0 <= i < |s[1..]| - 1 && s[1..][i] == '.' && s[1..][i + 1] == '.';
      assert s[i + 1] == '.' && s[i + 1 + 1] == '.';
    }
  }

  lemma SubPathDots(d: Destination)
    requires NormalDestination(d)
    ensures HasDots(SubPath(d)) <==> HasDots(Either(d.localPath, d.storage))
  {
    var sub := Either(Either(d.localPath, d.storage), "borg-repo");
    StripTrims(sub);
    SlashesHaveNoDots(sub);
  }

  /** What the validator makes sure of in the repository that it looks at. */
  lemma CheckedIsGuarded(c: Config, i: nat)
    requires Accepted(c) && i < |c.destinations|
    ensures AccountOf(c, i).Some?
    ensures
      var d, a := c.destinations[i], AccountOf(c, i).value;
      && (TypeOf(a) == "local" && CheckedRepo(d) != "" ==> StartsWith(CheckedRepo(d), "/"))
      && (IsMountedType(TypeOf(a)) ==> !HasDots(CheckedRepo(d)))
  {
    AccountIsFound(c, i);
    FoundAccount(c, c.destinations[i].accountId);
    assert !Broken(c, InDestination(i, LocalIsAbsolute));
    assert !Broken(c, InDestination(i, MountedIsRelative));
  }

  /** The check has been made on what is used: not both fields are given, or the one used passes it as well. */
  predicate CheckApplies(d: Destination, passes: bool) {
    d.storage == "" || d.localPath == "" || passes
  }

  /**
    Exactly when the plan of an accepted destination keeps what the validator checked: a local repository is
    absolute, and a mounted one stays free of ".." below its mount point.
   */
  lemma CheckedRepositoryIsPlanned(c: Config, i: nat, w: World)
    requires Normal(c) && Accepted(c) && AbsoluteMounts(w) && i < |c.destinations|
    ensures AccountOf(c, i).Some?
    ensures
      var d, a := c.destinations[i], AccountOf(c, i).value;
      var target := ResolveTarget(c, d.id, w);
      && (TypeOf(a) == "local" && target.Ok? ==>
            (StartsWith(target.value.repo, "/") <==> CheckApplies(d, StartsWith(d.localPath, "/"))))
      && (IsMountedType(TypeOf(a)) ==>
            && target.Ok? && target.value.repo == Strip(w.mounted(IdOf(a), SubPath(d)))
            && (!HasDots(SubPath(d)) <==> CheckApplies(d, !HasDots(d.localPath))))
  {
    ResolvesToRepository(c, i, w);
    CheckedIsGuarded(c, i);
    var d, a := c.destinations[i], AccountOf(c, i).value;
    if TypeOf(a) == "local" {
      LocalRepository(a, d, w);
    } else if IsMountedType(TypeOf(a)) {
      MountedRepository(a, d, w);
      SubPathDots(d);
    }
  }

  // ------------------------------------------------------- control characters

  lemma {:induction false} RightStripIsPart(s: string)
    ensures RightStrip(s) <= s
    decreases |s|
  {
    if s != "" && IsSpace(s[|s| - 1]) {
      RightStripIsPart(s[..|s| - 1]);
    }
  }

  lemma {:induction false} LeftStripIsPart(s: string, c: char)
    ensures c in LeftStrip(s) ==> c in s
    decreases |s|
  {
    if s != "" && IsSpace(s[0]) {
      LeftStripIsPart(s[1..], c);
    }
  }

  lemma StripIsPart(s: string, c: char)
    ensures c in Strip(s) ==> c in s
  {
    RightStripIsPart(LeftStrip(s));
    LeftStripIsPart(s, c);
  }

  lemma StripStaysPrintable(s: string)
    ensures HasControlChars(Strip(s)) ==> HasControlChars(s)
  {
    StripIsPart(s, '\n');
    StripIsPart(s, '\r');
    StripIsPart(s, '\0');
  }

  lemma {:induction false} SlashesArePrintable(s: string)
    ensures HasControlChars(WithoutSlashes(s)) <==> HasControlChars(s)
    decreases |s|
  {
    if s != "" && s[0] == '/' {
      SlashesArePrintable(s[1..]);
      assert s == [s[0]] + s[1..];
    }
  }

  lemma SubPathPrintable(d: Destination)
    requires NormalDestination(d)
    ensures HasControlChars(SubPath(d)) <==> HasControlChars(Either(d.localPath, d.storage))
  {
    var sub := Either(Either(d.localPath, d.storage), "borg-repo");
    StripTrims(sub);
    SlashesArePrintable(sub);
  }

  lemma S3Printable(a: Account, d: Destination, w: World)
    requires TypeOf(a) == "s3" && !HasControlChars(d.storage)
    ensures !HasControlChars(Strip(Repository(a, d, w.mounted)))
  {
    StripStaysPrintable(d.storage);
    StripStaysPrintable(Repository(a, d, w.mounted));
  }

  lemma CheckedIsPrintable(c: Config, i: nat)
    requires Accepted(c) && i < |c.destinations|
    ensures !HasControlChars(CheckedRepo(c.destinations[i]))
  {
    assert !Broken(c, InDestination(i, RepositoryIsPlain));
  }

  /**
    And exactly when the plan of an accepted destination stays free of control characters: for ssh and s3
    always, for local and mounted repositories unless an unchecked local path brings some in.
   */
  lemma PlannedIsPrintable(c: Config, i: nat, w: World)
    requires Normal(c) && Accepted(c) && AbsoluteMounts(w) && i < |c.destinations|
    ensures AccountOf(c, i).Some?
    ensures
      var d, a := c.destinations[i], AccountOf(c, i).value;
      var target := ResolveTarget(c, d.id, w);
      && (TypeOf(a) == "local" && target.Ok? ==>
            (!HasControlChars(target.value.repo) <==> CheckApplies(d, !HasControlChars(d.localPath))))
      && (IsMountedType(TypeOf(a)) ==>
            && target.Ok? && target.value.repo == Strip(w.mounted(IdOf(a), SubPath(d)))
            && (!HasControlChars(SubPath(d)) <==> CheckApplies(d, !HasControlChars(d.localPath))))
      && ((TypeOf(a) == "ssh" || TypeOf(a) == "s3") && target.Ok? ==> !HasControlChars(target.value.repo))
  {
    ResolvesToRepository(c, i, w);
    CheckedIsPrintable(c, i);
    var d, a := c.destinations[i], AccountOf(c, i).value;
    if TypeOf(a) == "local" {
      LocalRepository(a, d, w);
    } else if IsMountedType(TypeOf(a)) {
      MountedRepository(a, d, w);
      SubPathPrintable(d);
    } else if TypeOf(a) == "ssh" {
      StripTrims(d.storage);
    } else if TypeOf(a) == "s3" {
      S3Printable(a, d, w);
    }
  }
}
