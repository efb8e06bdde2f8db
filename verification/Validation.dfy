/** `validate_system_config`: which rules of a configuration are broken, and what an accepted one guarantees. */
module Validation {
  import opened Wrappers
  import opened Text
  import opened SysConfig
  import Schedule

  // ------------------------------------------------------------- text checks

  predicate HasControlChars(s: string) {
    '\n' in s || '\r' in s || '\0' in s
  }

  predicate HasDots(s: string) {
    exists i :: 0 <= i < |s| - 1 && s[i] == '.' && s[i + 1] == '.'
  }

  /** `name(,\d{1,most})?` */
  predicate HasLevel(s: string, name: string, most: nat) {
    s == name ||
    (|name| + 2 <= |s| <= |name| + 1 + most && StartsWith(s, name) && s[|name|] == ',' && AllDigits(s[|name| + 1..]))
  }

  predicate IsAlgorithm(s: string) {
    s == "lz4" || HasLevel(s, "zstd", 2) || HasLevel(s, "zlib", 1) || HasLevel(s, "lzma", 1)
  }

  predicate IsCompression(s: string) {
    s == "none" || IsAlgorithm(s) || (StartsWith(s, "auto,") && IsAlgorithm(s[5..]))
  }

  /** `_COMPRESSION_RE`; its `$` also matches before a final line feed. */
  predicate MatchesCompression(s: string) {
    IsCompression(s) || (s != [] && s[|s| - 1] == '\n' && IsCompression(s[..|s| - 1]))
  }

  predicate IsAccountType(s: string) {
    s == "ssh" || s == "s3" || s == "local" || IsMountedType(s)
  }

  predicate IsMountedType(s: string) {
    s == "usb" || s == "smb" || s == "nfs"
  }

  // -------------------------------------------------------------------- rules

  datatype AccountRule =
    | AccountHasId | AccountIdIsNew | TypeIsKnown | KeyIsAbsolute
    | UsbHasVolume | SmbHasShare | SmbHasUser | NfsHasExport | FieldIsPrintable(key: Key)

  datatype DestinationRule =
    | DestinationHasId | DestinationIdIsNew | AccountExists | RepositoryIsPlain
    | LocalIsAbsolute | MountedIsRelative

  datatype JobRule =
    | JobHasName | JobNameIsNew | NameIsPrintable | TargetExists(k: nat) | SourceIsAbsolute(k: nat)
    | ExcludeIsPrintable(k: nat) | CompressionIsKnown | ScheduleIsKnown | TimeIsClock

  /** One error of the list that the validator returns. */
  datatype Fault =
    | InAccount(account: nat, accountRule: AccountRule)
    | InDestination(destination: nat, destinationRule: DestinationRule)
    | InJob(job: nat, jobRule: JobRule)

  function IdOf(a: Account): string {
    GetText(a.fields, Id)
  }

  function TypeOf(a: Account): string {
    GetText(a.fields, Type)
  }

  /** `not str(account.get(key) or "").strip()` */
  predicate Blank(a: Account, key: Key) {
    Strip(GetText(a.fields, key)) == ""
  }

  predicate AloneBreaks(a: Account, rule: AccountRule) {
    match rule
    case AccountHasId => IdOf(a) == ""
    case AccountIdIsNew => false
    case TypeIsKnown => !IsAccountType(TypeOf(a))
    case KeyIsAbsolute => GetText(a.fields, SshKey) != "" && !StartsWith(GetText(a.fields, SshKey), "/")
    case UsbHasVolume => TypeOf(a) == "usb" && Blank(a, VolumeUuid) && Blank(a, VolumeLabel)
    case SmbHasShare => TypeOf(a) == "smb" && (Blank(a, SmbServer) || Blank(a, SmbShare))
    case SmbHasUser => TypeOf(a) == "smb" && Blank(a, SmbUsername)
    case NfsHasExport => TypeOf(a) == "nfs" && (Blank(a, NfsServer) || Blank(a, NfsExport))
    case FieldIsPrintable(key) => key.OfAccount() && !key.Secret() && HasControlChars(GetText(a.fields, key))
  }

  predicate AccountBreaks(accounts: seq<Account>, i: nat, rule: AccountRule)
    requires i < |accounts|
  {
    if rule.AccountIdIsNew? then
      IdOf(accounts[i]) != "" && exists j :: 0 <= j < i && IdOf(accounts[j]) == IdOf(accounts[i])
    else AloneBreaks(accounts[i], rule)
  }

  /** `accounts_by_id.get(id) or {}`: the type of the last account with this id. */
  function LastType(accounts: seq<Account>, id: string): string {
    if accounts == [] then ""
    else if IdOf(accounts[|accounts| - 1]) == id then TypeOf(accounts[|accounts| - 1])
    else LastType(accounts[..|accounts| - 1], id)
  }

  /** The repository that the validator looks at. */
  function CheckedRepo(d: Destination): string {
    if d.storage != "" then d.storage else d.localPath
  }

  predicate DestinationBreaks(c: Config, i: nat, rule: DestinationRule)
    requires i < |c.destinations|
  {
    var d := c.destinations[i];
    var repo := CheckedRepo(d);
    match rule
    case DestinationHasId => d.id == ""
    case DestinationIdIsNew => d.id != "" && exists j :: 0 <= j < i && c.destinations[j].id == d.id
    case AccountExists => forall j :: 0 <= j < |c.accounts| ==> IdOf(c.accounts[j]) != d.accountId
    case RepositoryIsPlain => StartsWith(repo, "-") || HasControlChars(repo)
    case LocalIsAbsolute => LastType(c.accounts, d.accountId) == "local" && repo != "" && !StartsWith(repo, "/")
    case MountedIsRelative =>
      IsMountedType(LastType(c.accounts, d.accountId)) && (HasDots(repo) || StartsWith(repo, "/"))
  }

  predicate JobBreaks(c: Config, i: nat, rule: JobRule)
    requires i < |c.jobs|
  {
    var j := c.jobs[i];
    match rule
    case JobHasName => j.name == ""
    case JobNameIsNew => j.name != "" && exists k :: 0 <= k < i && c.jobs[k].name == j.name
    case NameIsPrintable => HasControlChars(j.name)
    case TargetExists(k) =>
      k < |j.destinationIds| && forall d :: 0 <= d < |c.destinations| ==> c.destinations[d].id != j.destinationIds[k]
    case SourceIsAbsolute(k) =>
      k < |j.includeFolders| && (!StartsWith(j.includeFolders[k], "/") || HasControlChars(j.includeFolders[k]))
    case ExcludeIsPrintable(k) => k < |j.excludeFolders| && HasControlChars(j.excludeFolders[k])
    case CompressionIsKnown => !MatchesCompression(j.compression)
    case ScheduleIsKnown => !(j.scheduleType == "manual" || j.scheduleType == "interval" || j.scheduleType == "daily")
    case TimeIsClock => j.scheduleType == "daily" && !Schedule.MatchesTime(j.scheduleTime)
  }

  predicate Broken(c: Config, f: Fault) {
    match f
    case InAccount(i, rule) => i < |c.accounts| && AccountBreaks(c.accounts, i, rule)
    case InDestination(i, rule) => i < |c.destinations| && DestinationBreaks(c, i, rule)
    case InJob(i, rule) => i < |c.jobs| && JobBreaks(c, i, rule)
  }

  ghost predicate Accepted(c: Config) {
    forall f: Fault :: !Broken(c, f)
  }

  // ------------------------------------------------------------ the validator

  method CheckAccount(accounts: seq<Account>, i: nat, seen: set<string>) returns (errors: seq<Fault>)
    requires i < |accounts|
    requires forall id :: id in seen <==> exists j :: 0 <= j < i && IdOf(accounts[j]) == id
    ensures forall f :: f in errors <==> f.InAccount? && f.account == i && AccountBreaks(accounts, i, f.accountRule)
  {
    var identity := CheckIdentity(accounts, i, seen);
    var access := CheckAccess(accounts, i);
    var unprintable := CheckPrintable(accounts, i);
    errors := identity + access + unprintable;
  }

  predicate OfIdentity(rule: AccountRule) {
    rule.AccountHasId? || rule.AccountIdIsNew? || rule.TypeIsKnown? || rule.KeyIsAbsolute?
  }

  method CheckIdentity(accounts: seq<Account>, i: nat, seen: set<string>) returns (errors: seq<Fault>)
    requires i < |accounts|
    requires forall id :: id in seen <==> exists j :: 0 <= j < i && IdOf(accounts[j]) == id
    ensures forall f :: f in errors <==>
              f.InAccount? && f.account == i && OfIdentity(f.accountRule) && AccountBreaks(accounts, i, f.accountRule)
  {
    var a := accounts[i];
    errors := [];
    if IdOf(a) == "" {
      errors := errors + [InAccount(i, AccountHasId)];
    } else if IdOf(a) in seen {
      errors := errors + [InAccount(i, AccountIdIsNew)];
    }
    if !IsAccountType(TypeOf(a)) {
      errors := errors + [InAccount(i, TypeIsKnown)];
    }
    var key := GetText(a.fields, SshKey);
    if key != "" && !StartsWith(key, "/") {
      errors := errors + [InAccount(i, KeyIsAbsolute)];
    }
  }

  predicate OfAccess(rule: AccountRule) {
    rule.UsbHasVolume? || rule.SmbHasShare? || rule.SmbHasUser? || rule.NfsHasExport?
  }

  method CheckAccess(accounts: seq<Account>, i: nat) returns (errors: seq<Fault>)
    requires i < |accounts|
    ensures forall f :: f in errors <==>
              f.InAccount? && f.account == i && OfAccess(f.accountRule) && AccountBreaks(accounts, i, f.accountRule)
  {
    var a := accounts[i];
    errors := [];
    if TypeOf(a) == "usb" {
      if Blank(a, VolumeUuid) && Blank(a, VolumeLabel) {
        errors := errors + [InAccount(i, UsbHasVolume)];
      }
    } else if TypeOf(a) == "smb" {
      if Blank(a, SmbServer) || Blank(a, SmbShare) {
        errors := errors + [InAccount(i, SmbHasShare)];
      }
      if Blank(a, SmbUsername) {
        errors := errors + [InAccount(i, SmbHasUser)];
      }
    } else if TypeOf(a) == "nfs" {
      if Blank(a, NfsServer) || Blank(a, NfsExport) {
        errors := errors + [InAccount(i, NfsHasExport)];
      }
    }
  }

  /** The text fields of an account, in the order of `ACCOUNT_FIELDS`. */
  method FieldsInOrder() returns (keys: seq<Key>)
    ensures forall key: Key :: key in keys <==> key.OfAccount()
  {
    var first := [Id, Name, Type, SshKey, Passphrase];
    var s3 := [S3AccessKey, S3SecretKey, S3EndpointUrl, S3Region];
    var usb := [VolumeUuid, VolumeLabel];
    var smb := [SmbServer, SmbShare, SmbUsername, SmbDomain, SmbPassword];
    var nfs := [NfsServer, NfsExport, MountOptions];
    keys := first + s3 + usb + smb + nfs;
    forall key: Key
      ensures key in keys <==> key.OfAccount()
    {
      assert key in keys <==> key in first || key in s3 || key in usb || key in smb || key in nfs;
    }
  }

  method CheckFields(a: Account, i: nat, keys: seq<Key>) returns (errors: seq<Fault>)
    ensures forall f :: f in errors <==>
              && f.InAccount? && f.account == i && f.accountRule.FieldIsPrintable? && f.accountRule.key in keys
              && !f.accountRule.key.Secret() && HasControlChars(GetText(a.fields, f.accountRule.key))
  {
    errors := [];
    for k := 0 to |keys|
      invariant forall f :: f in errors <==>
                  && f.InAccount? && f.account == i && f.accountRule.FieldIsPrintable? && f.accountRule.key in keys[..k]
                  && !f.accountRule.key.Secret() && HasControlChars(GetText(a.fields, f.accountRule.key))
    {
      if HasControlChars(GetText(a.fields, keys[k])) && !keys[k].Secret() {
        errors := errors + [InAccount(i, FieldIsPrintable(keys[k]))];
      }
    }
  }

  method CheckPrintable(accounts: seq<Account>, i: nat) returns (errors: seq<Fault>)
    requires i < |accounts|
    ensures forall f :: f in errors <==>
              f.InAccount? && f.account == i && f.accountRule.FieldIsPrintable? && AccountBreaks(accounts, i, f.accountRule)
  {
    var keys := FieldsInOrder();
    errors := CheckFields(accounts[i], i, keys);
  }

  /** `accounts_by_id` */
  method AccountsById(accounts: seq<Account>) returns (byId: map<string, Account>)
    ensures forall id :: id in byId <==> exists j :: 0 <= j < |accounts| && IdOf(accounts[j]) == id
    ensures forall id :: LastType(accounts, id) == if id in byId then TypeOf(byId[id]) else ""
  {
    byId := map[];
    for i := 0 to |accounts|
      invariant forall id :: id in byId <==> exists j :: 0 <= j < i && IdOf(accounts[j]) == id
      invariant forall id :: LastType(accounts[..i], id) == if id in byId then TypeOf(byId[id]) else ""
    {
      assert accounts[..i + 1][..i] == accounts[..i];
      byId := byId[IdOf(accounts[i]) := accounts[i]];
    }
    assert accounts[..|accounts|] == accounts;
  }

  predicate OfRepository(rule: DestinationRule) {
    rule.RepositoryIsPlain? || rule.LocalIsAbsolute? || rule.MountedIsRelative?
  }

  method CheckDestination(c: Config, i: nat, byId: map<string, Account>, seen: set<string>)
    returns (errors: seq<Fault>)
    requires i < |c.destinations|
    requires forall id :: id in byId <==> exists j :: 0 <= j < |c.accounts| && IdOf(c.accounts[j]) == id
    requires forall id :: id in seen <==> exists j :: 0 <= j < i && c.destinations[j].id == id
    ensures forall f :: f in errors <==>
              && f.InDestination? && f.destination == i && !OfRepository(f.destinationRule)
              && DestinationBreaks(c, i, f.destinationRule)
  {
    var d := c.destinations[i];
    errors := [];
    if d.id == "" {
      errors := errors + [InDestination(i, DestinationHasId)];
    } else if d.id in seen {
      errors := errors + [InDestination(i, DestinationIdIsNew)];
    }
    if d.accountId !in byId {
      errors := errors + [InDestination(i, AccountExists)];
    }
  }

  method CheckRepository(c: Config, i: nat, byId: map<string, Account>) returns (errors: seq<Fault>)
    requires i < |c.destinations|
    requires forall id :: LastType(c.accounts, id) == if id in byId then TypeOf(byId[id]) else ""
    ensures forall f :: f in errors <==>
              && f.InDestination? && f.destination == i && OfRepository(f.destinationRule)
              && DestinationBreaks(c, i, f.destinationRule)
  {
    var d := c.destinations[i];
    errors := [];
    var repo := CheckedRepo(d);
    if StartsWith(repo, "-") || HasControlChars(repo) {
      errors := errors + [InDestination(i, RepositoryIsPlain)];
    }
    var accountType := if d.accountId in byId then TypeOf(byId[d.accountId]) else "";
    assert accountType == LastType(c.accounts, d.accountId);
    if accountType == "local" && repo != "" && !StartsWith(repo, "/") {
      errors := errors + [InDestination(i, LocalIsAbsolute)];
    }
    if IsMountedType(accountType) && (HasDots(repo) || StartsWith(repo, "/")) {
      errors := errors + [InDestination(i, MountedIsRelative)];
    }
  }

  predicate OfJobTexts(rule: JobRule) {
    rule.JobHasName? || rule.JobNameIsNew? || rule.NameIsPrintable? ||
    rule.CompressionIsKnown? || rule.ScheduleIsKnown? || rule.TimeIsClock?
  }

  method CheckJobTexts(c: Config, i: nat, seen: set<string>) returns (errors: seq<Fault>)
    requires i < |c.jobs|
    requires forall name :: name in seen <==> exists k :: 0 <= k < i && c.jobs[k].name == name
    ensures forall f :: f in errors <==> f.InJob? && f.job == i && OfJobTexts(f.jobRule) && JobBreaks(c, i, f.jobRule)
  {
    var j := c.jobs[i];
    errors := [];
    if j.name == "" {
      errors := errors + [InJob(i, JobHasName)];
    } else if j.name in seen {
      errors := errors + [InJob(i, JobNameIsNew)];
    }
    if HasControlChars(j.name) {
      errors := errors + [InJob(i, NameIsPrintable)];
    }
    if !MatchesCompression(j.compression) {
      errors := errors + [InJob(i, CompressionIsKnown)];
    }
    if !(j.scheduleType == "manual" || j.scheduleType == "interval" || j.scheduleType == "daily") {
      errors := errors + [InJob(i, ScheduleIsKnown)];
    }
    if j.scheduleType == "daily" && !Schedule.MatchesTime(j.scheduleTime) {
      errors := errors + [InJob(i, TimeIsClock)];
    }
  }

  method CheckJobLists(c: Config, i: nat, destIds: set<string>) returns (errors: seq<Fault>)
    requires i < |c.jobs|
    requires forall id :: id in destIds <==> exists d :: 0 <= d < |c.destinations| && c.destinations[d].id == id
    ensures forall f :: f in errors <==> f.InJob? && f.job == i && !OfJobTexts(f.jobRule) && JobBreaks(c, i, f.jobRule)
  {
    var j := c.jobs[i];
    var targets: seq<Fault>, sources: seq<Fault>, excludes: seq<Fault> := [], [], [];
    for k := 0 to |j.destinationIds|
      invariant forall f :: f in targets <==>
                  f.InJob? && f.job == i && f.jobRule.TargetExists? && f.jobRule.k < k && JobBreaks(c, i, f.jobRule)
    {
      if j.destinationIds[k] !in destIds {
        targets := targets + [InJob(i, TargetExists(k))];
      }
    }
    for k := 0 to |j.includeFolders|
      invariant forall f :: f in sources <==>
                  f.InJob? && f.job == i && f.jobRule.SourceIsAbsolute? && f.jobRule.k < k && JobBreaks(c, i, f.jobRule)
    {
      if !StartsWith(j.includeFolders[k], "/") || HasControlChars(j.includeFolders[k]) {
        sources := sources + [InJob(i, SourceIsAbsolute(k))];
      }
    }
    for k := 0 to |j.excludeFolders|
      invariant forall f :: f in excludes <==>
                  f.InJob? && f.job == i && f.jobRule.ExcludeIsPrintable? && f.jobRule.k < k && JobBreaks(c, i, f.jobRule)
    {
      if HasControlChars(j.excludeFolders[k]) {
        excludes := excludes + [InJob(i, ExcludeIsPrintable(k))];
      }
    }
    errors := targets + sources + excludes;
  }

  /** `validate_system_config`: the errors are exactly the broken rules. */
  method Validate(c: Config) returns (errors: seq<Fault>)
    ensures forall f :: f in errors <==> Broken(c, f)
    ensures errors == [] <==> Accepted(c)
  {
    var accountErrors := CheckAccounts(c);
    var destinationErrors := CheckDestinations(c);
    var jobErrors := CheckJobs(c);
    errors := accountErrors + destinationErrors + jobErrors;
    if errors != [] {
      assert Broken(c, errors[0]);
    }
  }

  method CheckAccounts(c: Config) returns (errors: seq<Fault>)
    ensures forall f :: f in errors <==> f.InAccount? && Broken(c, f)
  {
    errors := [];
    var seen: set<string> := {};
    for i := 0 to |c.accounts|
      invariant forall id :: id in seen <==> exists j :: 0 <= j < i && IdOf(c.accounts[j]) == id
      invariant forall f :: f in errors <==> f.InAccount? && f.account < i && Broken(c, f)
    {
      var more := CheckAccount(c.accounts, i, seen);
      errors := errors + more;
      seen := seen + {IdOf(c.accounts[i])};
    }
  }

  method CheckDestinations(c: Config) returns (errors: seq<Fault>)
    ensures forall f :: f in errors <==> f.InDestination? && Broken(c, f)
  {
    errors := [];
    var byId := AccountsById(c.accounts);
    var seen: set<string> := {};
    for i := 0 to |c.destinations|
      invariant forall id :: id in seen <==> exists j :: 0 <= j < i && c.destinations[j].id == id
      invariant forall f :: f in errors <==> f.InDestination? && f.destination < i && Broken(c, f)
    {
      var identity := CheckDestination(c, i, byId, seen);
      var repository := CheckRepository(c, i, byId);
      errors := errors + identity + repository;
      seen := seen + {c.destinations[i].id};
    }
  }

  method CheckJobs(c: Config) returns (errors: seq<Fault>)
    ensures forall f :: f in errors <==> f.InJob? && Broken(c, f)
  {
    errors := [];
    var destIds := set d | d in c.destinations :: d.id;
    var names: set<string> := {};
    for i := 0 to |c.jobs|
      invariant forall name :: name in names <==> exists k :: 0 <= k < i && c.jobs[k].name == name
      invariant forall f :: f in errors <==> f.InJob? && f.job < i && Broken(c, f)
    {
      var texts := CheckJobTexts(c, i, names);
      var lists := CheckJobLists(c, i, destIds);
      errors := errors + texts + lists;
      names := names + {c.jobs[i].name};
    }
  }
}
