/** `get_config` and `save_config` of the daemon: reading and replacing the stored configuration. */
module ConfigStore {
  import opened Wrappers
  import opened Text
  import opened SysConfig
  import opened Validation
  import ConfigLaws
  import DaemonRuns
  import DaemonState
  import DaemonMeaning
  import Schedule

  // ------------------------------------------- what an accepted config gives

  /** What the scheduler sees of a job. */
  function ScheduleOf(j: Job): DaemonState.Job {
    DaemonState.Job(j.name, j.scheduleType, j.scheduleInterval, j.scheduleTime, j.catchupMissed)
  }

  function Schedules(jobs: seq<Job>): (r: seq<DaemonState.Job>)
    ensures |r| == |jobs|
    ensures forall i :: 0 <= i < |r| ==> r[i] == ScheduleOf(jobs[i])
  {
    seq(|jobs|, i requires 0 <= i < |jobs| => ScheduleOf(jobs[i]))
  }

  lemma AcceptedIdsAreUnique(c: Config)
    requires Accepted(c)
    ensures ConfigLaws.UniqueIds(c.accounts)
    ensures forall i, j :: 0 <= i < j < |c.destinations| ==> c.destinations[i].id != c.destinations[j].id
    ensures forall i, j :: 0 <= i < j < |c.jobs| ==> c.jobs[i].name != c.jobs[j].name
  {
    forall i, j | 0 <= i < j < |c.accounts|
      ensures IdOf(c.accounts[i]) != IdOf(c.accounts[j])
    {
      assert !Broken(c, InAccount(j, AccountHasId)) && !Broken(c, InAccount(j, AccountIdIsNew));
    }
    forall i, j | 0 <= i < j < |c.destinations|
      ensures c.destinations[i].id != c.destinations[j].id
    {
      assert !Broken(c, InDestination(j, DestinationHasId)) && !Broken(c, InDestination(j, DestinationIdIsNew));
    }
    forall i, j | 0 <= i < j < |c.jobs|
      ensures c.jobs[i].name != c.jobs[j].name
    {
      assert !Broken(c, InJob(j, JobHasName)) && !Broken(c, InJob(j, JobNameIsNew));
    }
  }

  /** The validator grants all that the theorems about the scheduler ask of its jobs. */
  lemma AcceptedSchedules(c: Config)
    requires Accepted(c)
    ensures DaemonRuns.ConfigAccepted(Schedules(c.jobs))
  {
    var jobs := Schedules(c.jobs);
    AcceptedIdsAreUnique(c);
    forall i | 0 <= i < |jobs|
      ensures jobs[i].ScheduleAccepted()
    {
      assert !Broken(c, InJob(i, ScheduleIsKnown)) && !Broken(c, InJob(i, TimeIsClock));
    }
  }

  /** A configured job keeps its name and its catching up, and its interval of hours or its HH:MM is its rule. */
  lemma ScheduledAsConfigured(j: Job)
    ensures
      var s := ScheduleOf(j);
      && s.name == j.name && s.catchupMissed == j.catchupMissed
      && (j.scheduleType == "manual" ==> s.Rule() == Schedule.Never)
      && (j.scheduleType == "interval" && 1 <= j.scheduleInterval ==>
            s.Rule() == Schedule.Every(j.scheduleInterval * 3_600_000_000))
      && (j.scheduleType == "daily" && Schedule.IsClockText(j.scheduleTime) ==>
            var hour, minute := j.scheduleTime[..|j.scheduleTime| - 3], j.scheduleTime[|j.scheduleTime| - 2..];
            s.Rule() == Schedule.DailyAt(DigitsValue(hour) * 3_600_000_000 + DigitsValue(minute) * 60_000_000))
  {
    DaemonMeaning.PlainJobs(ScheduleOf(j));
    if j.scheduleType == "daily" && Schedule.IsClockText(j.scheduleTime) {
      DaemonMeaning.DailyJob(ScheduleOf(j));
    }
  }

  // -------------------------------------------------- masking and restoring

  /** `ACCOUNT_SECRET_FIELDS` */
  method SecretFields() returns (keys: seq<Key>)
    ensures forall key: Key :: key in keys <==> key.Secret()
  {
    keys := [Passphrase, S3SecretKey, SmbPassword];
    assert keys[0] == Passphrase && keys[1] == S3SecretKey && keys[2] == SmbPassword;
  }

  method MaskFields(fields: map<Key, string>, secrets: seq<Key>, mask: string) returns (masked: map<Key, string>)
    ensures masked.Keys == fields.Keys
    ensures forall key :: key in fields ==>
              masked[key] == if key in secrets && fields[key] != "" then mask else fields[key]
  {
    masked := fields;
    for k := 0 to |secrets|
      invariant masked.Keys == fields.Keys
      invariant forall key :: key in fields ==>
                  masked[key] == if key in secrets[..k] && fields[key] != "" then mask else fields[key]
    {
      if GetText(fields, secrets[k]) != "" {
        masked := masked[secrets[k] := mask];
      }
    }
  }

  method MaskAccount(a: Account) returns (masked: Account)
    ensures masked == Masked(a)
  {
    var secrets := SecretFields();
    var fields := MaskFields(a.fields, secrets, SECRET_MASK);
    masked := a.(fields := fields);
    assert masked.fields == Masked(a).fields;
  }

  method MaskSecrets(c: Config) returns (masked: Config)
    ensures masked == Mask(c)
  {
    var accounts := c.accounts;
    for i := 0 to |accounts|
      invariant |accounts| == |c.accounts|
      invariant forall k :: 0 <= k < |accounts| ==>
                  accounts[k] == if k < i then Masked(c.accounts[k]) else c.accounts[k]
    {
      var account := MaskAccount(accounts[i]);
      accounts := accounts[i := account];
    }
    masked := c.(accounts := accounts);
  }

  method RestoreAccount(raw: RawRecord, ghost stored: seq<Account>, byId: map<string, Account>)
    returns (restored: RawRecord)
    requires forall id, field :: StoredSecret(stored, id, field) == if id in byId then GetText(byId[id].fields, field) else ""
    ensures restored == RestoredAccount(raw, stored)
  {
    restored := raw;
    var secrets := SecretFields();
    var id := Get(raw, Id).Shown();
    for k := 0 to |secrets|
      invariant restored.Keys == raw.Keys
      invariant forall key :: key in raw ==>
                  restored[key] == if key in secrets[..k] then RestoredField(raw, stored, key) else raw[key]
    {
      var field := secrets[k];
      if field in restored && restored[field] == String(SECRET_MASK) {
        restored := restored[field := String(if id in byId then GetText(byId[id].fields, field) else "")];
      }
    }
  }

  method RestoreMaskedSecrets(incoming: RawConfig, stored: Config) returns (merged: RawConfig)
    ensures merged == Restore(incoming, stored)
  {
    var byId: map<string, Account> := map[];
    for i := 0 to |stored.accounts|
      invariant forall id, field :: StoredSecret(stored.accounts[..i], id, field) ==
                                    if id in byId then GetText(byId[id].fields, field) else ""
    {
      assert stored.accounts[..i + 1][..i] == stored.accounts[..i];
      byId := byId[IdOf(stored.accounts[i]) := stored.accounts[i]];
    }
    assert stored.accounts[..|stored.accounts|] == stored.accounts;
    var accounts := incoming.accounts;
    for i := 0 to |accounts|
      invariant |accounts| == |incoming.accounts|
      invariant forall k :: 0 <= k < |accounts| ==>
                  accounts[k] ==
                  if k < i && incoming.accounts[k].Some?
                  then Some(RestoredAccount(incoming.accounts[k].value, stored.accounts)) else incoming.accounts[k]
    {
      if accounts[i].Some? {
        var account := RestoreAccount(accounts[i].value, stored.accounts, byId);
        accounts := accounts[i := Some(account)];
      }
    }
    merged := incoming.(accounts := accounts);
  }

  // ---------------------------------------------------------- importing keys

  /** `import_ssh_keys`: gives back the configuration with key paths moved into the key store, or an error. */
  type Importer = Config -> Result<Config, string>

  predicate GoodKey(path: string) {
    StartsWith(path, "/") && Trimmed(path) && !HasControlChars(path)
  }

  predicate KeyMoved(a: Account, b: Account) {
    b == a || (b.sshPort == a.sshPort && GoodKey(GetText(b.fields, SshKey)) &&
               b.fields == a.fields[SshKey := GetText(b.fields, SshKey)])
  }

  predicate KeysMoved(before: Config, after: Config) {
    && |after.accounts| == |before.accounts|
    && after == before.(accounts := after.accounts)
    && forall i :: 0 <= i < |before.accounts| ==> KeyMoved(before.accounts[i], after.accounts[i])
  }

  ghost predicate GoodImporter(keys: Importer) {
    forall c :: keys(c).Ok? ==> KeysMoved(c, keys(c).value)
  }

  lemma MovedKeyKeepsAccount(a: Account, b: Account)
    requires NormalAccount(a) && KeyMoved(a, b)
    ensures NormalAccount(b)
    ensures forall key: Key :: key != SshKey ==> GetText(b.fields, key) == GetText(a.fields, key)
  {}

  lemma MovedKeyBreaksNothing(a: Account, b: Account, rule: AccountRule)
    requires NormalAccount(a) && KeyMoved(a, b) && AloneBreaks(b, rule)
    ensures AloneBreaks(a, rule)
  {
    MovedKeyKeepsAccount(a, b);
    if a != b && rule != KeyIsAbsolute && rule != FieldIsPrintable(SshKey) {
      OtherFieldsDecide(a, b, rule);
    }
  }

  lemma OtherFieldsDecide(a: Account, b: Account, rule: AccountRule)
    requires forall key: Key :: key != SshKey ==> GetText(b.fields, key) == GetText(a.fields, key)
    requires rule != KeyIsAbsolute && rule != FieldIsPrintable(SshKey)
    ensures AloneBreaks(a, rule) == AloneBreaks(b, rule)
  {}

  lemma MovedKeysBreakNoId(before: seq<Account>, after: seq<Account>, i: nat)
    requires |before| == |after| && i < |after|
    requires forall j :: 0 <= j < |before| ==> NormalAccount(before[j]) && KeyMoved(before[j], after[j])
    requires AccountBreaks(after, i, AccountIdIsNew)
    ensures AccountBreaks(before, i, AccountIdIsNew)
  {
    var j :| 0 <= j < i && IdOf(after[j]) == IdOf(after[i]);
    MovedKeyKeepsAccount(before[i], after[i]);
    MovedKeyKeepsAccount(before[j], after[j]);
  }

  lemma {:induction false} MovedKeysKeepTypes(before: seq<Account>, after: seq<Account>, id: string)
    requires |before| == |after|
    requires forall j :: 0 <= j < |before| ==> NormalAccount(before[j]) && KeyMoved(before[j], after[j])
    ensures LastType(after, id) == LastType(before, id)
    decreases |before|
  {
    if before != [] {
      MovedKeyKeepsAccount(before[|before| - 1], after[|after| - 1]);
      MovedKeysKeepTypes(before[..|before| - 1], after[..|after| - 1], id);
    }
  }

  lemma MovedKeysBreakNothing(before: Config, after: Config, f: Fault)
    requires Normal(before) && KeysMoved(before, after) && Broken(after, f)
    ensures Broken(before, f)
  {
    if f.InAccount? {
      if f.accountRule.AccountIdIsNew? {
        MovedKeysBreakNoId(before.accounts, after.accounts, f.account);
      } else {
        MovedKeyBreaksNothing(before.accounts[f.account], after.accounts[f.account], f.accountRule);
      }
    } else if f.InDestination? {
      MovedKeysKeepTypes(before.accounts, after.accounts, after.destinations[f.destination].accountId);
      if f.destinationRule.AccountExists? {
        forall j | 0 <= j < |before.accounts|
          ensures IdOf(before.accounts[j]) != after.destinations[f.destination].accountId
        {
          MovedKeyKeepsAccount(before.accounts[j], after.accounts[j]);
        }
      }
    }
  }

  lemma ImportKeepsAccepted(before: Config, after: Config)
    requires Normal(before) && Accepted(before) && KeysMoved(before, after)
    ensures Normal(after) && Accepted(after)
  {
    forall i | 0 <= i < |after.accounts|
      ensures NormalAccount(after.accounts[i])
    {
      MovedKeyKeepsAccount(before.accounts[i], after.accounts[i]);
    }
    forall f | Broken(after, f)
      ensures false
    {
      MovedKeysBreakNothing(before, after, f);
    }
  }

  // ------------------------------------------------------------------ saving

  datatype Refusal = Invalid(faults: seq<Fault>) | KeyNotImported(message: string)

  /** The configuration that `save_config` puts in place of `stored`, if it accepts `incoming`. */
  ghost function Saved(incoming: RawConfig, stored: Config, keys: Importer): Option<Config> {
    var merged := ConfigLaws.Merged(incoming, stored);
    if Accepted(merged) && keys(merged).Ok? then Some(keys(merged).value) else None
  }

  class Store {
    var cfg: Config

    constructor (loaded: Config)
      ensures cfg == loaded
    {
      cfg := loaded;
    }

    method GetConfig() returns (shown: Config)
      ensures shown == Mask(cfg)
    {
      shown := MaskSecrets(cfg);
    }

    method SaveConfig(incoming: RawConfig, keys: Importer) returns (result: Result<Config, Refusal>)
      modifies this
      ensures result.Ok? <==> Saved(incoming, old(cfg), keys).Some?
      ensures cfg == Saved(incoming, old(cfg), keys).GetOr(old(cfg))
      ensures result.Ok? ==> result.value == Mask(cfg)
      ensures result.Err? && result.error.Invalid? ==>
                forall f :: f in result.error.faults <==> Broken(ConfigLaws.Merged(incoming, old(cfg)), f)
      ensures result.Err? && result.error.KeyNotImported? ==> Accepted(ConfigLaws.Merged(incoming, old(cfg)))
    {
      var restored := RestoreMaskedSecrets(incoming, cfg);
      var merged := Normalize(restored);
      var errors := Validate(merged);
      if errors != [] {
        return Err(Invalid(errors));
      }
      var imported := keys(merged);
      if imported.Err? {
        return Err(KeyNotImported(imported.error));
      }
      cfg := imported.value;
      var shown := GetConfig();
      return Ok(shown);
    }
  }

  /** Whatever is saved, and however often, the stored configuration stays normalised and accepted. */
  lemma SavedIsAccepted(incoming: RawConfig, stored: Config, keys: Importer)
    requires GoodImporter(keys) && Saved(incoming, stored, keys).Some?
    ensures Normal(Saved(incoming, stored, keys).value) && Accepted(Saved(incoming, stored, keys).value)
    ensures DaemonRuns.ConfigAccepted(Schedules(Saved(incoming, stored, keys).value.jobs))
  {
    var merged := ConfigLaws.Merged(incoming, stored);
    ConfigLaws.NormalizedIsNormal(Restore(incoming, stored));
    ImportKeepsAccepted(merged, keys(merged).value);
    AcceptedSchedules(keys(merged).value);
  }

  lemma AcceptedJobIsFilled(c: Config, i: nat)
    requires Accepted(c) && i < |c.jobs|
    ensures FillJob(c.jobs[i]) == c.jobs[i].(scheduleTime := FillJob(c.jobs[i]).scheduleTime)
    ensures c.jobs[i].scheduleType == "daily" ==> c.jobs[i].scheduleTime != ""
  {
    assert !Broken(c, InJob(i, CompressionIsKnown));
    assert !Broken(c, InJob(i, ScheduleIsKnown));
    assert !Broken(c, InJob(i, TimeIsClock));
  }

  lemma FillBreaksNothing(c: Config, f: Fault)
    requires Broken(Fill(c), f)
    ensures Broken(c, f)
  {
    if f.InJob? && f.jobRule.JobNameIsNew? {
      var k :| 0 <= k < f.job && Fill(c).jobs[k].name == Fill(c).jobs[f.job].name;
      assert c.jobs[k].name == c.jobs[f.job].name;
    }
  }

  lemma FilledIsAccepted(c: Config)
    requires Accepted(c)
    ensures Accepted(Fill(c))
  {
    forall f | Broken(Fill(c), f)
      ensures false
    {
      FillBreaksNothing(c, f);
    }
  }

  predicate HasBlankTime(c: Config) {
    exists i :: 0 <= i < |c.jobs| && c.jobs[i].scheduleTime == ""
  }

  lemma OnlyTimesAreBlank(c: Config)
    requires Accepted(c)
    ensures NoBlanks(c) <==> !HasBlankTime(c)
  {
    forall i | 0 <= i < |c.jobs|
      ensures HasBlank(c.jobs[i]) <==> c.jobs[i].scheduleTime == ""
    {
      AcceptedJobIsFilled(c, i);
    }
  }

  /**
    Saving what `get_config` returned is always accepted. It changes nothing, and so keeps the
    fingerprint, exactly when no job has a blank schedule time; otherwise that time becomes 03:15.
   */
  lemma SavingReadBack(c: Config, keys: Importer)
    requires Normal(c) && Accepted(c) && keys(Fill(c)) == Ok(Fill(c))
    ensures Saved(RawOf(Mask(c)), c, keys) == Some(Fill(c))
    ensures Saved(RawOf(Mask(c)), c, keys) == Some(c) <==> !HasBlankTime(c)
  {
    AcceptedIdsAreUnique(c);
    ConfigLaws.SavingUnmodified(c);
    FilledIsAccepted(c);
    OnlyTimesAreBlank(c);
  }

  // -------------------------------------------- a configuration it changes

  /** A job as a client may send it: a name, and a schedule time of one blank. */
  function BlankRawJob(name: string): RawJob {
    RawJob(String(name), [], [], [], Missing, Missing, Missing, String(" "), Missing, Missing, Missing, Missing,
           Missing, Missing, [])
  }

  lemma BlankJobSources(name: string)
    ensures NormalizeJob(BlankRawJob(name)).includeFolders == ["/"]
    ensures NormalizeJob(BlankRawJob(name)).excludeFolders == []
  {
    var raw := BlankRawJob(name);
    var sources := NormalizeSources(raw);
    assert sources == [Source("/", "/", [])];
    assert sources[..0] == [] && sources[0].excludes == [];
    assert Rules(sources) == Rules(sources[..0]) + sources[0].excludes;
    assert Paths(sources) == ["/"] && Rules(sources) == [];
    DedupLast([], "/");
    assert [] + ["/"] == ["/"];
  }

  lemma BlankJobTexts(name: string)
    requires Trimmed(name) && name != ""
    ensures
      var job := NormalizeJob(BlankRawJob(name));
      && job.name == name && job.compression == "lz4" && job.scheduleType == "manual" && job.scheduleTime == ""
      && job.destinationIds == []
  {
    NamedText(name);
    DefaultTexts();
    OneBlank();
    NormalizedTexts(BlankRawJob(name));
  }

  lemma NormalizedTexts(raw: RawJob)
    ensures
      var job := NormalizeJob(raw);
      && job.name == Strip(raw.name.Or("")) && job.compression == Strip(raw.compression.Or("lz4"))
      && job.scheduleType == Lower(Strip(raw.scheduleType.Or("manual")))
      && job.scheduleTime == Strip(raw.scheduleTime.Or("03:15"))
      && job.destinationIds == KeepNonBlank(ShownAll(raw.destinationIds))
  {}

  lemma NamedText(name: string)
    requires Trimmed(name) && name != ""
    ensures Strip(String(name).Or("")) == name
  {
    StripTrims(name);
  }

  lemma DefaultTexts()
    ensures Strip(Missing.Or("lz4")) == "lz4" && Lower(Strip(Missing.Or("manual"))) == "manual"
  {
    ConfigLaws.DefaultsAreTrimmed();
  }

  lemma OneBlank()
    ensures Strip(String(" ").Or("03:15")) == ""
  {
    assert LeftStrip(" ") == "";
  }

  function BlankRawConfig(name: string): RawConfig {
    RawConfig([], [], [Some(BlankRawJob(name))], Missing, Missing, Missing)
  }

  lemma BlankConfig(name: string)
    ensures Normalize(BlankRawConfig(name)).jobs == [NormalizeJob(BlankRawJob(name))]
    ensures Normalize(BlankRawConfig(name)).accounts == [] && Normalize(BlankRawConfig(name)).destinations == []
  {
    ConfigLaws.EachAgain(NormalizeJob, BlankRawConfig(name).jobs, [NormalizeJob(BlankRawJob(name))]);
  }

  lemma BlankIsAccepted(name: string)
    requires Trimmed(name) && name != "" && !HasControlChars(name)
    ensures Accepted(Normalize(BlankRawConfig(name)))
  {
    var c := Normalize(BlankRawConfig(name));
    BlankConfig(name);
    BlankJobTexts(name);
    BlankJobSources(name);
    forall f | Broken(c, f)
      ensures false
    {
      PlainJobBreaksNothing(c, f);
    }
  }

  /** A manual job of the root directory without destinations breaks no rule. */
  lemma PlainJobBreaksNothing(c: Config, f: Fault)
    requires |c.jobs| == 1 && c.accounts == [] && c.destinations == []
    requires c.jobs[0].name != "" && !HasControlChars(c.jobs[0].name) && c.jobs[0].destinationIds == []
    requires c.jobs[0].includeFolders == ["/"] && c.jobs[0].excludeFolders == []
    requires c.jobs[0].compression == "lz4" && c.jobs[0].scheduleType == "manual"
    ensures !Broken(c, f)
  {}

  /** For every job name the validator takes, a configuration that saving it as read changes. */
  lemma ReadBackChanges(name: string, keys: Importer) returns (c: Config)
    requires Trimmed(name) && name != "" && !HasControlChars(name)
    requires forall k :: keys(k) == Ok(k)
    ensures c == Normalize(BlankRawConfig(name)) && Accepted(c)
    ensures Saved(RawOf(Mask(c)), c, keys).Some? && Saved(RawOf(Mask(c)), c, keys) != Some(c)
  {
    c := Normalize(BlankRawConfig(name));
    BlankIsAccepted(name);
    ConfigLaws.NormalizedIsNormal(BlankRawConfig(name));
    SavingReadBack(c, keys);
    BlankConfig(name);
    BlankJobTexts(name);
    assert c.jobs[0].scheduleTime == "";
  }
}
