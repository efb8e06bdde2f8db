/** Normalising, masking and restoring cancel out. */
module ConfigLaws {
  import opened Wrappers
  import opened Text
  import opened SysConfig

  // ---------------------------------------------- what normalisation produces

  lemma {:induction false} StripAllNormal(texts: seq<string>)
    ensures AllNonBlankTrimmed(StripAll(texts))
    decreases |texts|
  {
    if texts != [] {
      StripAllNormal(texts[..|texts| - 1]);
      StripTrims(texts[|texts| - 1]);
    }
  }

  lemma {:induction false} KeepNonBlankNormal(texts: seq<string>)
    ensures forall i :: 0 <= i < |KeepNonBlank(texts)| ==> Strip(KeepNonBlank(texts)[i]) != ""
    decreases |texts|
  {
    if texts != [] {
      KeepNonBlankNormal(texts[..|texts| - 1]);
    }
  }

  lemma TruthyIsShown(value: Value)
    requires value.Truthy()
    ensures value.Shown() != ""
  {
    if value.Number? {
      DecimalIsShown(value.number);
    }
  }

  lemma DecimalIsShown(n: int)
    ensures Decimal(n) != ""
  {
    assert forall k: nat :: Digits(k) != "" by {
      forall k: nat
        ensures Digits(k) != ""
      {
        assert Digits(k)[|Digits(k)| - 1] == '0' + (k % 10) as char;
      }
    }
  }

  lemma NormalizedSource(raw: RawSource)
    ensures NormalizeSource(raw).path != "" ==> NormalSource(NormalizeSource(raw))
  {
    if raw.caption.Truthy() {
      TruthyIsShown(raw.caption);
    }
    StripTrims(raw.path.Or(""));
    StripAllNormal(ShownAll(raw.excludes));
  }

  lemma GivenIsNormal(item: Option<RawSource>)
    ensures forall i :: 0 <= i < |Given(item)| ==> NormalSource(Given(item)[i])
  {
    if item.Some? {
      NormalizedSource(item.value);
    }
  }

  lemma {:induction false} GivenSourcesNormal(raw: seq<Option<RawSource>>)
    ensures forall i :: 0 <= i < |GivenSources(raw)| ==> NormalSource(GivenSources(raw)[i])
    decreases |raw|
  {
    if raw != [] {
      var n := |raw| - 1;
      GivenSourcesNormal(raw[..n]);
      GivenIsNormal(raw[n]);
      assert GivenSources(raw) == GivenSources(raw[..n]) + Given(raw[n]);
    }
  }

  lemma NormalizedSources(raw: RawJob)
    ensures NormalizeSources(raw) != []
    ensures forall i :: 0 <= i < |NormalizeSources(raw)| ==> NormalSource(NormalizeSources(raw)[i])
  {
    GivenSourcesNormal(raw.sources);
    StripAllNormal(ShownAll(raw.includeFolders));
    StripAllNormal(ShownAll(raw.excludeFolders));
    StripTrims("/");
  }

  lemma NormalizedJob(raw: RawJob)
    ensures NormalJob(NormalizeJob(raw))
  {
    NormalizedSources(raw);
    StripTrims(raw.name.Or(""));
    StripTrims(raw.compression.Or("lz4"));
    StripTrims(raw.scheduleTime.Or("03:15"));
    StripTrims(raw.scheduleType.Or("manual"));
    LowerTwice(Strip(raw.scheduleType.Or("manual")));
    KeepNonBlankNormal(ShownAll(raw.destinationIds));
  }

  lemma NormalizedFields(raw: RawRecord)
    ensures forall key: Key :: key in NormalizeAccount(raw).fields <==> key.OfAccount()
    ensures forall key: Key :: key.OfAccount() ==> NormalizeAccount(raw).fields[key] == AccountField(raw, key)
  {
    AccountFields();
  }

  lemma FieldIsTrimmed(raw: RawRecord, key: Key)
    requires !key.Secret()
    ensures Trimmed(AccountField(raw, key))
    ensures key == Type ==> AccountField(raw, key) != ""
  {
    StripTrims(Get(raw, key).Or(""));
    StripTrims("ssh");
  }

  lemma NormalizedAccount(raw: RawRecord)
    ensures NormalAccount(NormalizeAccount(raw))
  {
    NormalizedFields(raw);
    var a := NormalizeAccount(raw);
    FieldIsTrimmed(raw, Type);
    forall key: Key | key.OfAccount() && !key.Secret()
      ensures Trimmed(a.fields[key])
    {
      FieldIsTrimmed(raw, key);
    }
  }

  lemma NormalizedDestination(raw: RawRecord)
    ensures NormalDestination(NormalizeDestination(raw))
  {
    StripTrims(Get(raw, Id).Or(""));
    StripTrims(Get(raw, Name).Or(""));
    StripTrims(Get(raw, AccountId).Or(""));
    StripTrims(Get(raw, Storage).Or(""));
    StripTrims(Get(raw, LocalPath).Or(""));
  }

  lemma {:induction false} NormalizedAccounts(raw: seq<Option<RawRecord>>)
    ensures forall i :: 0 <= i < |Each(NormalizeAccount, raw)| ==> NormalAccount(Each(NormalizeAccount, raw)[i])
    decreases |raw|
  {
    if raw != [] {
      NormalizedAccounts(raw[..|raw| - 1]);
      if raw[|raw| - 1].Some? {
        NormalizedAccount(raw[|raw| - 1].value);
      }
    }
  }

  lemma {:induction false} NormalizedDestinations(raw: seq<Option<RawRecord>>)
    ensures forall i :: 0 <= i < |Each(NormalizeDestination, raw)| ==>
              NormalDestination(Each(NormalizeDestination, raw)[i])
    decreases |raw|
  {
    if raw != [] {
      NormalizedDestinations(raw[..|raw| - 1]);
      if raw[|raw| - 1].Some? {
        NormalizedDestination(raw[|raw| - 1].value);
      }
    }
  }

  lemma {:induction false} NormalizedJobs(raw: seq<Option<RawJob>>)
    ensures forall i :: 0 <= i < |Each(NormalizeJob, raw)| ==> NormalJob(Each(NormalizeJob, raw)[i])
    decreases |raw|
  {
    if raw != [] {
      NormalizedJobs(raw[..|raw| - 1]);
      if raw[|raw| - 1].Some? {
        NormalizedJob(raw[|raw| - 1].value);
      }
    }
  }

  lemma NormalizedIsNormal(raw: RawConfig)
    ensures Normal(Normalize(raw))
  {
    NormalizedAccounts(raw.accounts);
    NormalizedDestinations(raw.destinations);
    NormalizedJobs(raw.jobs);
  }

  // --------------------------------------------- a normal form read once more

  lemma {:induction false} ShownStrings(texts: seq<string>)
    ensures ShownAll(Strings(texts)) == texts
    decreases |texts|
  {
    if texts != [] {
      var init := texts[..|texts| - 1];
      ShownStrings(init);
      assert Strings(texts)[..|texts| - 1] == Strings(init);
    }
  }

  lemma {:induction false} StripAllAgain(texts: seq<string>)
    requires AllNonBlankTrimmed(texts)
    ensures StripAll(texts) == texts
    decreases |texts|
  {
    if texts != [] {
      var init, last := texts[..|texts| - 1], texts[|texts| - 1];
      StripAllAgain(init);
      StripTrims(last);
      assert StripAll(texts) == init + [last];
    }
  }

  lemma {:induction false} KeepNonBlankAgain(texts: seq<string>)
    requires forall i :: 0 <= i < |texts| ==> Strip(texts[i]) != ""
    ensures KeepNonBlank(texts) == texts
    decreases |texts|
  {
    if texts != [] {
      var init, last := texts[..|texts| - 1], texts[|texts| - 1];
      KeepNonBlankAgain(init);
      assert KeepNonBlank(texts) == init + [last] && texts == init + [last];
    }
  }

  lemma SourceAgain(s: Source)
    requires NormalSource(s)
    ensures NormalizeSource(RawOfSource(s)) == s
  {
    StripTrims(s.path);
    ShownStrings(s.excludes);
    StripAllAgain(s.excludes);
  }

  lemma {:induction false} GatherAgain<A, B>(f: A -> seq<B>, items: seq<A>, again: seq<B>)
    requires |items| == |again| && forall i :: 0 <= i < |items| ==> f(items[i]) == [again[i]]
    ensures Gather(f, items) == again
    decreases |items|
  {
    if items != [] {
      GatherAgain(f, items[..|items| - 1], again[..|again| - 1]);
    }
  }

  lemma DefaultsAreTrimmed()
    ensures Strip("lz4") == "lz4" && Strip("03:15") == "03:15"
    ensures Lower(Strip("manual")) == "manual"
  {
    StripTrims("lz4");
    StripTrims("03:15");
    StripTrims("manual");
    LowerAt("manual");
  }

  lemma JobSourcesAgain(j: Job)
    requires NormalJob(j)
    ensures NormalizeSources(RawOfJob(j)) == j.sources
  {
    var raw := RawSources(j.sources);
    forall i | 0 <= i < |raw|
      ensures Given(raw[i]) == [j.sources[i]]
    {
      SourceAgain(j.sources[i]);
    }
    GatherAgain(Given, raw, j.sources);
  }

  lemma TextAgain(s: string, default: string)
    requires Trimmed(s) && Trimmed(default)
    ensures Strip(String(s).Or(default)) == if s == "" then default else s
  {
    StripTrims(s);
    StripTrims(default);
  }

  lemma JobTextsAgain(j: Job)
    requires NormalJob(j)
    ensures Strip(String(j.name).Or("")) == j.name
    ensures Strip(String(j.compression).Or("lz4")) == FillJob(j).compression
    ensures Strip(String(j.scheduleType).Or("manual")) == FillJob(j).scheduleType
    ensures Strip(String(j.scheduleTime).Or("03:15")) == FillJob(j).scheduleTime
  {
    TextAgain(j.name, "");
    TextAgain(j.compression, "lz4");
    TextAgain(j.scheduleType, "manual");
    TextAgain(j.scheduleTime, "03:15");
  }

  lemma FilledTypeIsLower(j: Job)
    requires NormalJob(j)
    ensures Lower(FillJob(j).scheduleType) == FillJob(j).scheduleType
  {
    DefaultsAreTrimmed();
  }

  lemma NumbersAndFlagsAgain(j: Job)
    requires 1 <= j.scheduleInterval <= 168 && 1 <= j.validateInterval <= 52 && 1 <= j.optimizeInterval <= 52
    ensures
      var raw := RawOfJob(j);
      && raw.scheduleInterval.AsInt(3, 1, 168) == j.scheduleInterval
      && raw.validateInterval.AsInt(3, 1, 52) == j.validateInterval
      && raw.optimizeInterval.AsInt(3, 1, 52) == j.optimizeInterval
      && raw.catchupMissed.Flag(true) == j.catchupMissed && raw.pruneEnabled.Flag(false) == j.pruneEnabled
      && raw.validateEnabled.Flag(true) == j.validateEnabled && raw.optimizeEnabled.Flag(false) == j.optimizeEnabled
  {}

  lemma JobFromParts(j: Job, raw: RawJob)
    requires NormalizeSources(raw) == j.sources
    requires j.includeFolders == Dedup(Paths(j.sources)) && j.excludeFolders == Dedup(Rules(j.sources))
    requires KeepNonBlank(ShownAll(raw.destinationIds)) == j.destinationIds
    requires Strip(raw.name.Or("")) == j.name
    requires Strip(raw.compression.Or("lz4")) == FillJob(j).compression
    requires Lower(Strip(raw.scheduleType.Or("manual"))) == FillJob(j).scheduleType
    requires Strip(raw.scheduleTime.Or("03:15")) == FillJob(j).scheduleTime
    requires raw.scheduleInterval.AsInt(3, 1, 168) == j.scheduleInterval
    requires raw.validateInterval.AsInt(3, 1, 52) == j.validateInterval
    requires raw.optimizeInterval.AsInt(3, 1, 52) == j.optimizeInterval
    requires raw.catchupMissed.Flag(true) == j.catchupMissed && raw.pruneEnabled.Flag(false) == j.pruneEnabled
    requires raw.validateEnabled.Flag(true) == j.validateEnabled && raw.optimizeEnabled.Flag(false) == j.optimizeEnabled
    ensures NormalizeJob(raw) == FillJob(j)
  {}

  lemma JobAgain(j: Job)
    requires NormalJob(j)
    ensures NormalizeJob(RawOfJob(j)) == FillJob(j)
  {
    JobSourcesAgain(j);
    JobTextsAgain(j);
    FilledTypeIsLower(j);
    ShownStrings(j.destinationIds);
    KeepNonBlankAgain(j.destinationIds);
    NumbersAndFlagsAgain(j);
    JobFromParts(j, RawOfJob(j));
  }

  lemma FieldAgain(a: Account, key: Key)
    requires NormalAccount(a) && key.OfAccount()
    ensures AccountField(RawOfAccount(a), key) == a.fields[key]
  {
    assert RawOfAccount(a)[key] == String(a.fields[key]);
    StripTrims(a.fields[key]);
  }

  lemma AccountAgain(a: Account)
    requires NormalAccount(a)
    ensures NormalizeAccount(RawOfAccount(a)) == a
  {
    var raw := RawOfAccount(a);
    var again := NormalizeAccount(raw);
    NormalizedFields(raw);
    forall key: Key | key.OfAccount()
      ensures again.fields[key] == a.fields[key]
    {
      FieldAgain(a, key);
    }
    assert again.fields.Keys == a.fields.Keys;
    assert again.fields == a.fields;
  }

  lemma DestinationAgain(d: Destination)
    requires NormalDestination(d)
    ensures NormalizeDestination(RawOfDestination(d)) == d
  {
    StripTrims(d.id);
    StripTrims(d.name);
    StripTrims(d.accountId);
    StripTrims(d.storage);
    StripTrims(d.localPath);
  }

  /** Reading back a list of written items, each of which reads back as `h` says. */
  lemma {:induction false} EachAgain<A, B>(f: A -> B, items: seq<Option<A>>, again: seq<B>)
    requires |items| == |again|
    requires forall i :: 0 <= i < |items| ==> items[i].Some? && f(items[i].value) == again[i]
    ensures Each(f, items) == again
    decreases |items|
  {
    if items != [] {
      EachAgain(f, items[..|items| - 1], again[..|again| - 1]);
    }
  }

  lemma AccountsAgain(accounts: seq<Account>)
    requires forall i :: 0 <= i < |accounts| ==> NormalAccount(accounts[i])
    ensures Each(NormalizeAccount, RawAccounts(accounts)) == accounts
  {
    forall i | 0 <= i < |accounts|
      ensures NormalizeAccount(RawAccounts(accounts)[i].value) == accounts[i]
    {
      AccountAgain(accounts[i]);
    }
    EachAgain(NormalizeAccount, RawAccounts(accounts), accounts);
  }

  lemma DestinationsAgain(destinations: seq<Destination>)
    requires forall i :: 0 <= i < |destinations| ==> NormalDestination(destinations[i])
    ensures Each(NormalizeDestination, RawDestinations(destinations)) == destinations
  {
    forall i | 0 <= i < |destinations|
      ensures NormalizeDestination(RawDestinations(destinations)[i].value) == destinations[i]
    {
      DestinationAgain(destinations[i]);
    }
    EachAgain(NormalizeDestination, RawDestinations(destinations), destinations);
  }

  lemma JobsAgain(jobs: seq<Job>)
    requires forall i :: 0 <= i < |jobs| ==> NormalJob(jobs[i])
    ensures Each(NormalizeJob, RawJobs(jobs)) == FillJobs(jobs)
  {
    forall i | 0 <= i < |jobs|
      ensures NormalizeJob(RawJobs(jobs)[i].value) == FillJobs(jobs)[i]
    {
      JobAgain(jobs[i]);
    }
    EachAgain(NormalizeJob, RawJobs(jobs), FillJobs(jobs));
  }

  /** Normalising a normal form only fills in blank compression, schedule type and time. */
  lemma NormalizeAgain(c: Config)
    requires Normal(c)
    ensures Normalize(RawOf(c)) == Fill(c)
  {
    AccountsAgain(c.accounts);
    DestinationsAgain(c.destinations);
    JobsAgain(c.jobs);
  }

  lemma FillIsIdentity(c: Config)
    ensures Fill(c) == c <==> NoBlanks(c)
    ensures NoBlanks(Fill(c))
  {
    if Fill(c) == c {
      forall i | 0 <= i < |c.jobs|
        ensures !HasBlank(c.jobs[i])
      {
        assert FillJobs(c.jobs)[i] == c.jobs[i];
      }
    }
    if NoBlanks(c) {
      assert forall i :: 0 <= i < |c.jobs| ==> FillJobs(c.jobs)[i] == c.jobs[i];
    }
  }

  /** Normalisation is idempotent exactly on configurations without a blank field, and stable after two passes. */
  lemma NormalizeIsIdempotent(raw: RawConfig)
    ensures
      var once := Normalize(raw);
      var twice := Normalize(RawOf(once));
      && (twice == once <==> NoBlanks(once))
      && Normalize(RawOf(twice)) == twice
  {
    var once := Normalize(raw);
    NormalizedIsNormal(raw);
    NormalizeAgain(once);
    FillIsIdentity(once);
    NormalizedIsNormal(RawOf(once));
    NormalizeAgain(Fill(once));
    FillIsIdentity(Fill(once));
  }

  /** A field of the normal form is blank exactly when it was given as white space only. */
  lemma BlankMeansWhiteSpace(raw: RawJob)
    ensures NormalizeJob(raw).compression == "" <==> raw.compression.Truthy() && Strip(raw.compression.Shown()) == ""
    ensures NormalizeJob(raw).scheduleType == "" <==> raw.scheduleType.Truthy() && Strip(raw.scheduleType.Shown()) == ""
    ensures NormalizeJob(raw).scheduleTime == "" <==> raw.scheduleTime.Truthy() && Strip(raw.scheduleTime.Shown()) == ""
  {
    DefaultsAreTrimmed();
    LowerAt(Strip(raw.scheduleType.Or("manual")));
  }

  // --------------------------------------------------------- mask and restore

  predicate UniqueIds(accounts: seq<Account>) {
    forall i, j :: 0 <= i < j < |accounts| ==>
      GetText(accounts[i].fields, Id) != GetText(accounts[j].fields, Id)
  }

  lemma {:induction false} UniqueIdFindsItself(accounts: seq<Account>, i: nat, field: Key)
    requires i < |accounts| && UniqueIds(accounts)
    ensures StoredSecret(accounts, GetText(accounts[i].fields, Id), field) == GetText(accounts[i].fields, field)
    decreases |accounts|
  {
    var init := accounts[..|accounts| - 1];
    if i < |init| {
      UniqueIdFindsItself(init, i, field);
      assert init[i] == accounts[i];
    }
  }

  /** The stored secrets of this id are those of this account. */
  predicate FindsItsSecrets(a: Account, stored: seq<Account>) {
    FindsSecret(a, stored, Passphrase) && FindsSecret(a, stored, S3SecretKey) && FindsSecret(a, stored, SmbPassword)
  }

  predicate FindsSecret(a: Account, stored: seq<Account>, field: Key) {
    GetText(a.fields, field) != "" ==>
      StoredSecret(stored, GetText(a.fields, Id), field) == GetText(a.fields, field)
  }

  lemma MaskedField(a: Account, key: Key)
    requires NormalAccount(a) && key in RawOfAccount(a)
    ensures key in RawOfAccount(Masked(a))
    ensures RawOfAccount(Masked(a))[key] ==
            if key.Secret() && a.fields[key] != "" then String(SECRET_MASK) else RawOfAccount(a)[key]
  {}

  lemma RestoredMaskedField(a: Account, stored: seq<Account>, key: Key)
    requires NormalAccount(a) && key in RawOfAccount(a)
    ensures key in RawOfAccount(Masked(a))
    ensures RestoredField(RawOfAccount(Masked(a)), stored, key) == RawOfAccount(a)[key] <==>
            (key.Secret() ==> FindsSecret(a, stored, key))
  {
    MaskedField(a, key);
    MaskedId(a);
    if key.Secret() {
      RestoredSecret(RawOfAccount(Masked(a)), stored, key, a.fields[key]);
    }
  }

  lemma MaskedId(a: Account)
    requires NormalAccount(a)
    ensures Get(RawOfAccount(Masked(a)), Id).Shown() == GetText(a.fields, Id)
  {
    MaskedField(a, Id);
  }

  lemma RestoredSecret(raw: RawRecord, stored: seq<Account>, key: Key, text: string)
    requires key in raw && key.Secret() && raw[key] == String(if text != "" then SECRET_MASK else text)
    ensures RestoredField(raw, stored, key) == String(text) <==>
            (text != "" ==> StoredSecret(stored, Get(raw, Id).Shown(), key) == text)
  {
    assert |SECRET_MASK| == 8;
  }

  lemma RestoredMaskedAccount(a: Account, stored: seq<Account>)
    requires NormalAccount(a)
    ensures RestoredAccount(RawOfAccount(Masked(a)), stored) == RawOfAccount(a) <==> FindsItsSecrets(a, stored)
  {
    SameKeys(a);
    RestoredFieldwise(RawOfAccount(Masked(a)), stored, RawOfAccount(a));
    RestoredMaskedFields(a, stored);
  }

  lemma RestoredMaskedFields(a: Account, stored: seq<Account>)
    requires NormalAccount(a) && RawOfAccount(Masked(a)).Keys == RawOfAccount(a).Keys
    ensures (forall key :: key in RawOfAccount(a) ==>
               RestoredField(RawOfAccount(Masked(a)), stored, key) == RawOfAccount(a)[key])
            <==> FindsItsSecrets(a, stored)
  {
    forall key | key in RawOfAccount(a)
      ensures RestoredField(RawOfAccount(Masked(a)), stored, key) == RawOfAccount(a)[key] <==>
              (key.Secret() ==> FindsSecret(a, stored, key))
    {
      RestoredMaskedField(a, stored, key);
    }
    HasField(a, Passphrase);
    HasField(a, S3SecretKey);
    HasField(a, SmbPassword);
    SecretsDecide(a, stored, RawOfAccount(Masked(a)), RawOfAccount(a));
  }

  /** When the fields agree up to secrets that are not found, the three secrets decide. */
  lemma SecretsDecide(a: Account, stored: seq<Account>, masked: RawRecord, original: RawRecord)
    requires masked.Keys == original.Keys
    requires Passphrase in original && S3SecretKey in original && SmbPassword in original
    requires forall key :: key in original ==>
               (RestoredField(masked, stored, key) == original[key] <==>
                (key.Secret() ==> FindsSecret(a, stored, key)))
    ensures (forall key :: key in original ==> RestoredField(masked, stored, key) == original[key])
            <==> FindsItsSecrets(a, stored)
  {}

  lemma HasField(a: Account, key: Key)
    requires NormalAccount(a) && key.OfAccount()
    ensures key in RawOfAccount(a)
  {}

  lemma SameKeys(a: Account)
    requires NormalAccount(a)
    ensures RawOfAccount(Masked(a)).Keys == RawOfAccount(a).Keys
  {}

  lemma RestoredFieldwise(masked: RawRecord, stored: seq<Account>, original: RawRecord)
    requires masked.Keys == original.Keys
    ensures RestoredAccount(masked, stored) == original <==>
            forall key :: key in original ==> RestoredField(masked, stored, key) == original[key]
  {
    var restored := RestoredAccount(masked, stored);
    assert restored.Keys == masked.Keys;
    assert forall key :: key in original ==> restored[key] == RestoredField(masked, stored, key);
  }

  /** Restoring a masked configuration gives it back exactly when every account finds its own secrets. */
  lemma RestoreUndoesMask(c: Config)
    requires Normal(c)
    ensures Restore(RawOf(Mask(c)), c) == RawOf(c) <==>
            forall i :: 0 <= i < |c.accounts| ==> FindsItsSecrets(c.accounts[i], c.accounts)
  {
    var original, restored := RawOf(c), Restore(RawOf(Mask(c)), c);
    assert restored.destinations == original.destinations && restored.jobs == original.jobs;
    assert |restored.accounts| == |original.accounts|;
    forall i | 0 <= i < |c.accounts|
      ensures restored.accounts[i] == original.accounts[i] <==> FindsItsSecrets(c.accounts[i], c.accounts)
    {
      RestoredMaskedAccount(c.accounts[i], c.accounts);
    }
    assert restored == original <==> restored.accounts == original.accounts;
  }

  /** With unique ids, as validation demands, every account finds its own secrets. */
  lemma UniqueIdsFindTheirSecrets(accounts: seq<Account>, i: nat)
    requires i < |accounts| && UniqueIds(accounts)
    ensures FindsItsSecrets(accounts[i], accounts)
  {
    UniqueIdFindsItself(accounts, i, Passphrase);
    UniqueIdFindsItself(accounts, i, S3SecretKey);
    UniqueIdFindsItself(accounts, i, SmbPassword);
  }

  /** What `save_config` stores for an incoming configuration. */
  function Merged(incoming: RawConfig, stored: Config): Config {
    Normalize(Restore(incoming, stored))
  }

  /** Saving what `get_config` returned only fills in blank fields; without blanks it changes nothing. */
  lemma SavingUnmodified(c: Config)
    requires Normal(c) && UniqueIds(c.accounts)
    ensures Merged(RawOf(Mask(c)), c) == Fill(c)
    ensures Merged(RawOf(Mask(c)), c) == c <==> NoBlanks(c)
  {
    forall i | 0 <= i < |c.accounts|
      ensures FindsItsSecrets(c.accounts[i], c.accounts)
    {
      UniqueIdsFindTheirSecrets(c.accounts, i);
    }
    RestoreUndoesMask(c);
    NormalizeAgain(c);
    FillIsIdentity(c);
  }
}
