/** What a normalised and accepted configuration holds, field by field: defaults, limits and rules spelt out. */
module ConfigFields {
  import opened Wrappers
  import opened Text
  import opened SysConfig
  import opened Validation
  import ConfigLaws
  import Schedule

  // ------------------------------------------------------------- single values

  /** A missing flag takes its default; any other value counts as Python's `bool` counts it. */
  predicate IsFlag(value: Value, default: bool, flag: bool) {
    match value
    case Missing => flag == default
    case Null => !flag
    case Bool(b) => flag == b
    case Number(n) => flag == (n != 0)
    case String(s) => flag == (s != "")
    case Other(_, _, truth, _) => flag == truth
  }

  /** `n` is `k`, moved to the nearer end if it lies outside the limits. */
  predicate IsWithin(k: int, low: int, high: int, n: int) {
    && (k < low ==> n == low)
    && (k > high ==> n == high)
    && (low <= k <= high ==> n == k)
  }

  /** A number, or text that `int` reads, is kept within the limits; anything else gives the default. */
  predicate IsNumber(value: Value, default: int, low: int, high: int, n: int) {
    match value
    case Missing => n == default
    case Null => n == default
    case Bool(b) => IsWithin(if b then 1 else 0, low, high, n)
    case Number(k) => IsWithin(k, low, high, n)
    case String(s) => (match ParseInt(s) case None => n == default case Some(k) => IsWithin(k, low, high, n))
    case Other(_, _, _, number) => (match number case None => n == default case Some(k) => IsWithin(k, low, high, n))
  }

  /** The default stands for a missing value, and for null, false, zero and the empty text. */
  predicate IsText(value: Value, default: string, text: string) {
    match value
    case Missing => text == default
    case Null => text == default
    case Bool(b) => text == if b then "True" else default
    case Number(n) => if n == 0 then text == default else text == Decimal(n)
    case String(s) => text == if s == "" then default else s
    case Other(first, rest, truth, _) => text == if truth then [first] + rest else default
  }

  lemma FlagIs(value: Value, default: bool)
    ensures IsFlag(value, default, value.Flag(default))
  {}

  lemma NumberIs(value: Value, default: int, low: int, high: int)
    requires low <= default <= high
    ensures IsNumber(value, default, low, high, value.AsInt(default, low, high))
  {}

  lemma TextIs(value: Value, default: string)
    ensures IsText(value, default, value.Or(default))
  {}

  /** Numbers are written in decimal notation, without leading zeros. */
  lemma {:induction false} DigitsRead(n: nat)
    ensures AllDigits(Digits(n)) && DigitsValue(Digits(n)) == n
    ensures n > 0 ==> Digits(n)[0] != '0'
    decreases n
  {
    if n >= 10 {
      DigitsRead(n / 10);
      var last := '0' + (n % 10) as char;
      assert Digits(n)[..|Digits(n)| - 1] == Digits(n / 10) && DigitValue(last) == n % 10;
    } else {
      ShortNumbers(Digits(n));
    }
  }

  lemma DecimalReads(n: int)
    ensures ParseInt(Decimal(n)) == Some(n)
  {
    var digits := Digits(if n < 0 then -n else n);
    DigitsRead(if n < 0 then -n else n);
    SignedDigits(digits);
    DigitsAreTrimmed(digits);
  }

  // -------------------------------------------------------------------- lists

  /** Normalising lists works item by item: it commutes with concatenation. */
  lemma {:induction false} StripAllJoins(a: seq<string>, b: seq<string>)
    ensures StripAll(a + b) == StripAll(a) + StripAll(b)
    decreases |b|
  {
    if b == [] {
      assert a + b == a;
    } else {
      StripAllJoins(a, b[..|b| - 1]);
      assert (a + b)[..|a + b| - 1] == a + b[..|b| - 1];
    }
  }

  lemma {:induction false} KeepNonBlankJoins(a: seq<string>, b: seq<string>)
    ensures KeepNonBlank(a + b) == KeepNonBlank(a) + KeepNonBlank(b)
    decreases |b|
  {
    if b == [] {
      assert a + b == a;
    } else {
      KeepNonBlankJoins(a, b[..|b| - 1]);
      assert (a + b)[..|a + b| - 1] == a + b[..|b| - 1];
    }
  }

  lemma OneText(text: string)
    ensures StripAll([text]) == if Strip(text) == "" then [] else [Strip(text)]
    ensures KeepNonBlank([text]) == if Strip(text) == "" then [] else [text]
  {
    assert [text][..0] == [];
  }

  lemma {:induction false} EachJoins<A, B>(f: A -> B, a: seq<Option<A>>, b: seq<Option<A>>)
    ensures Each(f, a + b) == Each(f, a) + Each(f, b)
    decreases |b|
  {
    if b == [] {
      assert a + b == a;
    } else {
      EachJoins(f, a, b[..|b| - 1]);
      assert (a + b)[..|a + b| - 1] == a + b[..|b| - 1];
    }
  }

  lemma {:induction false} GatherJoins<A, B>(f: A -> seq<B>, a: seq<A>, b: seq<A>)
    ensures Gather(f, a + b) == Gather(f, a) + Gather(f, b)
    decreases |b|
  {
    if b == [] {
      assert a + b == a;
    } else {
      var init, last := b[..|b| - 1], b[|b| - 1];
      GatherJoins(f, a, init);
      assert (a + b)[..|a + b| - 1] == a + init && (a + b)[|a + b| - 1] == last;
      assert Gather(f, a) + (Gather(f, init) + f(last)) == Gather(f, a) + Gather(f, init) + f(last);
    }
  }

  lemma OneItem<A, B>(f: A -> B, item: Option<A>)
    ensures Each(f, [item]) == if item.Some? then [f(item.value)] else []
  {
    assert [item][..0] == [];
  }

  // --------------------------------------------------------------------- jobs

  /** The flags of a job: only catching up and checking are on by default. */
  lemma JobFlags(raw: RawJob)
    ensures
      var j := NormalizeJob(raw);
      && IsFlag(raw.catchupMissed, true, j.catchupMissed)
      && IsFlag(raw.pruneEnabled, false, j.pruneEnabled)
      && IsFlag(raw.validateEnabled, true, j.validateEnabled)
      && IsFlag(raw.optimizeEnabled, false, j.optimizeEnabled)
  {}

  /** The numbers of a job: three by default, up to a week of hours and a year of weeks. */
  lemma JobNumbers(raw: RawJob)
    ensures
      var j := NormalizeJob(raw);
      && IsNumber(raw.scheduleInterval, 3, 1, 168, j.scheduleInterval)
      && IsNumber(raw.validateInterval, 3, 1, 52, j.validateInterval)
      && IsNumber(raw.optimizeInterval, 3, 1, 52, j.optimizeInterval)
  {
    NumberIs(raw.scheduleInterval, 3, 1, 168);
    NumberIs(raw.validateInterval, 3, 1, 52);
    NumberIs(raw.optimizeInterval, 3, 1, 52);
  }

  /** The texts of a job, with what stands for a missing one. */
  lemma JobTexts(raw: RawJob, name: string, compression: string, scheduleType: string, time: string)
    requires IsText(raw.name, "", name) && IsText(raw.compression, "lz4", compression)
    requires IsText(raw.scheduleType, "manual", scheduleType) && IsText(raw.scheduleTime, "03:15", time)
    ensures
      var j := NormalizeJob(raw);
      && j.name == Strip(name) && j.compression == Strip(compression)
      && j.scheduleType == Lower(Strip(scheduleType)) && j.scheduleTime == Strip(time)
  {}

  /** A job of which nothing is given. */
  lemma BareJob(raw: RawJob)
    requires raw.name == raw.compression == raw.scheduleType == raw.scheduleInterval == raw.scheduleTime == Missing
    requires raw.catchupMissed == raw.pruneEnabled == raw.validateEnabled == raw.validateInterval == Missing
    requires raw.optimizeEnabled == raw.optimizeInterval == Missing
    ensures
      var j := NormalizeJob(raw);
      && j.name == "" && j.compression == "lz4" && j.scheduleType == "manual" && j.scheduleTime == "03:15"
      && j.scheduleInterval == 3 && j.validateInterval == 3 && j.optimizeInterval == 3
      && j.catchupMissed && !j.pruneEnabled && j.validateEnabled && !j.optimizeEnabled
  {
    ConfigLaws.DefaultsAreTrimmed();
  }

  predicate HasPath(item: Option<RawSource>) {
    item.Some? && Strip(item.value.path.Or("")) != ""
  }

  /** What one item of the list of sources gives. */
  predicate IsGiven(item: Option<RawSource>, given: seq<Source>) {
    if HasPath(item) then
      var raw := item.value;
      && |given| == 1
      && given[0].path == Strip(raw.path.Or(""))
      && IsText(raw.caption, given[0].path, given[0].caption)
      && given[0].excludes == StripAll(ShownAll(raw.excludes))
    else given == []
  }

  lemma GivenIs(item: Option<RawSource>)
    ensures IsGiven(item, Given(item))
  {
    if HasPath(item) {
      TextIs(item.value.caption, Strip(item.value.path.Or("")));
    }
  }

  /**
    A job's sources are the items with a path, in their order; only if there are none, its two flat lists,
    or the root, with all exclusions on the first one.
   */
  lemma SourcesAre(raw: RawJob)
    ensures (exists i :: 0 <= i < |raw.sources| && HasPath(raw.sources[i])) ==>
              NormalizeSources(raw) == Gather(Given, raw.sources)
    ensures (forall i :: 0 <= i < |raw.sources| ==> !HasPath(raw.sources[i])) ==>
              var paths := StripAll(ShownAll(raw.includeFolders));
              var includes := if paths == [] then ["/"] else paths;
              && |NormalizeSources(raw)| == |includes|
              && forall i :: 0 <= i < |includes| ==>
                   NormalizeSources(raw)[i] ==
                   Source(includes[i], includes[i], if i == 0 then StripAll(ShownAll(raw.excludeFolders)) else [])
  {
    SomeAreGiven(raw.sources);
  }

  lemma GivenOrNot(item: Option<RawSource>)
    ensures Given(item) == [] <==> !HasPath(item)
  {}

  lemma {:induction false} SomeAreGiven(items: seq<Option<RawSource>>)
    ensures Gather(Given, items) == [] <==> forall i :: 0 <= i < |items| ==> !HasPath(items[i])
    decreases |items|
  {
    if items != [] {
      var init, last := items[..|items| - 1], items[|items| - 1];
      SomeAreGiven(init);
      GivenOrNot(last);
      assert Gather(Given, items) == Gather(Given, init) + Given(last);
      LastPath(items, init);
    }
  }

  lemma LastPath(items: seq<Option<RawSource>>, init: seq<Option<RawSource>>)
    requires items != [] && init == items[..|items| - 1]
    ensures (forall i :: 0 <= i < |items| ==> !HasPath(items[i])) <==>
            (forall i :: 0 <= i < |init| ==> !HasPath(init[i])) && !HasPath(items[|items| - 1])
  {
    assert forall i :: 0 <= i < |init| ==> init[i] == items[i];
  }

  /** The flat lists repeat nothing: each path and each exclusion of the sources once, at its first place. */
  lemma FlatListsAre(raw: RawJob)
    ensures NormalizeJob(raw).sources == NormalizeSources(raw)
    ensures NormalizeJob(raw).includeFolders == Dedup(Paths(NormalizeSources(raw)))
    ensures NormalizeJob(raw).excludeFolders == Dedup(Rules(NormalizeSources(raw)))
    ensures NormalizeJob(raw).destinationIds == KeepNonBlank(ShownAll(raw.destinationIds))
  {}

  // ---------------------------------------------------- accounts, destinations

  /** Secrets are kept as they are given, every other text is stripped, and a blank type means ssh. */
  lemma AccountTexts(raw: RawRecord, key: Key, text: string)
    requires key.OfAccount() && IsText(Get(raw, key), "", text)
    ensures
      var field := NormalizeAccount(raw).fields[key];
      if key == Passphrase || key == S3SecretKey || key == SmbPassword then field == text
      else if key == Type && Strip(text) == "" then field == "ssh"
      else field == Strip(text)
  {
    ConfigLaws.NormalizedFields(raw);
  }

  lemma AccountPort(raw: RawRecord)
    ensures IsNumber(Get(raw, SshPort), 23, 1, 65535, NormalizeAccount(raw).sshPort)
  {
    NumberIs(Get(raw, SshPort), 23, 1, 65535);
  }

  lemma DestinationTexts(raw: RawRecord, id: string, name: string, account: string, storage: string, path: string)
    requires IsText(Get(raw, Id), "", id) && IsText(Get(raw, Name), "", name)
    requires IsText(Get(raw, AccountId), "", account)
    requires IsText(Get(raw, Storage), "", storage) && IsText(Get(raw, LocalPath), "", path)
    ensures NormalizeDestination(raw) ==
            Destination(Strip(id), Strip(name), Strip(account), Strip(storage), Strip(path))
  {}

  /** The canary is on by default, the other two switches are off; items that are not objects are left out. */
  lemma ConfigParts(raw: RawConfig)
    ensures
      var c := Normalize(raw);
      && IsFlag(raw.canaryEnabled, true, c.canaryEnabled)
      && IsFlag(raw.repoAccessConfirmed, false, c.repoAccessConfirmed)
      && IsFlag(raw.maintainAllDestinations, false, c.maintainAllDestinations)
      && c.accounts == Each(NormalizeAccount, raw.accounts)
      && c.destinations == Each(NormalizeDestination, raw.destinations)
      && c.jobs == Each(NormalizeJob, raw.jobs)
  {}

  /** A client sees eight bullets in place of each secret that is set. */
  lemma MaskIsBullets(a: Account, key: Key)
    requires key in a.fields
    ensures |SECRET_MASK| == 8 && forall i :: 0 <= i < 8 ==> SECRET_MASK[i] as int == 0x2022
    ensures Masked(a).fields[key] ==
            if (key == Passphrase || key == S3SecretKey || key == SmbPassword) && a.fields[key] != ""
            then SECRET_MASK else a.fields[key]
    ensures Masked(a).fields.Keys == a.fields.Keys && Masked(a).sshPort == a.sshPort
  {}

  /** The stored secret is that of the last account with this id; without one it is empty. */
  lemma {:induction false} StoredSecretIs(stored: seq<Account>, id: string, field: Key, i: nat)
    requires i < |stored| && forall j :: i < j < |stored| ==> Field(stored[j], Id) != id
    ensures Field(stored[i], Id) == id ==> StoredSecret(stored, id, field) == Field(stored[i], field)
    ensures i == 0 && Field(stored[0], Id) != id ==> StoredSecret(stored, id, field) == ""
    decreases |stored|
  {
    if i < |stored| - 1 {
      StoredSecretIs(stored[..|stored| - 1], id, field, i);
    }
  }

  /** Restoring replaces the masked secrets of an account and nothing else. */
  lemma RestoringReplacesMasks(raw: RawRecord, stored: seq<Account>, key: Key)
    requires key in raw
    ensures RestoredAccount(raw, stored).Keys == raw.Keys
    ensures
      var restored := RestoredAccount(raw, stored)[key];
      if (key == Passphrase || key == S3SecretKey || key == SmbPassword) && raw[key] == String(SECRET_MASK)
      then restored == String(StoredSecret(stored, Get(raw, Id).Shown(), key))
      else restored == raw[key]
  {}

  // ------------------------------------------------------- what is accepted

  predicate Printable(s: string) {
    '\n' !in s && '\r' !in s && '\0' !in s
  }

  /** A field that is there and not blank. */
  predicate Filled(a: Account, key: Key) {
    key in a.fields && Strip(a.fields[key]) != ""
  }

  /** What the account has under this key, or the empty text. */
  function Field(a: Account, key: Key): string {
    if key in a.fields then a.fields[key] else ""
  }

  /** An id of its own, a known type, and an absolute key file if any. */
  predicate HasIdentity(accounts: seq<Account>, i: nat)
    requires i < |accounts|
  {
    var a := accounts[i];
    var kind := Field(a, Type);
    && Field(a, Id) != "" && (forall j :: 0 <= j < i ==> Field(accounts[j], Id) != Field(a, Id))
    && (kind == "ssh" || kind == "s3" || kind == "local" || kind == "usb" || kind == "smb" || kind == "nfs")
    && (Field(a, SshKey) != "" ==> Field(a, SshKey)[0] == '/')
  }

  /** What the account's type needs. */
  predicate HasAccess(a: Account) {
    && (Field(a, Type) == "usb" ==> Filled(a, VolumeUuid) || Filled(a, VolumeLabel))
    && (Field(a, Type) == "smb" ==> Filled(a, SmbServer) && Filled(a, SmbShare) && Filled(a, SmbUsername))
    && (Field(a, Type) == "nfs" ==> Filled(a, NfsServer) && Filled(a, NfsExport))
  }

  ghost predicate IsPrintable(a: Account) {
    forall key: Key :: key.OfAccount() && !key.Secret() ==> Printable(Field(a, key))
  }

  lemma IdentityRules(accounts: seq<Account>, i: nat)
    requires i < |accounts|
    ensures HasIdentity(accounts, i) <==>
            && !AccountBreaks(accounts, i, AccountHasId) && !AccountBreaks(accounts, i, AccountIdIsNew)
            && !AccountBreaks(accounts, i, TypeIsKnown) && !AccountBreaks(accounts, i, KeyIsAbsolute)
  {}

  lemma AccessRules(accounts: seq<Account>, i: nat)
    requires i < |accounts|
    ensures HasAccess(accounts[i]) <==>
            && !AccountBreaks(accounts, i, UsbHasVolume) && !AccountBreaks(accounts, i, NfsHasExport)
            && !AccountBreaks(accounts, i, SmbHasShare) && !AccountBreaks(accounts, i, SmbHasUser)
  {}

  lemma PrintableRules(accounts: seq<Account>, i: nat)
    requires i < |accounts|
    ensures IsPrintable(accounts[i]) <==> forall key: Key :: !AccountBreaks(accounts, i, FieldIsPrintable(key))
  {
    if forall key: Key :: !AccountBreaks(accounts, i, FieldIsPrintable(key)) {
      forall key: Key | key.OfAccount() && !key.Secret()
        ensures Printable(Field(accounts[i], key))
      {
        assert !AccountBreaks(accounts, i, FieldIsPrintable(key));
      }
    }
  }

  /** An account breaks no rule exactly when it has an identity, the access its type needs, and printable fields. */
  lemma AccountRules(accounts: seq<Account>, i: nat)
    requires i < |accounts|
    ensures (forall rule: AccountRule :: !AccountBreaks(accounts, i, rule)) <==>
            HasIdentity(accounts, i) && HasAccess(accounts[i]) && IsPrintable(accounts[i])
  {
    IdentityRules(accounts, i);
    AccessRules(accounts, i);
    PrintableRules(accounts, i);
    if HasIdentity(accounts, i) && HasAccess(accounts[i]) && IsPrintable(accounts[i]) {
      forall rule: AccountRule
        ensures !AccountBreaks(accounts, i, rule)
      {
        if rule.FieldIsPrintable? {
          assert !AccountBreaks(accounts, i, FieldIsPrintable(rule.key));
        }
      }
    }
  }

  /** The type of the last account with this id; none has no type. */
  lemma {:induction false} LastTypeIs(accounts: seq<Account>, id: string, i: nat)
    requires i < |accounts| && forall j :: i < j < |accounts| ==> Field(accounts[j], Id) != id
    ensures Field(accounts[i], Id) == id ==> LastType(accounts, id) == Field(accounts[i], Type)
    decreases |accounts|
  {
    if i < |accounts| - 1 {
      LastTypeIs(accounts[..|accounts| - 1], id, i);
    }
  }

  /** A destination with an id of its own, an account, and a repository that its account's type allows. */
  predicate DestinationIsValid(c: Config, i: nat)
    requires i < |c.destinations|
  {
    var d := c.destinations[i];
    var repo := if d.storage != "" then d.storage else d.localPath;
    var kind := LastType(c.accounts, d.accountId);
    && d.id != "" && (forall j :: 0 <= j < i ==> c.destinations[j].id != d.id)
    && (exists j :: 0 <= j < |c.accounts| && Field(c.accounts[j], Id) == d.accountId)
    && (repo != "" ==> repo[0] != '-') && Printable(repo)
    && (kind == "local" && repo != "" ==> repo[0] == '/')
    && (kind == "usb" || kind == "smb" || kind == "nfs" ==>
          (repo != "" ==> repo[0] != '/') && !TwoDots(repo))
  }

  predicate TwoDots(s: string) {
    exists k :: 0 < k < |s| && s[k - 1] == '.' && s[k] == '.'
  }

  lemma DotsAre(s: string)
    ensures HasDots(s) <==> TwoDots(s)
  {
    if i :| 0 <= i < |s| - 1 && s[i] == '.' && s[i + 1] == '.' {
      var k := i + 1;
      assert s[k - 1] == '.' && s[k] == '.';
    }
    if k :| 0 < k < |s| && s[k - 1] == '.' && s[k] == '.' {
      var i := k - 1;
      assert s[i] == '.' && s[i + 1] == '.';
    }
  }

  lemma FirstChar(s: string)
    ensures StartsWith(s, "/") <==> s != "" && s[0] == '/'
    ensures StartsWith(s, "-") <==> s != "" && s[0] == '-'
  {
    if s != "" {
      assert s[..1] == [s[0]];
    }
  }

  lemma DestinationRules(c: Config, i: nat)
    requires i < |c.destinations|
    ensures DestinationIsValid(c, i) <==>
            && !DestinationBreaks(c, i, DestinationHasId) && !DestinationBreaks(c, i, DestinationIdIsNew)
            && !DestinationBreaks(c, i, AccountExists) && !DestinationBreaks(c, i, RepositoryIsPlain)
            && !DestinationBreaks(c, i, LocalIsAbsolute) && !DestinationBreaks(c, i, MountedIsRelative)
  {
    DotsAre(CheckedRepo(c.destinations[i]));
    FirstChar(CheckedRepo(c.destinations[i]));
  }

  /** A compression algorithm with a level of at most `most` digits, or without one. */
  ghost predicate HasOptionalLevel(s: string, name: string, most: nat) {
    s == name || exists level :: AllDigits(level) && |level| <= most && s == name + "," + level
  }

  ghost predicate NamesAlgorithm(s: string) {
    || s == "lz4" || HasOptionalLevel(s, "zstd", 2) || HasOptionalLevel(s, "zlib", 1) || HasOptionalLevel(s, "lzma", 1)
  }

  ghost predicate NamesCompression(s: string) {
    s == "none" || NamesAlgorithm(s) || exists rest :: NamesAlgorithm(rest) && s == "auto," + rest
  }

  lemma LevelIs(s: string, name: string, most: nat)
    ensures HasLevel(s, name, most) <==> HasOptionalLevel(s, name, most)
  {
    if HasLevel(s, name, most) && s != name {
      var level := s[|name| + 1..];
      assert s == name + "," + level;
    }
    if s != name && HasOptionalLevel(s, name, most) {
      var level :| AllDigits(level) && |level| <= most && s == name + "," + level;
      assert s[|name| + 1..] == level && s[..|name|] == name;
    }
  }

  lemma AlgorithmIs(s: string)
    ensures IsAlgorithm(s) <==> NamesAlgorithm(s)
  {
    LevelIs(s, "zstd", 2);
    LevelIs(s, "zlib", 1);
    LevelIs(s, "lzma", 1);
  }

  lemma CompressionIs(s: string)
    ensures IsCompression(s) <==> NamesCompression(s)
  {
    AlgorithmIs(s);
    if StartsWith(s, "auto,") {
      AlgorithmIs(s[5..]);
      assert s == "auto," + s[5..];
    }
    if rest :| NamesAlgorithm(rest) && s == "auto," + rest {
      assert s[5..] == rest && s[..5] == "auto,";
    }
  }

  /** A name of its own. */
  predicate HasName(c: Config, i: nat)
    requires i < |c.jobs|
  {
    c.jobs[i].name != "" && Printable(c.jobs[i].name) && forall k :: 0 <= k < i ==> c.jobs[k].name != c.jobs[i].name
  }

  predicate ScheduleIsValid(j: Job) {
    && (j.scheduleType == "manual" || j.scheduleType == "interval" || j.scheduleType == "daily")
    && (j.scheduleType == "daily" ==> TimeIsValid(j.scheduleTime))
  }

  predicate TimeIsValid(s: string) {
    Schedule.IsClockText(s) || (s != "" && s[|s| - 1] == '\n' && Schedule.IsClockText(s[..|s| - 1]))
  }

  lemma TimeRule(s: string)
    ensures Schedule.MatchesTime(s) <==> TimeIsValid(s)
  {}

  ghost predicate CompressionIsValid(s: string) {
    NamesCompression(s) || (s != "" && s[|s| - 1] == '\n' && NamesCompression(s[..|s| - 1]))
  }

  predicate DestinationGiven(c: Config, id: string) {
    exists d :: 0 <= d < |c.destinations| && c.destinations[d].id == id
  }

  /** Destinations that exist, absolute sources, and nothing unprintable. */
  predicate ListsAreValid(c: Config, j: Job) {
    && (forall k :: 0 <= k < |j.destinationIds| ==> DestinationGiven(c, j.destinationIds[k]))
    && (forall k :: 0 <= k < |j.includeFolders| ==>
          j.includeFolders[k] != "" && j.includeFolders[k][0] == '/' && Printable(j.includeFolders[k]))
    && (forall k :: 0 <= k < |j.excludeFolders| ==> Printable(j.excludeFolders[k]))
  }

  lemma CompressionRule(s: string)
    ensures MatchesCompression(s) <==> CompressionIsValid(s)
  {
    CompressionIs(s);
    if s != "" {
      CompressionIs(s[..|s| - 1]);
    }
  }

  lemma NameRules(c: Config, i: nat)
    requires i < |c.jobs|
    ensures HasName(c, i) <==>
            !JobBreaks(c, i, JobHasName) && !JobBreaks(c, i, JobNameIsNew) && !JobBreaks(c, i, NameIsPrintable)
  {}

  lemma PlanRules(c: Config, i: nat)
    requires i < |c.jobs|
    ensures ScheduleIsValid(c.jobs[i]) <==> !JobBreaks(c, i, ScheduleIsKnown) && !JobBreaks(c, i, TimeIsClock)
  {
    TimeIsRule(c, i);
  }

  lemma TimeIsRule(c: Config, i: nat)
    requires i < |c.jobs|
    ensures !JobBreaks(c, i, TimeIsClock) <==>
            (c.jobs[i].scheduleType == "daily" ==> TimeIsValid(c.jobs[i].scheduleTime))
  {
    TimeRule(c.jobs[i].scheduleTime);
  }

  lemma CompressionIsRule(c: Config, i: nat)
    requires i < |c.jobs|
    ensures CompressionIsValid(c.jobs[i].compression) <==> !JobBreaks(c, i, CompressionIsKnown)
  {
    CompressionRule(c.jobs[i].compression);
  }

  lemma TargetRule(c: Config, i: nat, k: nat)
    requires i < |c.jobs|
    ensures !JobBreaks(c, i, TargetExists(k)) <==>
            (k < |c.jobs[i].destinationIds| ==> DestinationGiven(c, c.jobs[i].destinationIds[k]))
  {}

  lemma SourceRule(c: Config, i: nat, k: nat)
    requires i < |c.jobs|
    ensures !JobBreaks(c, i, SourceIsAbsolute(k)) <==>
            var paths := c.jobs[i].includeFolders;
            (k < |paths| ==> paths[k] != "" && paths[k][0] == '/' && Printable(paths[k]))
  {
    if k < |c.jobs[i].includeFolders| {
      FirstChar(c.jobs[i].includeFolders[k]);
    }
  }

  lemma ExcludeRule(c: Config, i: nat, k: nat)
    requires i < |c.jobs|
    ensures !JobBreaks(c, i, ExcludeIsPrintable(k)) <==>
            (k < |c.jobs[i].excludeFolders| ==> Printable(c.jobs[i].excludeFolders[k]))
  {}

  lemma ListRules(c: Config, i: nat, rule: JobRule)
    requires i < |c.jobs| && ListsAreValid(c, c.jobs[i])
    requires rule.TargetExists? || rule.SourceIsAbsolute? || rule.ExcludeIsPrintable?
    ensures !JobBreaks(c, i, rule)
  {
    TargetRule(c, i, rule.k);
    SourceRule(c, i, rule.k);
    ExcludeRule(c, i, rule.k);
  }

  lemma ListsObeyRules(c: Config, i: nat)
    requires i < |c.jobs| && forall f: Fault :: !Broken(c, f)
    ensures ListsAreValid(c, c.jobs[i])
  {
    forall k: nat
      ensures !JobBreaks(c, i, TargetExists(k)) && !JobBreaks(c, i, SourceIsAbsolute(k))
      ensures !JobBreaks(c, i, ExcludeIsPrintable(k))
    {
      assert !Broken(c, InJob(i, TargetExists(k))) && !Broken(c, InJob(i, SourceIsAbsolute(k)));
      assert !Broken(c, InJob(i, ExcludeIsPrintable(k)));
    }
    forall k: nat
      ensures k < |c.jobs[i].destinationIds| ==> DestinationGiven(c, c.jobs[i].destinationIds[k])
      ensures k < |c.jobs[i].excludeFolders| ==> Printable(c.jobs[i].excludeFolders[k])
      ensures var paths := c.jobs[i].includeFolders;
              k < |paths| ==> paths[k] != "" && paths[k][0] == '/' && Printable(paths[k])
    {
      TargetRule(c, i, k);
      SourceRule(c, i, k);
      ExcludeRule(c, i, k);
    }
  }

  ghost predicate AccountIsValid(accounts: seq<Account>, i: nat)
    requires i < |accounts|
  {
    HasIdentity(accounts, i) && HasAccess(accounts[i]) && IsPrintable(accounts[i])
  }

  ghost predicate JobIsValid(c: Config, i: nat)
    requires i < |c.jobs|
  {
    && HasName(c, i) && CompressionIsValid(c.jobs[i].compression) && ScheduleIsValid(c.jobs[i])
    && ListsAreValid(c, c.jobs[i])
  }

  lemma AcceptedAccountIsValid(c: Config, i: nat)
    requires Accepted(c) && i < |c.accounts|
    ensures AccountIsValid(c.accounts, i)
  {
    forall rule: AccountRule
      ensures !AccountBreaks(c.accounts, i, rule)
    {
      assert !Broken(c, InAccount(i, rule));
    }
    AccountRules(c.accounts, i);
  }

  lemma AcceptedDestinationIsValid(c: Config, i: nat)
    requires Accepted(c) && i < |c.destinations|
    ensures DestinationIsValid(c, i)
  {
    forall rule: DestinationRule
      ensures !DestinationBreaks(c, i, rule)
    {
      assert !Broken(c, InDestination(i, rule));
    }
    DestinationRules(c, i);
  }

  lemma AcceptedJobIsValid(c: Config, i: nat)
    requires Accepted(c) && i < |c.jobs|
    ensures JobIsValid(c, i)
  {
    ListsObeyRules(c, i);
    forall rule: JobRule
      ensures !JobBreaks(c, i, rule)
    {
      assert !Broken(c, InJob(i, rule));
    }
    NameRules(c, i);
    PlanRules(c, i);
    CompressionIsRule(c, i);
  }

  lemma ValidBreaksNothing(c: Config, f: Fault)
    requires forall i :: 0 <= i < |c.accounts| ==> AccountIsValid(c.accounts, i)
    requires forall i :: 0 <= i < |c.destinations| ==> DestinationIsValid(c, i)
    requires forall i :: 0 <= i < |c.jobs| ==> JobIsValid(c, i)
    ensures !Broken(c, f)
  {
    match f
    case InAccount(i, rule) =>
      if i < |c.accounts| {
        assert AccountIsValid(c.accounts, i);
        AccountRules(c.accounts, i);
      }
    case InDestination(i, rule) =>
      if i < |c.destinations| {
        assert DestinationIsValid(c, i);
        DestinationRules(c, i);
      }
    case InJob(i, rule) =>
      if i < |c.jobs| {
        assert JobIsValid(c, i);
        NameRules(c, i);
        PlanRules(c, i);
        CompressionIsRule(c, i);
        if rule.TargetExists? || rule.SourceIsAbsolute? || rule.ExcludeIsPrintable? {
          ListRules(c, i, rule);
        }
      }
  }

  /** A configuration is accepted exactly when each of its accounts, destinations and jobs is valid. */
  lemma AcceptedIsValid(c: Config)
    ensures Accepted(c) <==>
            && (forall i :: 0 <= i < |c.accounts| ==> AccountIsValid(c.accounts, i))
            && (forall i :: 0 <= i < |c.destinations| ==> DestinationIsValid(c, i))
            && (forall i :: 0 <= i < |c.jobs| ==> JobIsValid(c, i))
  {
    if Accepted(c) {
      forall i | 0 <= i < |c.accounts|
        ensures AccountIsValid(c.accounts, i)
      {
        AcceptedAccountIsValid(c, i);
      }
      forall i | 0 <= i < |c.destinations|
        ensures DestinationIsValid(c, i)
      {
        AcceptedDestinationIsValid(c, i);
      }
      forall i | 0 <= i < |c.jobs|
        ensures JobIsValid(c, i)
      {
        AcceptedJobIsValid(c, i);
      }
    } else if !(exists i :: 0 <= i < |c.accounts| && !AccountIsValid(c.accounts, i))
           && !(exists i :: 0 <= i < |c.destinations| && !DestinationIsValid(c, i))
           && !(exists i :: 0 <= i < |c.jobs| && !JobIsValid(c, i)) {
      forall f: Fault
        ensures !Broken(c, f)
      {
        ValidBreaksNothing(c, f);
      }
    }
  }
}
