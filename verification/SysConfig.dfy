/** Normalisation and secret masking of borg_sysconfig.py. */
module SysConfig {
  import opened Wrappers
  import opened Text

  const SECRET_MASK := "\U{2022}\U{2022}\U{2022}\U{2022}\U{2022}\U{2022}\U{2022}\U{2022}"

  /** Keys of account and destination records; the source drops the unknown ones. */
  datatype Key =
    | Id | Name | Type | SshKey | SshPort | Passphrase
    | S3AccessKey | S3SecretKey | S3EndpointUrl | S3Region
    | VolumeUuid | VolumeLabel
    | SmbServer | SmbShare | SmbUsername | SmbDomain | SmbPassword
    | NfsServer | NfsExport | MountOptions
    | AccountId | Storage | LocalPath
    | Unknown(key: string)
  {
    predicate Secret() {
      Passphrase? || S3SecretKey? || SmbPassword?
    }

    /** The text fields of an account; the port is handled apart. */
    predicate OfAccount() {
      !SshPort? && !AccountId? && !Storage? && !LocalPath? && !Unknown?
    }
  }

  const ACCOUNT_FIELDS: set<Key> := {
    Id, Name, Type, SshKey, Passphrase, S3AccessKey, S3SecretKey, S3EndpointUrl, S3Region, VolumeUuid, VolumeLabel,
    SmbServer, SmbShare, SmbUsername, SmbDomain, SmbPassword, NfsServer, NfsExport, MountOptions}

  lemma AccountFields()
    ensures forall key: Key :: key in ACCOUNT_FIELDS <==> key.OfAccount()
  {}

  // ------------------------------------------------------------- loose values

  /**
    A JSON value as `dict.get` returns it. `Other` is a number with a fraction, a list or an object,
    with its text (never empty), its truth value and what `int()` makes of it.
   */
  datatype Value =
    | Missing
    | Null
    | Bool(flag: bool)
    | Number(number: int)
    | String(text: string)
    | Other(first: char, rest: string, truth: bool, asNumber: Option<int>)
  {
    predicate Truthy() {
      match this
      case Missing => false
      case Null => false
      case Bool(b) => b
      case Number(n) => n != 0
      case String(s) => s != ""
      case Other(_, _, truth, _) => truth
    }

    /** `str(value)` */
    function Shown(): string {
      match this
      case Missing => "None"
      case Null => "None"
      case Bool(b) => if b then "True" else "False"
      case Number(n) => Decimal(n)
      case String(s) => s
      case Other(first, rest, _, _) => [first] + rest
    }

    /** `str(value or default)` */
    function Or(default: string): string {
      if Truthy() then Shown() else default
    }

    /** `bool(data.get(key, default))` */
    predicate Flag(default: bool) {
      if Missing? then default else Truthy()
    }

    /** `_as_int` */
    function AsInt(default: int, low: int, high: int): (n: int)
      ensures low <= default <= high ==> low <= n <= high
    {
      var parsed :=
        match this
        case Missing => None
        case Null => None
        case Bool(b) => Some(if b then 1 else 0)
        case Number(n) => Some(n)
        case String(s) => ParseInt(s)
        case Other(_, _, _, number) => number;
      match parsed
      case None => default
      case Some(n) =>
        var atLeast := if low >= n then low else n;
        if high <= atLeast then high else atLeast
    }
  }

  function Digits(n: nat): string {
    if n < 10 then ['0' + n as char] else Digits(n / 10) + ['0' + (n % 10) as char]
  }

  function Decimal(n: int): string {
    if n < 0 then "-" + Digits(-n) else Digits(n)
  }

  function ShownAll(values: seq<Value>): seq<string> {
    if values == [] then [] else ShownAll(values[..|values| - 1]) + [values[|values| - 1].Shown()]
  }

  /** `[str(v).strip() for v in values if str(v).strip()]` */
  function StripAll(texts: seq<string>): seq<string> {
    if texts == [] then []
    else
      var last := Strip(texts[|texts| - 1]);
      StripAll(texts[..|texts| - 1]) + if last != "" then [last] else []
  }

  /** `[str(v) for v in values if str(v).strip()]` */
  function KeepNonBlank(texts: seq<string>): seq<string> {
    if texts == [] then []
    else
      KeepNonBlank(texts[..|texts| - 1]) + if Strip(texts[|texts| - 1]) != "" then [texts[|texts| - 1]] else []
  }

  // ------------------------------------------------------------ the two forms

  /** One configured source, as received (`None` where the list item is not an object) and normalised. */
  datatype RawSource = RawSource(path: Value, caption: Value, excludes: seq<Value>)
  datatype Source = Source(path: string, caption: string, excludes: seq<string>)

  datatype RawJob = RawJob(
    name: Value, sources: seq<Option<RawSource>>, includeFolders: seq<Value>, excludeFolders: seq<Value>,
    compression: Value, scheduleType: Value, scheduleInterval: Value, scheduleTime: Value,
    catchupMissed: Value, pruneEnabled: Value, validateEnabled: Value, validateInterval: Value,
    optimizeEnabled: Value, optimizeInterval: Value, destinationIds: seq<Value>)

  datatype Job = Job(
    name: string, sources: seq<Source>, includeFolders: seq<string>, excludeFolders: seq<string>,
    compression: string, scheduleType: string, scheduleInterval: int, scheduleTime: string,
    catchupMissed: bool, pruneEnabled: bool, validateEnabled: bool, validateInterval: int,
    optimizeEnabled: bool, optimizeInterval: int, destinationIds: seq<string>)

  type RawRecord = map<Key, Value>

  datatype Account = Account(fields: map<Key, string>, sshPort: int)

  datatype Destination = Destination(id: string, name: string, accountId: string, storage: string, localPath: string)

  datatype RawConfig = RawConfig(
    accounts: seq<Option<RawRecord>>, destinations: seq<Option<RawRecord>>, jobs: seq<Option<RawJob>>,
    canaryEnabled: Value, repoAccessConfirmed: Value, maintainAllDestinations: Value)

  datatype Config = Config(
    accounts: seq<Account>, destinations: seq<Destination>, jobs: seq<Job>,
    canaryEnabled: bool, repoAccessConfirmed: bool, maintainAllDestinations: bool)

  function Get(record: RawRecord, key: Key): Value {
    if key in record then record[key] else Missing
  }

  function GetText(fields: map<Key, string>, key: Key): string {
    if key in fields then fields[key] else ""
  }

  // ------------------------------------------------------------ normalisation

  function AccountField(raw: RawRecord, key: Key): string {
    var text := Get(raw, key).Or("");
    if key.Secret() then text
    else
      var stripped := Strip(text);
      if key == Type && stripped == "" then "ssh" else stripped
  }

  function NormalizeAccount(raw: RawRecord): Account {
    Account(map key | key in ACCOUNT_FIELDS :: AccountField(raw, key), Get(raw, SshPort).AsInt(23, 1, 65535))
  }

  function NormalizeDestination(raw: RawRecord): Destination {
    Destination(
      Strip(Get(raw, Id).Or("")), Strip(Get(raw, Name).Or("")), Strip(Get(raw, AccountId).Or("")),
      Strip(Get(raw, Storage).Or("")), Strip(Get(raw, LocalPath).Or("")))
  }

  function NormalizeSource(raw: RawSource): Source {
    var path := Strip(raw.path.Or(""));
    Source(path, raw.caption.Or(path), StripAll(ShownAll(raw.excludes)))
  }

  /** The source that a list item stands for, if it is an object with a path. */
  function Given(item: Option<RawSource>): seq<Source> {
    if item.Some? && NormalizeSource(item.value).path != "" then [NormalizeSource(item.value)] else []
  }

  function Gather<A, B>(f: A -> seq<B>, items: seq<A>): seq<B> {
    if items == [] then [] else Gather(f, items[..|items| - 1]) + f(items[|items| - 1])
  }

  function GivenSources(raw: seq<Option<RawSource>>): seq<Source> {
    Gather(Given, raw)
  }

  function FlatSources(includes: seq<string>, excludes: seq<string>): (sources: seq<Source>)
    ensures |sources| == |includes|
    ensures forall i :: 0 <= i < |includes| ==>
              sources[i] == Source(includes[i], includes[i], if i == 0 then excludes else [])
  {
    seq(|includes|, i requires 0 <= i < |includes| =>
      Source(includes[i], includes[i], if i == 0 then excludes else []))
  }

  function NormalizeSources(raw: RawJob): seq<Source> {
    var given := GivenSources(raw.sources);
    if given != [] then given
    else
      var includes := StripAll(ShownAll(raw.includeFolders));
      FlatSources(if includes == [] then ["/"] else includes, StripAll(ShownAll(raw.excludeFolders)))
  }

  function Paths(sources: seq<Source>): seq<string> {
    if sources == [] then [] else Paths(sources[..|sources| - 1]) + [sources[|sources| - 1].path]
  }

  function Rules(sources: seq<Source>): seq<string> {
    if sources == [] then [] else Rules(sources[..|sources| - 1]) + sources[|sources| - 1].excludes
  }

  function NormalizeJob(raw: RawJob): Job {
    var sources := NormalizeSources(raw);
    Job(Strip(raw.name.Or("")), sources, Dedup(Paths(sources)), Dedup(Rules(sources)),
        Strip(raw.compression.Or("lz4")), Lower(Strip(raw.scheduleType.Or("manual"))),
        raw.scheduleInterval.AsInt(3, 1, 168), Strip(raw.scheduleTime.Or("03:15")),
        raw.catchupMissed.Flag(true), raw.pruneEnabled.Flag(false), raw.validateEnabled.Flag(true),
        raw.validateInterval.AsInt(3, 1, 52), raw.optimizeEnabled.Flag(false),
        raw.optimizeInterval.AsInt(3, 1, 52), KeepNonBlank(ShownAll(raw.destinationIds)))
  }

  /** `[f(item) for item in items if isinstance(item, dict)]` */
  function Each<A, B>(f: A -> B, items: seq<Option<A>>): seq<B> {
    if items == [] then []
    else
      var last := items[|items| - 1];
      Each(f, items[..|items| - 1]) + if last.Some? then [f(last.value)] else []
  }

  /** `extract_system_config` */
  function Normalize(raw: RawConfig): Config {
    Config(Each(NormalizeAccount, raw.accounts), Each(NormalizeDestination, raw.destinations), Each(NormalizeJob, raw.jobs),
           raw.canaryEnabled.Flag(true), raw.repoAccessConfirmed.Flag(false), raw.maintainAllDestinations.Flag(false))
  }

  // ---------------------------------------------------- the source's own loops

  /** The body of the loop over the sources. */
  method GiveSource(item: Option<RawSource>) returns (given: seq<Source>)
    ensures given == Given(item)
  {
    if item.None? {
      return [];
    }
    var path := Strip(item.value.path.Or(""));
    if path == "" {
      return [];
    }
    return [Source(path, item.value.caption.Or(path), StripAll(ShownAll(item.value.excludes)))];
  }

  method NormalizeJobSources(raw: RawJob) returns (sources: seq<Source>)
    ensures sources == NormalizeSources(raw)
  {
    sources := [];
    for i := 0 to |raw.sources|
      invariant sources == GivenSources(raw.sources[..i])
    {
      assert raw.sources[..i + 1][..i] == raw.sources[..i];
      var given := GiveSource(raw.sources[i]);
      sources := sources + given;
    }
    assert raw.sources[..|raw.sources|] == raw.sources;
    if sources != [] {
      return;
    }
    var includes := StripAll(ShownAll(raw.includeFolders));
    if includes == [] {
      includes := ["/"];
    }
    var excludes := StripAll(ShownAll(raw.excludeFolders));
    for i := 0 to |includes|
      invariant |sources| == i
      invariant forall k :: 0 <= k < i ==>
                  sources[k] == Source(includes[k], includes[k], if k == 0 then excludes else [])
    {
      sources := sources + [Source(includes[i], includes[i], if i == 0 then excludes else [])];
    }
  }

  /** The include and exclude lists that `_normalize_job` derives from the sources. */
  method FlattenSources(sources: seq<Source>) returns (includes: seq<string>, excludes: seq<string>)
    ensures includes == Dedup(Paths(sources)) && excludes == Dedup(Rules(sources))
  {
    includes, excludes := [], [];
    for i := 0 to |sources|
      invariant includes == Dedup(Paths(sources[..i])) && excludes == Dedup(Rules(sources[..i]))
    {
      assert sources[..i + 1][..i] == sources[..i];
      DedupLast(Paths(sources[..i]), sources[i].path);
      if sources[i].path !in includes {
        includes := includes + [sources[i].path];
      }
      excludes := AddExcludes(Rules(sources[..i]), excludes, sources[i].excludes);
    }
    assert sources[..|sources|] == sources;
  }

  method AddExcludes(ghost before: seq<string>, excludes: seq<string>, more: seq<string>) returns (all: seq<string>)
    requires excludes == Dedup(before)
    ensures all == Dedup(before + more)
  {
    all := excludes;
    assert before + more[..0] == before;
    for j := 0 to |more|
      invariant all == Dedup(before + more[..j])
    {
      assert before + more[..j + 1] == before + more[..j] + [more[j]];
      DedupLast(before + more[..j], more[j]);
      if more[j] !in all {
        all := all + [more[j]];
      }
    }
    assert more[..|more|] == more;
  }

  // ------------------------------------------------- a normal form read again

  function Strings(texts: seq<string>): (values: seq<Value>)
    ensures |values| == |texts|
    ensures forall i :: 0 <= i < |texts| ==> values[i] == String(texts[i])
  {
    seq(|texts|, i requires 0 <= i < |texts| => String(texts[i]))
  }

  function RawOfAccount(a: Account): RawRecord {
    (map key | key in a.fields :: String(a.fields[key]))[SshPort := Number(a.sshPort)]
  }

  function RawOfDestination(d: Destination): RawRecord {
    map[Id := String(d.id), Name := String(d.name), AccountId := String(d.accountId),
        Storage := String(d.storage), LocalPath := String(d.localPath)]
  }

  function RawOfSource(s: Source): RawSource {
    RawSource(String(s.path), String(s.caption), Strings(s.excludes))
  }

  function RawSources(sources: seq<Source>): (raw: seq<Option<RawSource>>)
    ensures |raw| == |sources|
    ensures forall i :: 0 <= i < |raw| ==> raw[i] == Some(RawOfSource(sources[i]))
  {
    seq(|sources|, i requires 0 <= i < |sources| => Some(RawOfSource(sources[i])))
  }

  function RawOfJob(j: Job): RawJob {
    RawJob(
      String(j.name), RawSources(j.sources),
      Strings(j.includeFolders), Strings(j.excludeFolders), String(j.compression), String(j.scheduleType),
      Number(j.scheduleInterval), String(j.scheduleTime), Bool(j.catchupMissed), Bool(j.pruneEnabled),
      Bool(j.validateEnabled), Number(j.validateInterval), Bool(j.optimizeEnabled), Number(j.optimizeInterval),
      Strings(j.destinationIds))
  }

  function RawAccounts(accounts: seq<Account>): (raw: seq<Option<RawRecord>>)
    ensures |raw| == |accounts|
    ensures forall i :: 0 <= i < |raw| ==> raw[i] == Some(RawOfAccount(accounts[i]))
  {
    seq(|accounts|, i requires 0 <= i < |accounts| => Some(RawOfAccount(accounts[i])))
  }

  function RawDestinations(destinations: seq<Destination>): (raw: seq<Option<RawRecord>>)
    ensures |raw| == |destinations|
    ensures forall i :: 0 <= i < |raw| ==> raw[i] == Some(RawOfDestination(destinations[i]))
  {
    seq(|destinations|, i requires 0 <= i < |destinations| => Some(RawOfDestination(destinations[i])))
  }

  function RawJobs(jobs: seq<Job>): (raw: seq<Option<RawJob>>)
    ensures |raw| == |jobs|
    ensures forall i :: 0 <= i < |raw| ==> raw[i] == Some(RawOfJob(jobs[i]))
  {
    seq(|jobs|, i requires 0 <= i < |jobs| => Some(RawOfJob(jobs[i])))
  }

  /** The JSON that `save_system_config` and `get_config` make of a configuration. */
  function RawOf(c: Config): RawConfig {
    RawConfig(
      RawAccounts(c.accounts), RawDestinations(c.destinations), RawJobs(c.jobs),
      Bool(c.canaryEnabled), Bool(c.repoAccessConfirmed), Bool(c.maintainAllDestinations))
  }

  predicate AllNonBlankTrimmed(texts: seq<string>) {
    forall i :: 0 <= i < |texts| ==> texts[i] != "" && Trimmed(texts[i])
  }

  ghost predicate NormalAccount(a: Account) {
    && (forall key: Key :: key in a.fields <==> key.OfAccount())
    && (forall key :: key in a.fields && !key.Secret() ==> Trimmed(a.fields[key]))
    && a.fields[Type] != ""
    && 1 <= a.sshPort <= 65535
  }

  predicate NormalDestination(d: Destination) {
    Trimmed(d.id) && Trimmed(d.name) && Trimmed(d.accountId) && Trimmed(d.storage) && Trimmed(d.localPath)
  }

  predicate NormalSource(s: Source) {
    s.path != "" && Trimmed(s.path) && s.caption != "" && AllNonBlankTrimmed(s.excludes)
  }

  predicate NormalJob(j: Job) {
    && Trimmed(j.name) && Trimmed(j.compression) && Trimmed(j.scheduleTime)
    && Trimmed(j.scheduleType) && Lower(j.scheduleType) == j.scheduleType
    && j.sources != [] && (forall i :: 0 <= i < |j.sources| ==> NormalSource(j.sources[i]))
    && j.includeFolders == Dedup(Paths(j.sources)) && j.excludeFolders == Dedup(Rules(j.sources))
    && 1 <= j.scheduleInterval <= 168 && 1 <= j.validateInterval <= 52 && 1 <= j.optimizeInterval <= 52
    && (forall i :: 0 <= i < |j.destinationIds| ==> Strip(j.destinationIds[i]) != "")
  }

  ghost predicate Normal(c: Config) {
    && (forall i :: 0 <= i < |c.accounts| ==> NormalAccount(c.accounts[i]))
    && (forall i :: 0 <= i < |c.destinations| ==> NormalDestination(c.destinations[i]))
    && (forall i :: 0 <= i < |c.jobs| ==> NormalJob(c.jobs[i]))
  }

  /** The three fields whose default is taken before white space is stripped, filled in. */
  function FillJob(j: Job): Job {
    j.(compression := if j.compression == "" then "lz4" else j.compression,
       scheduleType := if j.scheduleType == "" then "manual" else j.scheduleType,
       scheduleTime := if j.scheduleTime == "" then "03:15" else j.scheduleTime)
  }

  function FillJobs(jobs: seq<Job>): (r: seq<Job>)
    ensures |r| == |jobs|
    ensures forall i :: 0 <= i < |r| ==> r[i] == FillJob(jobs[i])
  {
    seq(|jobs|, i requires 0 <= i < |jobs| => FillJob(jobs[i]))
  }

  function Fill(c: Config): Config {
    c.(jobs := FillJobs(c.jobs))
  }

  predicate HasBlank(j: Job) {
    j.compression == "" || j.scheduleType == "" || j.scheduleTime == ""
  }

  predicate NoBlanks(c: Config) {
    forall i :: 0 <= i < |c.jobs| ==> !HasBlank(c.jobs[i])
  }

  // ------------------------------------------------------------------- masking

  function Masked(a: Account): Account {
    a.(fields := map key | key in a.fields ::
      if key.Secret() && a.fields[key] != "" then SECRET_MASK else a.fields[key])
  }

  /** `mask_secrets` */
  function Mask(c: Config): Config {
    c.(accounts := seq(|c.accounts|, i requires 0 <= i < |c.accounts| => Masked(c.accounts[i])))
  }

  /** The last stored account with this id, as a dictionary built in a loop keeps it. */
  function StoredSecret(stored: seq<Account>, id: string, field: Key): string {
    if stored == [] then ""
    else
      var last := stored[|stored| - 1];
      if GetText(last.fields, Id) == id then GetText(last.fields, field)
      else StoredSecret(stored[..|stored| - 1], id, field)
  }

  function RestoredField(raw: RawRecord, stored: seq<Account>, key: Key): Value
    requires key in raw
  {
    if key.Secret() && raw[key] == String(SECRET_MASK) then String(StoredSecret(stored, Get(raw, Id).Shown(), key))
    else raw[key]
  }

  function RestoredAccount(raw: RawRecord, stored: seq<Account>): RawRecord {
    map key | key in raw :: RestoredField(raw, stored, key)
  }

  /** `restore_masked_secrets` */
  function Restore(incoming: RawConfig, stored: Config): RawConfig {
    incoming.(accounts := seq(|incoming.accounts|, i requires 0 <= i < |incoming.accounts| =>
      if incoming.accounts[i].None? then None else Some(RestoredAccount(incoming.accounts[i].value, stored.accounts))))
  }
}
