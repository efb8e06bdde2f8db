/** `check_for_update` of borg_updates.py: a cached answer stands in for a fresh request. */
module Updates {
  import opened Wrappers
  import opened Schedule
  import opened Versions
  import Text

  const MIN_CHECK_INTERVAL: Time := 6 * HOUR
  const RATE_LIMIT_BACKOFF: Time := HOUR

  /** The package of a release; without a download address a release has none. */
  datatype Package = Package(name: string, url: string, size: int, sha256Url: Option<string>)

  datatype Phase = NotChecked | Checking | UpdateAvailable | UpToDate | Failed

  datatype Failure = Limited | NoPackage(tag: string) | Http(code: int) | Unreachable(text: string)

  /** What one request to the release server brings. */
  datatype Response =
    | Release(tag: string, package: Option<Package>)
    | RateLimited(resetAt: Option<Time>)
    | HttpError(code: int)
    | NoAnswer(text: string)

  /** The fields of `_state` that the cache file also holds; what a call returns. */
  datatype Snapshot = Snapshot(
    phase: Phase, available: bool, latestVersion: Option<string>, package: Option<Package>,
    error: Option<Failure>, checkedAt: Option<Time>, limitedUntil: Option<Time>)

  datatype Call = Call(current: string, now: Time, later: Time, force: bool, response: Response)

  /** A request that was sent, with the rate limit that came back. */
  datatype Fetch = Fetch(at: Time, forced: bool, current: string, response: Response, until: Option<Time>) {
    /** The request found a release with a package. */
    predicate Succeeded() {
      response.Release? && response.package.Some?
    }
  }

  /** Program state, cache file (`None` before the first save), and the requests so far. */
  datatype Store = Store(state: Snapshot, cache: Option<Snapshot>, fetches: seq<Fetch>)

  const INITIAL := Snapshot(NotChecked, false, None, None, None, None, None)

  function StripVs(s: string): string {
    if s != "" && (s[0] == 'v' || s[0] == 'V') then StripVs(s[1..]) else s
  }

  /** Always in the future of the moment it is computed. */
  function RateLimitUntil(resetAt: Option<Time>, later: Time): (until: Time)
    ensures until > later
  {
    if resetAt.Some? && resetAt.value > later then resetAt.value else later + RATE_LIMIT_BACKOFF
  }

  /** The answer to a release that has a package. */
  function Fresh(version: string, package: Package, current: string, now: Time): Snapshot {
    var newer := IsVersionNewer(version, current);
    Snapshot(if newer then UpdateAvailable else UpToDate, newer, Some(version),
             if newer then Some(package) else None, None, Some(now), None)
  }

  function Answered(state: Snapshot, c: Call): Snapshot {
    var failed := state.(phase := Failed, available := false, checkedAt := Some(c.now), limitedUntil := None);
    match c.response
    case Release(tag, Some(package)) => Fresh(StripVs(tag), package, Text.Strip(c.current), c.now)
    case Release(tag, None) =>
      var shown := if StripVs(tag) == "" then "?" else StripVs(tag);
      failed.(error := Some(NoPackage(shown)), latestVersion := Some(shown))
    case RateLimited(resetAt) => failed.(error := Some(Limited), limitedUntil := Some(RateLimitUntil(resetAt, c.later)))
    case HttpError(code) => failed.(error := Some(Http(code)))
    case NoAnswer(text) => failed.(error := Some(Unreachable(text)))
  }

  /** `_apply_cached_result` */
  function FromCache(cache: Snapshot, current: string): Snapshot {
    var latest := cache.latestVersion.GetOr("");
    var success := latest != "" && (cache.phase == UpdateAvailable || cache.phase == UpToDate) && cache.error.None?;
    var available := success && IsVersionNewer(latest, current);
    var phase := if !success then cache.phase else if available then UpdateAvailable else UpToDate;
    Snapshot(phase, available, if latest == "" then None else Some(latest),
             if available then cache.package else None,
             if phase == Failed then cache.error else None, cache.checkedAt, cache.limitedUntil)
  }

  predicate LimitedNow(s: Store, now: Time) {
    s.cache.Some? && s.cache.value.limitedUntil.Some? && s.cache.value.limitedUntil.value > now
  }

  predicate CacheServes(s: Store, c: Call) {
    && !c.force && s.cache.Some?
    && s.cache.value.checkedAt.Some? && s.cache.value.checkedAt.value != 0
    && c.now - s.cache.value.checkedAt.value < MIN_CHECK_INTERVAL
    && (s.cache.value.phase == UpToDate || s.cache.value.phase == UpdateAvailable || s.cache.value.phase == Failed)
  }

  predicate Fetches(s: Store, c: Call) {
    !LimitedNow(s, c.now) && !CacheServes(s, c)
  }

  function Requested(s: Store, c: Call): Store {
    var answer := Answered(s.state, c);
    Store(answer, Some(answer),
          s.fetches + [Fetch(c.now, c.force, Text.Strip(c.current), c.response, answer.limitedUntil)])
  }

  /** One call; its answer is the new `state`. */
  function Check(s: Store, c: Call): Store {
    if LimitedNow(s, c.now) then
      var cache := s.cache.value;
      s.(state := s.state.(phase := Failed, error := Some(Limited), available := false,
                           latestVersion := cache.latestVersion, checkedAt := cache.checkedAt,
                           limitedUntil := cache.limitedUntil))
    else if CacheServes(s, c) then s.(state := FromCache(s.cache.value, Text.Strip(c.current)))
    else Requested(s, c)
  }

  /** A call, or the start of a new process that finds the cache file of the last one. */
  datatype Event = Asked(call: Call) | Restarted

  function Happen(s: Store, e: Event): Store {
    match e
    case Asked(c) => Check(s, c)
    case Restarted => s.(state := INITIAL)
  }

  /** The module's global state; writing the cache file succeeds. */
  class Updater {
    var state: Snapshot
    var cache: Option<Snapshot>
    ghost var fetches: seq<Fetch>

    ghost function View(): Store
      reads this
    {
      Store(state, cache, fetches)
    }

    constructor ()
      ensures View() == Store(INITIAL, None, [])
    {
      state, cache, fetches := INITIAL, None, [];
    }

    /** A new process: the module starts anew, the cache file is still there. */
    method Restart()
      modifies this
      ensures View() == Happen(old(View()), Restarted)
    {
      state := INITIAL;
    }

    /** The same steps as the source; `response` is what the request would bring, if one is sent. */
    method CheckForUpdate(c: Call) returns (answer: Snapshot)
      modifies this
      ensures View() == Check(old(View()), c) && answer == state
    {
      var current := Text.Strip(c.current);
      var limitedUntil := if cache.None? then None else cache.value.limitedUntil;
      if limitedUntil.Some? && limitedUntil.value > c.now {
        state := state.(phase := Failed, error := Some(Limited), available := false,
                        latestVersion := cache.value.latestVersion, checkedAt := cache.value.checkedAt,
                        limitedUntil := limitedUntil);
        return state;
      }
      if !c.force && cache.Some? && cache.value.checkedAt.Some? && cache.value.checkedAt.value != 0
         && c.now - cache.value.checkedAt.value < MIN_CHECK_INTERVAL
         && (cache.value.phase == UpToDate || cache.value.phase == UpdateAvailable || cache.value.phase == Failed)
      {
        state := FromCache(cache.value, current);
        return state;
      }
      answer := Request(c, current);
    }

    /** The branches of `check_for_update` after a release was received. */
    method TakeRelease(c: Call, current: string)
      requires c.response.Release? && current == Text.Strip(c.current)
      modifies this`state
      ensures state == Answered(old(state), c)
    {
      var version, package := StripVs(c.response.tag), c.response.package;
      if package.None? {
        var shown := if version == "" then "?" else version;
        state := state.(phase := Failed, error := Some(NoPackage(shown)), available := false,
                        latestVersion := Some(shown), checkedAt := Some(c.now), limitedUntil := None);
        return;
      }
      var newer := IsVersionNewer(version, current);
      state := state.(phase := if newer then UpdateAvailable else UpToDate, available := newer,
                      latestVersion := Some(version), package := if newer then package else None,
                      error := None, checkedAt := Some(c.now), limitedUntil := None);
    }

    /** The exception handlers of `check_for_update`. */
    method TakeError(c: Call)
      requires !c.response.Release?
      modifies this`state
      ensures state == Answered(old(state), c)
    {
      var failure, until := Limited, None;
      match c.response {
        case RateLimited(resetAt) => until := Some(RateLimitUntil(resetAt, c.later));
        case HttpError(code) => failure := Http(code);
        case NoAnswer(text) => failure := Unreachable(text);
      }
      state := state.(phase := Failed, error := Some(failure), available := false, checkedAt := Some(c.now),
                      limitedUntil := until);
    }

    /** The part of `check_for_update` that talks to the release server. */
    method Request(c: Call, current: string) returns (answer: Snapshot)
      requires current == Text.Strip(c.current)
      modifies this
      ensures View() == Requested(old(View()), c) && answer == state
    {
      state := state.(phase := Checking, error := None, limitedUntil := None);
      if c.response.Release? {
        TakeRelease(c, current);
      } else {
        TakeError(c);
      }
      cache := Some(state);
      fetches := fetches + [Fetch(c.now, c.force, current, c.response, state.limitedUntil)];
      return state;
    }
  }

  // ----------------------------------------------------- the answers, spelt out

  /** A rate limit lasts until the reset time the server names, or for an hour if that is not in the future. */
  lemma LimitLastsUntilReset(s: Store, c: Call, resetAt: Option<Time>)
    requires c.response == RateLimited(resetAt)
    ensures
      var answer := Requested(s, c).state;
      && answer.phase == Failed && answer.error == Some(Limited) && !answer.available
      && answer.checkedAt == Some(c.now)
      && answer.limitedUntil ==
         if resetAt.Some? && resetAt.value > c.later then resetAt else Some(c.later + 3_600_000_000)
  {}

  lemma {:induction false} VsGo(s: string) returns (n: nat)
    ensures n <= |s| && StripVs(s) == s[n..]
    ensures forall i :: 0 <= i < n ==> s[i] == 'v' || s[i] == 'V'
    ensures n < |s| ==> s[n] != 'v' && s[n] != 'V'
  {
    n := 0;
    if s != "" && (s[0] == 'v' || s[0] == 'V') {
      var m := VsGo(s[1..]);
      n := m + 1;
    }
  }

  /** A release is offered, with its package, exactly when it is newer than what is installed. */
  lemma ReleaseIsOffered(s: Store, c: Call, tag: string, package: Package) returns (n: nat)
    requires c.response == Release(tag, Some(package))
    ensures n <= |tag| && (forall i :: 0 <= i < n ==> tag[i] == 'v' || tag[i] == 'V')
    ensures n < |tag| ==> tag[n] != 'v' && tag[n] != 'V'
    ensures
      var answer, newer := Requested(s, c).state, IsVersionNewer(tag[n..], Text.Strip(c.current));
      && answer.phase == (if newer then UpdateAvailable else UpToDate) && answer.available == newer
      && answer.package == (if newer then Some(package) else None)
      && answer.latestVersion == Some(tag[n..])
      && answer.checkedAt == Some(c.now) && answer.error == None && answer.limitedUntil == None
  {
    n := VsGo(tag);
  }

  /** Every other answer is a failure that says why, and limits nothing. */
  lemma FailureIsTold(s: Store, c: Call) returns (n: nat)
    requires !(c.response.Release? && c.response.package.Some?) && !c.response.RateLimited?
    ensures
      var answer := Requested(s, c).state;
      && answer.phase == Failed && !answer.available && answer.checkedAt == Some(c.now) && answer.limitedUntil == None
      && (c.response.HttpError? ==> answer.error == Some(Http(c.response.code)))
      && (c.response.NoAnswer? ==> answer.error == Some(Unreachable(c.response.text)))
      && (c.response.Release? ==>
            && n <= |c.response.tag| && (forall i :: 0 <= i < n ==> c.response.tag[i] == 'v' || c.response.tag[i] == 'V')
            && (n < |c.response.tag| ==> c.response.tag[n] != 'v' && c.response.tag[n] != 'V')
            && answer.latestVersion == Some(if n == |c.response.tag| then "?" else c.response.tag[n..])
            && answer.error == Some(NoPackage(answer.latestVersion.value)))
  {
    n := 0;
    if c.response.Release? {
      n := VsGo(c.response.tag);
    }
  }

  /**
    Whether a call sends a request: not while a limit lasts, and without `force` not within six hours
    of the last check.
   */
  lemma WhenARequestIsSent(s: Store, c: Call)
    ensures
      var sent := |Check(s, c).fetches| == |s.fetches| + 1;
      && (sent || Check(s, c).fetches == s.fetches)
      && (s.cache == None ==> sent)
      && (s.cache.Some? ==>
            var kept := s.cache.value;
            var limited := kept.limitedUntil.Some? && kept.limitedUntil.value > c.now;
            var recent := kept.checkedAt.Some? && kept.checkedAt.value != 0
                          && c.now - kept.checkedAt.value < 21_600_000_000;
            var told := kept.phase == UpToDate || kept.phase == UpdateAvailable || kept.phase == Failed;
            && (sent <==> !limited && (c.force || !recent || !told))
            && (limited ==> Check(s, c).state.error == Some(Limited) && !Check(s, c).state.available
                            && Check(s, c).state.limitedUntil == kept.limitedUntil))
      && (!sent ==> Check(s, c).cache == s.cache)
      && (sent ==>
            && Check(s, c).cache == Some(Check(s, c).state)
            && Check(s, c).fetches[..|s.fetches|] == s.fetches
            && Check(s, c).fetches[|s.fetches|] ==
               Fetch(c.now, c.force, Text.Strip(c.current), c.response, Check(s, c).state.limitedUntil))
  {}

  /** A cached failure is told again as it was; a restart forgets what was told, but not the cache file. */
  lemma FailureIsRepeated(s: Store, c: Call)
    requires !LimitedNow(s, c.now) && CacheServes(s, c) && s.cache.value.phase == Failed
    ensures
      var kept, answer := s.cache.value, Check(s, c).state;
      && answer.phase == Failed && !answer.available && answer.package == None && answer.error == kept.error
      && answer.checkedAt == kept.checkedAt && answer.limitedUntil == kept.limitedUntil
      && answer.latestVersion.GetOr("") == kept.latestVersion.GetOr("")
    ensures Happen(s, Restarted) == s.(state := Snapshot(NotChecked, false, None, None, None, None, None))
  {}

  // ------------------------------------------------------------------- runs

  /** The clock is positive and only advances. */
  predicate Clocked(events: seq<Event>) {
    && (forall i :: 0 <= i < |events| && events[i].Asked? ==> 0 < events[i].call.now)
    && (forall i, j :: 0 <= i < j < |events| && events[i].Asked? && events[j].Asked? ==>
          events[i].call.now <= events[j].call.now)
  }

  /** The installed version never decreases. */
  predicate NoDowngrade(events: seq<Event>) {
    forall i, j :: 0 <= i < j < |events| && events[i].Asked? && events[j].Asked? ==>
      !IsVersionNewer(Text.Strip(events[i].call.current), Text.Strip(events[j].call.current))
  }

  function After(events: seq<Event>): Store {
    if events == [] then Store(INITIAL, None, [])
    else Happen(After(events[..|events| - 1]), events[|events| - 1])
  }

  /** The cache holds the answer to the last request, and the requests keep their distances. */
  predicate Consistent(s: Store) {
    && (s.cache.None? <==> s.fetches == [])
    && (s.fetches != [] ==>
          var last := s.fetches[|s.fetches| - 1];
          && s.cache.value.checkedAt == Some(last.at) && last.at > 0
          && s.cache.value.limitedUntil == last.until
          && (if last.Succeeded() then
                s.cache.value == Fresh(StripVs(last.response.tag), last.response.package.value, last.current, last.at)
              else s.cache.value.phase == Failed))
  }

  predicate Distances(fetches: seq<Fetch>) {
    forall i, j :: 0 <= i < j < |fetches| ==>
      && fetches[i].at <= fetches[j].at
      && (fetches[i].until.Some? ==> fetches[i].until.value <= fetches[j].at)
      && (!fetches[j].forced ==> fetches[i].at + MIN_CHECK_INTERVAL <= fetches[j].at)
  }

  lemma RequestIsConsistent(s: Store, c: Call)
    requires c.now > 0
    ensures Consistent(Requested(s, c))
  {}

  lemma RequestKeepsDistances(s: Store, c: Call)
    requires Consistent(s) && Distances(s.fetches) && Fetches(s, c)
    requires s.fetches != [] ==> s.fetches[|s.fetches| - 1].at <= c.now
    ensures Distances(Requested(s, c).fetches)
  {
    if s.fetches != [] {
      var last := s.fetches[|s.fetches| - 1];
      assert last.until.Some? ==> last.until.value <= c.now;
      assert !c.force ==> last.at + MIN_CHECK_INTERVAL <= c.now;
      forall i | 0 <= i < |s.fetches|
        ensures s.fetches[i].at <= last.at
        ensures s.fetches[i].until.Some? ==> s.fetches[i].until.value <= c.now
      {}
    }
  }

  /** Every request was made by some call, at its time and for its version. */
  predicate AskedBy(f: Fetch, e: Event) {
    e.Asked? && f.at == e.call.now && f.current == Text.Strip(e.call.current)
  }

  lemma {:induction false} FetchesWereAsked(events: seq<Event>, k: nat)
    requires k < |After(events).fetches|
    ensures exists i :: 0 <= i < |events| && AskedBy(After(events).fetches[k], events[i])
    decreases |events|
  {
    var n := |events| - 1;
    var before := After(events[..n]);
    if k < |before.fetches| {
      FetchesWereAsked(events[..n], k);
      var i :| 0 <= i < n && AskedBy(before.fetches[k], events[..n][i]);
      assert AskedBy(After(events).fetches[k], events[i]);
    } else {
      assert AskedBy(After(events).fetches[k], events[n]);
    }
  }

  lemma LastFetchIsEarlier(events: seq<Event>)
    requires Clocked(events) && events != [] && events[|events| - 1].Asked?
    ensures
      var before := After(events[..|events| - 1]).fetches;
      before != [] ==> before[|before| - 1].at <= events[|events| - 1].call.now
  {
    var init := events[..|events| - 1];
    var before := After(init).fetches;
    if before != [] {
      FetchesWereAsked(init, |before| - 1);
      var i :| 0 <= i < |init| && AskedBy(before[|before| - 1], init[i]);
      assert init[i] == events[i];
    }
  }

  lemma {:induction false} RunIsConsistent(events: seq<Event>)
    requires Clocked(events)
    ensures Consistent(After(events)) && Distances(After(events).fetches)
    decreases |events|
  {
    if events != [] {
      var init, e := events[..|events| - 1], events[|events| - 1];
      RunIsConsistent(init);
      if e.Asked? {
        LastFetchIsEarlier(events);
        CheckKeepsConsistent(After(init), e.call);
      }
    }
  }

  lemma CheckKeepsConsistent(s: Store, c: Call)
    requires Consistent(s) && Distances(s.fetches) && 0 < c.now
    requires s.fetches != [] ==> s.fetches[|s.fetches| - 1].at <= c.now
    ensures Consistent(Check(s, c)) && Distances(Check(s, c).fetches)
  {
    if Fetches(s, c) {
      RequestIsConsistent(s, c);
      RequestKeepsDistances(s, c);
    }
  }

  /**
    Over any calls and restarts, whatever version is installed, no request is sent before a rate limit
    that came back has passed, forced or not, and an unforced request comes at least six hours after
    every earlier one.
   */
  lemma RequestsKeepTheirDistance(events: seq<Event>, i: nat, j: nat)
    requires Clocked(events) && i < j < |After(events).fetches|
    ensures
      var earlier, later := After(events).fetches[i], After(events).fetches[j];
      && (earlier.until.Some? ==> earlier.until.value <= later.at)
      && (!later.forced ==> earlier.at + 21_600_000_000 <= later.at)
  {
    RunIsConsistent(events);
  }

  /** The two answers tell the client the same, apart from the time of the check. */
  predicate SameAnswer(a: Snapshot, b: Snapshot) {
    && a.phase == b.phase && a.available == b.available && a.package == b.package
    && a.error == b.error && a.limitedUntil == b.limitedUntil
    && a.latestVersion.GetOr("") == b.latestVersion.GetOr("")
  }

  lemma NoVersionIsNeverNewer(current: string)
    ensures !IsVersionNewer("", current)
  {
    NewerIsGreater("", current);
    assert Text.Strip("") == "" && Text.Split("", '.') == [""];
    assert forall i: nat :: At(Parse(""), i) == 0;
  }

  /**
    A cached success is the answer a request for the same release would bring now, exactly unless the
    release is newer than what is installed now and was not newer than what was installed then.
   */
  lemma CachedAnswerIsFresh(s: Store, c: Call)
    requires Consistent(s) && s.fetches != [] && !LimitedNow(s, c.now) && CacheServes(s, c)
    requires s.fetches[|s.fetches| - 1].Succeeded()
    ensures
      var last, current := s.fetches[|s.fetches| - 1], Text.Strip(c.current);
      var version := StripVs(last.response.tag);
      SameAnswer(Check(s, c).state, Fresh(version, last.response.package.value, current, c.now))
      <==> !(IsVersionNewer(version, current) && !IsVersionNewer(version, last.current))
  {
    NoVersionIsNeverNewer(Text.Strip(c.current));
    NoVersionIsNeverNewer(s.fetches[|s.fetches| - 1].current);
  }

  predicate ServedLikeFresh(s: Store, c: Call) {
    s.fetches != [] && !LimitedNow(s, c.now) && CacheServes(s, c) && s.fetches[|s.fetches| - 1].Succeeded() ==>
      var last := s.fetches[|s.fetches| - 1];
      SameAnswer(Check(s, c).state,
                 Fresh(StripVs(last.response.tag), last.response.package.value, Text.Strip(c.current), c.now))
  }

  lemma UpgradedAnswerIsFresh(s: Store, c: Call)
    requires Consistent(s)
    requires s.fetches != [] ==> !IsVersionNewer(s.fetches[|s.fetches| - 1].current, Text.Strip(c.current))
    ensures ServedLikeFresh(s, c)
  {
    if s.fetches != [] && !LimitedNow(s, c.now) && CacheServes(s, c) && s.fetches[|s.fetches| - 1].Succeeded() {
      var last := s.fetches[|s.fetches| - 1];
      var version := StripVs(last.response.tag);
      CachedAnswerIsFresh(s, c);
      if !IsVersionNewer(version, last.current) {
        NotNewerIsTransitive(version, last.current, Text.Strip(c.current));
      }
    }
  }

  /** An offered update always comes with its package. */
  lemma OfferHasPackage(s: Store, c: Call)
    requires Consistent(s) && ServedLikeFresh(s, c)
    requires Check(s, c).state.available
    ensures Check(s, c).state.package.Some?
  {
    if s.fetches != [] && !LimitedNow(s, c.now) && CacheServes(s, c) {
      assert s.cache.value.phase != Failed;
    }
  }

  lemma LastFetchIsOlder(events: seq<Event>)
    requires NoDowngrade(events) && events != [] && events[|events| - 1].Asked?
    ensures
      var before := After(events[..|events| - 1]).fetches;
      before != [] ==>
        !IsVersionNewer(before[|before| - 1].current, Text.Strip(events[|events| - 1].call.current))
  {
    var init := events[..|events| - 1];
    var before := After(init).fetches;
    if before != [] {
      FetchesWereAsked(init, |before| - 1);
      var i :| 0 <= i < |init| && AskedBy(before[|before| - 1], init[i]);
      assert init[i] == events[i];
    }
  }

  /**
    Over any calls and restarts in which the installed version never decreases, every cached success is
    the fresh answer, and an offer always has its package.
   */
  lemma OrderlyAnswersAreFresh(events: seq<Event>)
    requires Clocked(events) && NoDowngrade(events) && events != [] && events[|events| - 1].Asked?
    ensures ServedLikeFresh(After(events[..|events| - 1]), events[|events| - 1].call)
    ensures After(events).state.available ==> After(events).state.package.Some?
  {
    var init, c := events[..|events| - 1], events[|events| - 1].call;
    RunIsConsistent(init);
    LastFetchIsOlder(events);
    UpgradedAnswerIsFresh(After(init), c);
    if Check(After(init), c).state.available {
      OfferHasPackage(After(init), c);
    }
  }

  /** After a downgrade the cache can offer an update for which it has no package. */
  lemma DowngradeLosesThePackage(s: Store, c: Call)
    requires Consistent(s) && s.fetches != [] && !LimitedNow(s, c.now) && CacheServes(s, c)
    requires s.fetches[|s.fetches| - 1].Succeeded()
    requires
      var last := s.fetches[|s.fetches| - 1];
      var version := StripVs(last.response.tag);
      IsVersionNewer(version, Text.Strip(c.current)) && !IsVersionNewer(version, last.current)
    ensures Check(s, c).state.available && Check(s, c).state.package.None?
  {
    NoVersionIsNeverNewer(Text.Strip(c.current));
  }

  /** Such calls exist for every release between the two installed versions: a fetch, a restart, a cached answer. */
  lemma DowngradeHappens(release: string, package: Package, newer: string, older: string, at: Time)
    returns (events: seq<Event>)
    requires at > 0
    requires IsVersionNewer(StripVs(release), Text.Strip(older)) && !IsVersionNewer(StripVs(release), Text.Strip(newer))
    ensures Clocked(events) && After(events).state.available && After(events).state.package.None?
  {
    var response := Release(release, Some(package));
    var first, second := Call(newer, at, at, false, response), Call(older, at, at, false, response);
    var before := [Asked(first), Restarted];
    events := before + [Asked(second)];
    FetchThenRestart(first);
    DowngradeLosesThePackage(After(before), second);
    LastEvent(before, Asked(second));
  }

  lemma LastEvent(events: seq<Event>, e: Event)
    ensures After(events + [e]) == Happen(After(events), e)
  {
    assert (events + [e])[..|events|] == events;
  }

  lemma FetchThenRestart(c: Call)
    requires c.now > 0
    ensures After([Asked(c), Restarted]) == Requested(Store(INITIAL, None, []), c).(state := INITIAL)
    ensures Consistent(After([Asked(c), Restarted]))
  {
    RequestIsConsistent(Store(INITIAL, None, []), c);
    LastEvent([], Asked(c));
    LastEvent([Asked(c)], Restarted);
    assert [] + [Asked(c)] == [Asked(c)];
  }

  /** Release 2 with version 2 installed, and then version 1. */
  lemma DowngradeFromTwoToOne(package: Package) returns (events: seq<Event>)
    ensures Clocked(events) && After(events).state.available && After(events).state.package.None?
  {
    TwoIsNewerThanOne();
    NewerIsAsymmetric("2", "");
    events := DowngradeHappens("2", package, "2", "1", SECOND);
  }

  lemma TwoIsNewerThanOne()
    ensures IsVersionNewer("2", "1") && Text.Strip("2") == "2" && Text.Strip("1") == "1" && StripVs("2") == "2"
  {
    OneDigitVersion('2');
    OneDigitVersion('1');
    NewerIsGreater("2", "1");
    assert FirstDifference(Parse("2"), Parse("1"), 0);
  }
}
