/** `sources_from_legacy` and `sync_sources_to_flat` of borg_model.py. */
module Legacy {
  import opened Wrappers
  import opened Text

  /** A source drive; its label and size come from the mount table and are not modelled. */
  datatype Source = Source(path: string, excludes: seq<string>)

  // ------------------------------------------------------------ flat lists

  function NonBlank(s: seq<string>): seq<string> {
    if s == [] then [] else NonBlank(s[..|s| - 1]) + if Strip(s[|s| - 1]) != "" then [s[|s| - 1]] else []
  }

  /** The stripped, non-blank texts of `s`. */
  function Stripped(s: seq<string>): seq<string> {
    if s == [] then []
    else
      var last := Strip(s[|s| - 1]);
      Stripped(s[..|s| - 1]) + if last != "" then [last] else []
  }

  function Paths(sources: seq<Source>): seq<string> {
    if sources == [] then [] else Paths(sources[..|sources| - 1]) + [sources[|sources| - 1].path]
  }

  function Rules(sources: seq<Source>): seq<string> {
    if sources == [] then [] else Rules(sources[..|sources| - 1]) + sources[|sources| - 1].excludes
  }

  /** One step of the source's loops: append what is new and not blank. */
  function Add(list: seq<string>, text: string): seq<string> {
    var x := Strip(text);
    if x == "" || x in list then list else list + [x]
  }

  function AddAll(list: seq<string>, texts: seq<string>): seq<string> {
    if texts == [] then list else Add(AddAll(list, texts[..|texts| - 1]), texts[|texts| - 1])
  }

  function AddExcludes(sources: seq<Source>): seq<string> {
    if sources == [] then [] else AddAll(AddExcludes(sources[..|sources| - 1]), sources[|sources| - 1].excludes)
  }

  /** `include_folders`: the stripped paths, each once, or the root if there are none. */
  function FlatIncludes(sources: seq<Source>): seq<string> {
    var includes := Dedup(Stripped(Paths(sources)));
    if includes == [] then ["/"] else includes
  }

  /** `exclude_folders`: the stripped excludes of all sources, each once. */
  function FlatExcludes(sources: seq<Source>): seq<string> {
    Dedup(Stripped(Rules(sources)))
  }

  method SyncSourcesToFlat(sources: seq<Source>) returns (includes: seq<string>, excludes: seq<string>)
    ensures includes == FlatIncludes(sources)
    ensures excludes == FlatExcludes(sources)
  {
    includes, excludes := [], [];
    var seen: set<string> := {};
    for i := 0 to |sources|
      invariant includes == AddAll([], Paths(sources[..i]))
      invariant excludes == AddExcludes(sources[..i])
      invariant forall e :: e in seen <==> e in excludes
    {
      var source := sources[i];
      assert sources[..i + 1][..i] == sources[..i];
      var path := Strip(source.path);
      if path != "" && path !in includes {
        includes := includes + [path];
      }
      ghost var before := excludes;
      for j := 0 to |source.excludes|
        invariant excludes == AddAll(before, source.excludes[..j])
        invariant forall e :: e in seen <==> e in excludes
      {
        assert source.excludes[..j + 1][..j] == source.excludes[..j];
        var exclude := Strip(source.excludes[j]);
        if exclude != "" && exclude !in seen {
          seen := seen + {exclude};
          excludes := excludes + [exclude];
        }
      }
      assert source.excludes[..|source.excludes|] == source.excludes;
    }
    assert sources[..|sources|] == sources;
    AddAllIsDedup(Paths(sources));
    AddExcludesIsAddAll(sources);
    AddAllIsDedup(Rules(sources));
    if includes == [] {
      includes := ["/"];
    }
  }

  lemma {:induction false} AddAllIsDedup(texts: seq<string>)
    ensures AddAll([], texts) == Dedup(Stripped(texts))
    decreases |texts|
  {
    if texts != [] {
      AddAllIsDedup(texts[..|texts| - 1]);
      assert Stripped(texts[..|texts| - 1]) + [] == Stripped(texts[..|texts| - 1]);
      DedupLast(Stripped(texts[..|texts| - 1]), Strip(texts[|texts| - 1]));
    }
  }

  lemma {:induction false} AddAllTwice(list: seq<string>, s: seq<string>, t: seq<string>)
    ensures AddAll(list, s + t) == AddAll(AddAll(list, s), t)
    decreases |t|
  {
    if t == [] {
      assert s + t == s;
    } else {
      AddAllTwice(list, s, t[..|t| - 1]);
      assert (s + t)[..|s + t| - 1] == s + t[..|t| - 1];
    }
  }

  lemma {:induction false} AddExcludesIsAddAll(sources: seq<Source>)
    ensures AddExcludes(sources) == AddAll([], Rules(sources))
    decreases |sources|
  {
    if sources != [] {
      AddExcludesIsAddAll(sources[..|sources| - 1]);
      AddAllTwice([], Rules(sources[..|sources| - 1]), sources[|sources| - 1].excludes);
    }
  }

  // ------------------------------------------------------------- assignment

  function StripSlashes(s: string): string {
    if s != "" && s[|s| - 1] == '/' then StripSlashes(s[..|s| - 1]) else s
  }

  lemma {:induction false} SlashesGo(s: string) returns (n: nat)
    ensures n <= |s| && StripSlashes(s) == s[..n]
    ensures forall i :: n <= i < |s| ==> s[i] == '/'
    ensures n > 0 ==> s[n - 1] != '/'
    decreases |s|
  {
    n := |s|;
    if s != "" && s[|s| - 1] == '/' {
      n := SlashesGo(s[..|s| - 1]);
    }
  }

  predicate Covers(drive: string, exclude: string) {
    || exclude == drive
    || StartsWith(exclude, StripSlashes(drive) + "/")
    || StartsWith(exclude, drive + "/**")
  }

  /** The drive itself, a path below it, or a pattern below it. */
  lemma CoversMeans(drive: string, exclude: string, rest: string) returns (n: nat)
    ensures n <= |drive| && (forall i :: n <= i < |drive| ==> drive[i] == '/') && (n > 0 ==> drive[n - 1] != '/')
    ensures exclude == drive ==> Covers(drive, exclude)
    ensures exclude == drive[..n] + "/" + rest ==> Covers(drive, exclude)
    ensures exclude == drive + "/**" + rest ==> Covers(drive, exclude)
    ensures Covers(drive, exclude) ==> exclude == drive || drive[..n] + "/" <= exclude || drive + "/**" <= exclude
  {
    n := SlashesGo(drive);
    if exclude == drive[..n] + "/" + rest {
      assert exclude[..n + 1] == drive[..n] + "/";
    }
    if exclude == drive + "/**" + rest {
      assert exclude[..|drive| + 3] == drive + "/**";
    }
  }

  /** An include other than the root that the exclude lies in. */
  predicate Matches(drive: string, exclude: string) {
    drive != "/" && Covers(drive, exclude)
  }

  function InsertByLength(s: seq<string>, x: string): seq<string> {
    if s == [] || |s[|s| - 1]| >= |x| then s + [x] else InsertByLength(s[..|s| - 1], x) + [s[|s| - 1]]
  }

  /** `sorted(s, key=len, reverse=True)` */
  function SortByLength(s: seq<string>): seq<string> {
    if s == [] then [] else InsertByLength(SortByLength(s[..|s| - 1]), s[|s| - 1])
  }

  predicate LongestFirst(s: seq<string>) {
    forall i, j :: 0 <= i < j < |s| ==> |s[i]| >= |s[j]|
  }

  lemma {:induction false} InsertByLengthSorts(s: seq<string>, x: string)
    requires LongestFirst(s)
    ensures LongestFirst(InsertByLength(s, x))
    ensures forall y :: y in InsertByLength(s, x) <==> y in s || y == x
    decreases |s|
  {
    if s != [] && |s[|s| - 1]| < |x| {
      InsertByLengthSorts(s[..|s| - 1], x);
      assert s == s[..|s| - 1] + [s[|s| - 1]];
      var shorter := InsertByLength(s[..|s| - 1], x);
      forall i | 0 <= i < |shorter|
        ensures |shorter[i]| >= |s[|s| - 1]|
      {
        assert shorter[i] in shorter;
      }
    }
  }

  lemma {:induction false} SortByLengthSorts(s: seq<string>)
    ensures LongestFirst(SortByLength(s))
    ensures forall y :: y in SortByLength(s) <==> y in s
    decreases |s|
  {
    if s != [] {
      SortByLengthSorts(s[..|s| - 1]);
      InsertByLengthSorts(SortByLength(s[..|s| - 1]), s[|s| - 1]);
      assert s == s[..|s| - 1] + [s[|s| - 1]];
    }
  }

  function FirstMatch(sorted: seq<string>, exclude: string): Option<string> {
    if sorted == [] then None
    else if Matches(sorted[0], exclude) then Some(sorted[0])
    else FirstMatch(sorted[1..], exclude)
  }

  lemma {:induction false} FirstMatchIsLongest(sorted: seq<string>, exclude: string)
    requires LongestFirst(sorted)
    ensures match FirstMatch(sorted, exclude)
            case None => forall y :: y in sorted ==> !Matches(y, exclude)
            case Some(x) =>
              && x in sorted && Matches(x, exclude)
              && forall y :: y in sorted && Matches(y, exclude) ==> |y| <= |x|
    decreases |sorted|
  {
    if sorted != [] {
      assert sorted == [sorted[0]] + sorted[1..];
      assert forall y :: y in sorted[1..] ==> |y| <= |sorted[0]|;
      FirstMatchIsLongest(sorted[1..], exclude);
    }
  }

  lemma FirstMatchIsInclude(includes: seq<string>, exclude: string)
    requires FirstMatch(SortByLength(includes), exclude).Some?
    ensures FirstMatch(SortByLength(includes), exclude).value in includes
  {
    SortByLengthSorts(includes);
    FirstMatchIsLongest(SortByLength(includes), exclude);
  }

  /** The path that collects the excludes no include matches. */
  function Rootish(includes: seq<string>): string
    requires includes != []
  {
    if "/" in includes then "/" else includes[0]
  }

  function Owner(includes: seq<string>, exclude: string): string
    requires includes != []
  {
    FirstMatch(SortByLength(includes), exclude).GetOr(Rootish(includes))
  }

  /**
    With several includes an exclude belongs to a matching include other than the root that no
    longer matching include beats, and to the root, or else the first include, if none matches.
   */
  lemma OwnerIsLongestMatch(includes: seq<string>, exclude: string)
    requires includes != []
    ensures Owner(includes, exclude) in includes
    ensures (exists y :: y in includes && Matches(y, exclude)) ==>
              Matches(Owner(includes, exclude), exclude)
              && forall y :: y in includes && Matches(y, exclude) ==> |y| <= |Owner(includes, exclude)|
    ensures !(exists y :: y in includes && Matches(y, exclude)) ==>
              Owner(includes, exclude) == if "/" in includes then "/" else includes[0]
  {
    SortByLengthSorts(includes);
    FirstMatchIsLongest(SortByLength(includes), exclude);
  }

  /** The excludes that some include matches, or that none does. */
  function Matched(sorted: seq<string>, excludes: seq<string>, path: Option<string>): seq<string> {
    if excludes == [] then []
    else
      var last := excludes[|excludes| - 1];
      Matched(sorted, excludes[..|excludes| - 1], path) + if FirstMatch(sorted, last) == path then [last] else []
  }

  /** What a path gets: its own matches, then, for the root-like path, everything unmatched. */
  function Assigned(includes: seq<string>, excludes: seq<string>, path: string): seq<string>
    requires includes != []
  {
    var sorted := SortByLength(includes);
    Matched(sorted, excludes, Some(path)) + if path == Rootish(includes) then Matched(sorted, excludes, None) else []
  }

  function Includes(includeFolders: seq<string>): (r: seq<string>)
    ensures r != []
  {
    if NonBlank(includeFolders) == [] then ["/"] else NonBlank(includeFolders)
  }

  function ExcludesOf(includes: seq<string>, excludes: seq<string>, path: string): seq<string>
    requires includes != []
  {
    if |includes| == 1 then excludes else Assigned(includes, excludes, path)
  }

  function LegacySources(includes: seq<string>, excludes: seq<string>): (r: seq<Source>)
    requires includes != []
    ensures |r| == |includes|
    ensures forall i :: 0 <= i < |r| ==> r[i] == Source(includes[i], ExcludesOf(includes, excludes, includes[i]))
  {
    seq(|includes|, i requires 0 <= i < |includes| => Source(includes[i], ExcludesOf(includes, excludes, includes[i])))
  }

  /** The inner loop of `sources_from_legacy`. */
  method MatchingInclude(sorted: seq<string>, exclude: string) returns (matched: Option<string>)
    ensures matched == FirstMatch(sorted, exclude)
  {
    for j := 0 to |sorted|
      invariant FirstMatch(sorted[j..], exclude) == FirstMatch(sorted, exclude)
    {
      if sorted[j] == "/" {
        continue;
      }
      if Covers(sorted[j], exclude) {
        return Some(sorted[j]);
      }
    }
    return None;
  }

  /** The part of `sources_from_legacy` for several includes. */
  method AssignExcludes(includes: seq<string>, excludes: seq<string>) returns (perPath: map<string, seq<string>>)
    requires includes != []
    ensures forall p :: p in perPath <==> p in includes
    ensures forall p :: p in includes ==> perPath[p] == Assigned(includes, excludes, p)
  {
    var sorted := SortByLength(includes);
    perPath := map p | p in includes :: [];
    var leftovers: seq<string> := [];
    for i := 0 to |excludes|
      invariant forall p :: p in perPath <==> p in includes
      invariant forall p :: p in includes ==> perPath[p] == Matched(sorted, excludes[..i], Some(p))
      invariant leftovers == Matched(sorted, excludes[..i], None)
    {
      var exclude := excludes[i];
      assert excludes[..i + 1][..i] == excludes[..i];
      var matched := MatchingInclude(sorted, exclude);
      if matched.Some? {
        FirstMatchIsInclude(includes, exclude);
        perPath := perPath[matched.value := perPath[matched.value] + [exclude]];
      } else {
        leftovers := leftovers + [exclude];
      }
    }
    assert excludes[..|excludes|] == excludes;
    var rootish := if "/" in perPath then "/" else includes[0];
    perPath := perPath[rootish := perPath[rootish] + leftovers];
  }

  method SourcesFromLegacy(includeFolders: seq<string>, excludeFolders: seq<string>) returns (sources: seq<Source>)
    ensures sources == LegacySources(Includes(includeFolders), NonBlank(excludeFolders))
  {
    sources := SourcesOf(Includes(includeFolders), NonBlank(excludeFolders));
  }

  /** `sources_from_legacy` after the blank entries have been dropped. */
  method SourcesOf(includes: seq<string>, excludes: seq<string>) returns (sources: seq<Source>)
    requires includes != []
    ensures sources == LegacySources(includes, excludes)
  {
    if |includes| == 1 {
      return [Source(includes[0], excludes)];
    }
    var perPath := AssignExcludes(includes, excludes);
    sources := Collect(includes, perPath);
  }

  method Collect(paths: seq<string>, perPath: map<string, seq<string>>) returns (sources: seq<Source>)
    requires forall p :: p in paths ==> p in perPath
    ensures |sources| == |paths|
    ensures forall k :: 0 <= k < |paths| ==> sources[k] == Source(paths[k], perPath[paths[k]])
  {
    sources := [];
    for i := 0 to |paths|
      invariant |sources| == i
      invariant forall k :: 0 <= k < i ==> sources[k] == Source(paths[k], perPath[paths[k]])
    {
      sources := sources + [Source(paths[i], perPath[paths[i]])];
    }
  }

  // -------------------------------------------------------- nothing is lost

  lemma {:induction false} InStripped(s: seq<string>, x: string)
    ensures x in Stripped(s) <==> x != "" && exists y :: y in s && Strip(y) == x
    decreases |s|
  {
    if s != [] {
      InStripped(s[..|s| - 1], x);
      assert s == s[..|s| - 1] + [s[|s| - 1]];
    }
  }

  lemma {:induction false} StrippedNonBlank(s: seq<string>)
    ensures Stripped(NonBlank(s)) == Stripped(s)
    ensures forall y :: y in NonBlank(s) ==> y in s && Strip(y) != ""
    decreases |s|
  {
    if s != [] {
      var init, last := s[..|s| - 1], s[|s| - 1];
      StrippedNonBlank(init);
      assert s == init + [last];
      assert Stripped(init) + [] == Stripped(init) && NonBlank(init) + [] == NonBlank(init);
      if Strip(last) != "" {
        assert NonBlank(s)[..|NonBlank(s)| - 1] == NonBlank(init);
      }
    }
  }

  lemma {:induction false} InMatched(sorted: seq<string>, excludes: seq<string>, path: Option<string>, y: string)
    ensures y in Matched(sorted, excludes, path) <==> y in excludes && FirstMatch(sorted, y) == path
    decreases |excludes|
  {
    if excludes != [] {
      InMatched(sorted, excludes[..|excludes| - 1], path, y);
      assert excludes == excludes[..|excludes| - 1] + [excludes[|excludes| - 1]];
    }
  }

  lemma {:induction false} InRules(sources: seq<Source>, y: string)
    ensures y in Rules(sources) <==> exists i :: 0 <= i < |sources| && y in sources[i].excludes
    decreases |sources|
  {
    if sources != [] {
      InRules(sources[..|sources| - 1], y);
    }
  }

  lemma {:induction false} PathsAt(sources: seq<Source>)
    ensures |Paths(sources)| == |sources|
    ensures forall i :: 0 <= i < |sources| ==> Paths(sources)[i] == sources[i].path
    decreases |sources|
  {
    if sources != [] {
      PathsAt(sources[..|sources| - 1]);
    }
  }

  /** A path is given exactly the excludes it owns. */
  lemma AssignedExactly(includes: seq<string>, excludes: seq<string>, path: string, y: string)
    requires includes != []
    ensures y in Assigned(includes, excludes, path) ==> y in excludes
    ensures path in includes && y in excludes && Owner(includes, y) == path ==> y in Assigned(includes, excludes, path)
    ensures path in includes && y in Assigned(includes, excludes, path) ==> Owner(includes, y) == path
  {
    var sorted := SortByLength(includes);
    InMatched(sorted, excludes, Some(path), y);
    InMatched(sorted, excludes, None, y);
  }

  lemma RulesOfLegacySources(includes: seq<string>, excludes: seq<string>, y: string)
    requires includes != []
    ensures y in Rules(LegacySources(includes, excludes)) <==> y in excludes
  {
    var sources := LegacySources(includes, excludes);
    InRules(sources, y);
    if y in excludes {
      OwnerIsLongestMatch(includes, y);
      var i :| 0 <= i < |includes| && includes[i] == Owner(includes, y);
      AssignedExactly(includes, excludes, includes[i], y);
      assert |includes| == 1 ==> y in sources[0].excludes;
      assert |includes| > 1 ==> y in sources[i].excludes;
    }
    if y in Rules(sources) {
      var i :| 0 <= i < |sources| && y in sources[i].excludes;
      AssignedExactly(includes, excludes, includes[i], y);
    }
  }

  /**
    Migrating flat lists to sources and flattening back keeps the includes, stripped, without
    duplicates and in their order, and exactly the set of stripped excludes, each once.
   */
  lemma MigrationConservesRules(includeFolders: seq<string>, excludeFolders: seq<string>)
    ensures
      var sources := LegacySources(Includes(includeFolders), NonBlank(excludeFolders));
      && FlatIncludes(sources) == Dedup(if Stripped(includeFolders) == [] then ["/"] else Stripped(includeFolders))
      && (forall e :: e in FlatExcludes(sources) <==> e in Stripped(excludeFolders))
      && (forall i, j :: 0 <= i < j < |FlatExcludes(sources)| ==> FlatExcludes(sources)[i] != FlatExcludes(sources)[j])
  {
    var includes, excludes := Includes(includeFolders), NonBlank(excludeFolders);
    var sources := LegacySources(includes, excludes);
    PathsAt(sources);
    assert Paths(sources) == includes;
    MigratedIncludes(includeFolders);
    DedupKeeps(Stripped(Rules(sources)), "");
    forall e
      ensures e in FlatExcludes(sources) <==> e in Stripped(excludeFolders)
    {
      MigratedExclude(includes, excludeFolders, e);
    }
  }

  lemma MigratedIncludes(includeFolders: seq<string>)
    ensures
      Stripped(Includes(includeFolders)) == if Stripped(includeFolders) == [] then ["/"] else Stripped(includeFolders)
    ensures Dedup(Stripped(Includes(includeFolders))) != []
  {
    StrippedNonBlank(includeFolders);
    RootStripped();
    NonBlankStays(NonBlank(includeFolders));
    var paths := Stripped(Includes(includeFolders));
    DedupKeeps(paths, paths[0]);
  }

  lemma MigratedExclude(includes: seq<string>, excludeFolders: seq<string>, e: string)
    requires includes != []
    ensures
      var rules := Rules(LegacySources(includes, NonBlank(excludeFolders)));
      e in Dedup(Stripped(rules)) <==> e in Stripped(excludeFolders)
  {
    var excludes := NonBlank(excludeFolders);
    var rules := Rules(LegacySources(includes, excludes));
    StrippedNonBlank(excludeFolders);
    DedupKeeps(Stripped(rules), e);
    InStripped(rules, e);
    InStripped(excludes, e);
    forall y
      ensures y in rules <==> y in excludes
    {
      RulesOfLegacySources(includes, excludes, y);
    }
  }

  lemma RootStripped()
    ensures Stripped(["/"]) == ["/"]
  {
    StripTrims("/");
    assert Stripped(["/"][..0]) == [];
  }

  lemma NonBlankStays(s: seq<string>)
    requires forall y :: y in s ==> Strip(y) != ""
    ensures s != [] ==> Stripped(s) != []
  {
    if s != [] {
      InStripped(s, Strip(s[0]));
    }
  }

  // -------------------------------------------------------------------- order

  /** Blank entries go, the others stay as they are or stripped, in their order. */
  lemma {:induction false} NonBlankJoins(a: seq<string>, b: seq<string>)
    ensures NonBlank(a + b) == NonBlank(a) + NonBlank(b)
    decreases |b|
  {
    if b == [] {
      assert a + b == a;
    } else {
      var init := b[..|b| - 1];
      NonBlankJoins(a, init);
      assert (a + b)[..|a + b| - 1] == a + init;
    }
  }

  lemma {:induction false} StrippedJoins(a: seq<string>, b: seq<string>)
    ensures Stripped(a + b) == Stripped(a) + Stripped(b)
    decreases |b|
  {
    if b == [] {
      assert a + b == a;
    } else {
      var init := b[..|b| - 1];
      StrippedJoins(a, init);
      assert (a + b)[..|a + b| - 1] == a + init;
    }
  }

  lemma OneText(text: string)
    ensures NonBlank([text]) == if Strip(text) == "" then [] else [text]
    ensures Stripped([text]) == if Strip(text) == "" then [] else [Strip(text)]
  {
    assert [text][..0] == [];
  }

  lemma {:induction false} MatchedJoins(sorted: seq<string>, a: seq<string>, b: seq<string>, path: Option<string>)
    ensures Matched(sorted, a + b, path) == Matched(sorted, a, path) + Matched(sorted, b, path)
    decreases |b|
  {
    if b == [] {
      assert a + b == a;
    } else {
      var init := b[..|b| - 1];
      MatchedJoins(sorted, a, init, path);
      assert (a + b)[..|a + b| - 1] == a + init;
    }
  }

  /**
    The excludes of a path: first those that lie in it, then, only for the root or else the first include,
    those that lie in none; within each of the two parts their order is kept.
   */
  lemma AssignedInTwoParts(includes: seq<string>, excludes: seq<string>, path: string) returns (n: nat)
    requires includes != []
    ensures n <= |Assigned(includes, excludes, path)|
    ensures
      var all := Assigned(includes, excludes, path);
      && (forall i :: 0 <= i < n ==> path != "/" && Covers(path, all[i]))
      && (forall i, y :: n <= i < |all| && y in includes ==> !Matches(y, all[i]))
      && (n < |all| ==> path == if "/" in includes then "/" else includes[0])
  {
    var sorted := SortByLength(includes);
    var own, left := Matched(sorted, excludes, Some(path)), Matched(sorted, excludes, None);
    n := |own|;
    SortByLengthSorts(includes);
    forall y
      ensures y in own ==> Matches(path, y)
      ensures y in left ==> forall x :: x in includes ==> !Matches(x, y)
    {
      InMatched(sorted, excludes, Some(path), y);
      InMatched(sorted, excludes, None, y);
      FirstMatchIsLongest(sorted, y);
    }
    var all := Assigned(includes, excludes, path);
    forall i | 0 <= i < n
      ensures path != "/" && Covers(path, all[i])
    {
      assert all[i] in own && Matches(path, all[i]);
    }
    assert forall i :: n <= i < |all| ==> all[i] in left;
  }
}
