/**
  `write_canary` and `check_canary_content` of borg_engine.py. SHA-256 is a parameter; only what
  `Digest` and `Injective` say is ever used of it.
 */
module Canary {
  import opened Text

  const HEADER := "BORG-CANARY-CHECK"
  const MARK := "SHA256:"

  type Hash = string -> string

  /** A digest is not empty and has neither white space at its ends nor line feeds. */
  ghost predicate Digest(sha: Hash) {
    forall s :: sha(s) != "" && Trimmed(sha(s)) && '\n' !in sha(s)
  }

  ghost predicate Injective(sha: Hash) {
    forall s, t :: sha(s) == sha(t) ==> s == t
  }

  function ContentLines(job: string, stamp: string): seq<string> {
    [HEADER, "Profile: " + job, "Timestamp: " + stamp]
  }

  function Content(job: string, stamp: string): string {
    Join(ContentLines(job, stamp), '\n') + "\n"
  }

  /** The text of the canary file. */
  function Written(sha: Hash, job: string, stamp: string): string {
    Join(ContentLines(job, stamp) + [MARK + " " + sha(Content(job, stamp))], '\n') + "\n"
  }

  datatype Verdict =
    | Empty
    | NoHash
    | Mismatch(stored: string)
    | Outdated(stored: string)
    | Verified(stored: string)

  predicate IsMark(line: string) {
    StartsWith(line, MARK)
  }

  function DataLines(lines: seq<string>): seq<string> {
    if lines == [] then []
    else DataLines(lines[..|lines| - 1]) + if IsMark(lines[|lines| - 1]) then [] else [lines[|lines| - 1]]
  }

  /** The stripped rest of the last hash line. */
  function Stored(lines: seq<string>): string {
    if lines == [] then ""
    else
      var last := lines[|lines| - 1];
      if IsMark(last) then Strip(last[|MARK|..]) else Stored(lines[..|lines| - 1])
  }

  function Data(text: string): string {
    Join(DataLines(Split(Strip(text), '\n')), '\n') + "\n"
  }

  function StoredHash(text: string): string {
    Stored(Split(Strip(text), '\n'))
  }

  method CheckCanaryContent(sha: Hash, text: string, expectedHash: string) returns (verdict: Verdict)
    ensures verdict == Check(sha, text, expectedHash)
  {
    if Strip(text) == "" {
      return Empty;
    }
    var stored := "";
    var dataLines: seq<string> := [];
    var lines := Split(Strip(text), '\n');
    for i := 0 to |lines|
      invariant dataLines == DataLines(lines[..i])
      invariant stored == Stored(lines[..i])
    {
      assert lines[..i + 1][..i] == lines[..i];
      if IsMark(lines[i]) {
        stored := Strip(lines[i][|MARK|..]);
      } else {
        dataLines := dataLines + [lines[i]];
      }
    }
    assert lines[..|lines|] == lines;
    if stored == "" {
      return NoHash;
    }
    if sha(Join(dataLines, '\n') + "\n") != stored {
      return Mismatch(stored);
    }
    if expectedHash != "" && stored != expectedHash {
      return Outdated(stored);
    }
    return Verified(stored);
  }

  function Check(sha: Hash, text: string, expectedHash: string): Verdict {
    var stored := StoredHash(text);
    if Strip(text) == "" then Empty
    else if stored == "" then NoHash
    else if sha(Data(text)) != stored then Mismatch(stored)
    else if expectedHash != "" && stored != expectedHash then Outdated(stored)
    else Verified(stored)
  }

  // ------------------------------------------------------- the file, spelt out

  lemma JoinOfThree(a: string, b: string, d: string, c: char)
    ensures Join([a, b, d], c) == a + [c] + b + [c] + d
  {
    assert [a, b, d][1..] == [b, d] && [b, d][1..] == [d];
    assert Join([d], c) == d && Join([b, d], c) == b + [c] + d;
    assert a + [c] + (b + [c] + d) == a + [c] + b + [c] + d;
  }

  /** The content is three lines, and the file is the content and a line with its hash. */
  lemma FileReads(sha: Hash, job: string, stamp: string)
    ensures Content(job, stamp) ==
            "BORG-CANARY-CHECK" + "\n" + ("Profile: " + job) + "\n" + ("Timestamp: " + stamp) + "\n"
    ensures Written(sha, job, stamp) == Content(job, stamp) + "SHA256: " + sha(Content(job, stamp)) + "\n"
  {
    JoinOfThree(HEADER, "Profile: " + job, "Timestamp: " + stamp, '\n');
    WrittenEnds(ContentLines(job, stamp), sha(Content(job, stamp)));
  }

  lemma WrittenEnds(lines: seq<string>, hash: string)
    requires lines != []
    ensures Join(lines + [MARK + " " + hash], '\n') + "\n" == Join(lines, '\n') + "\n" + "SHA256: " + hash + "\n"
  {
    JoinLonger(lines, '\n', MARK + " " + hash);
    assert MARK + " " + hash == "SHA256: " + hash;
    Regrouped(Join(lines, '\n'), "SHA256: ", hash);
  }

  lemma Regrouped(body: string, mark: string, hash: string)
    ensures body + (['\n'] + (mark + hash)) + "\n" == body + "\n" + mark + hash + "\n"
  {}

  /** The stored hash stands on the last line that starts with `SHA256:`, if there is one. */
  lemma {:induction false} StoredIs(lines: seq<string>, k: nat)
    requires k < |lines| && forall i :: k < i < |lines| ==> !StartsWith(lines[i], "SHA256:")
    ensures StartsWith(lines[k], "SHA256:") ==> Stored(lines) == Strip(lines[k][7..])
    ensures k == 0 && !StartsWith(lines[0], "SHA256:") ==> Stored(lines) == ""
    decreases |lines|
  {
    if k < |lines| - 1 {
      StoredIs(lines[..|lines| - 1], k);
    }
  }

  /** The data are all the other lines, in their order. */
  lemma {:induction false} DataSkipsMarks(before: seq<string>, line: string, after: seq<string>)
    ensures DataLines(before + [line] + after) ==
            DataLines(before) + (if StartsWith(line, "SHA256:") then [] else [line]) + DataLines(after)
    ensures DataLines([]) == []
    decreases |after|
  {
    var lines := before + [line] + after;
    if after == [] {
      assert lines[..|lines| - 1] == before;
    } else {
      var init, last := after[..|after| - 1], after[|after| - 1];
      assert lines[..|lines| - 1] == before + [line] + init && lines[|lines| - 1] == last;
      DataSkipsMarks(before, line, init);
    }
  }

  /** Which verdict a text gets: the first of four failures, or none of them. */
  lemma VerdictIs(sha: Hash, text: string, expectedHash: string)
    ensures
      var v, stored, data := Check(sha, text, expectedHash), StoredHash(text), Data(text);
      && (v == Empty <==> Strip(text) == "")
      && (v == NoHash <==> Strip(text) != "" && stored == "")
      && (v.Mismatch? <==> Strip(text) != "" && stored != "" && sha(data) != stored)
      && (v.Outdated? <==>
          Strip(text) != "" && stored != "" && sha(data) == stored && expectedHash != "" && stored != expectedHash)
      && (v.Verified? <==>
          Strip(text) != "" && stored != "" && sha(data) == stored && (expectedHash == "" || stored == expectedHash))
      && (v.Mismatch? || v.Outdated? || v.Verified? ==> v.stored == stored)
  {}

  // -------------------------------------------------------------- soundness

  /** Against the hash of a content the checker accepts exactly that content, under that hash. */
  lemma AcceptedIsWritten(sha: Hash, text: string, content: string)
    requires Digest(sha) && Injective(sha)
    ensures Check(sha, text, sha(content)).Verified? <==>
            Strip(text) != "" && Data(text) == content && StoredHash(text) == sha(content)
  {}

  // -------------------------------------------------------------- round trip

  lemma {:induction false} JoinNested(parts: seq<string>, rest: seq<string>)
    requires parts != [] && rest != []
    ensures Join([Join(parts, '\n')] + rest, '\n') == Join(parts + rest, '\n')
    decreases |parts|
  {
    var whole := parts + rest;
    if |parts| == 1 {
      assert [parts[0]] + rest == whole;
    } else {
      var tail := parts[1..];
      JoinNested(tail, rest);
      assert whole[1..] == tail + rest;
      var inner := Join(tail, '\n');
      assert ([inner] + rest)[1..] == rest && ([Join(parts, '\n')] + rest)[1..] == rest;
      assert parts[0] + ['\n'] + (inner + ['\n'] + Join(rest, '\n')) == parts[0] + ['\n'] + inner + ['\n'] + Join(rest, '\n');
    }
  }

  /** A prefix without line feeds only lengthens the first line. */
  lemma SplitWithPrefix(prefix: string, s: string)
    requires '\n' !in prefix
    ensures Split(prefix + s, '\n') == [prefix + Split(s, '\n')[0]] + Split(s, '\n')[1..]
  {
    var parts := Split(s, '\n');
    NoSeparatorInParts(s, '\n');
    JoinSplit(s, '\n');
    var longer := [prefix + parts[0]] + parts[1..];
    assert longer[1..] == parts[1..];
    if |parts| > 1 {
      assert prefix + (parts[0] + ['\n'] + Join(parts[1..], '\n')) == prefix + parts[0] + ['\n'] + Join(parts[1..], '\n');
    }
    SplitJoin(longer, '\n');
  }

  /** The lines of the content; a job name with line feeds spreads over several of them. */
  function NameLines(job: string, stamp: string): seq<string> {
    var name := Split(job, '\n');
    [HEADER] + ["Profile: " + name[0]] + name[1..] + ["Timestamp: " + stamp]
  }

  function HashLine(sha: Hash, job: string, stamp: string): string {
    MARK + " " + sha(Content(job, stamp))
  }

  function FileLines(sha: Hash, job: string, stamp: string): seq<string> {
    NameLines(job, stamp) + [HashLine(sha, job, stamp)]
  }

  lemma ContentIsJoined(job: string, stamp: string)
    ensures Join(ContentLines(job, stamp), '\n') == Join(NameLines(job, stamp), '\n')
  {
    var name := Split(job, '\n');
    var profile := ["Profile: " + name[0]] + name[1..];
    SplitWithPrefix("Profile: ", job);
    JoinSplit("Profile: " + job, '\n');
    JoinNested(profile, ["Timestamp: " + stamp]);
    var rest := profile + ["Timestamp: " + stamp];
    assert NameLines(job, stamp) == [HEADER] + rest && NameLines(job, stamp)[1..] == rest;
    assert ContentLines(job, stamp)[1..] == [Join(profile, '\n')] + ["Timestamp: " + stamp];
  }

  lemma FileIsJoined(sha: Hash, job: string, stamp: string)
    ensures Written(sha, job, stamp) == Join(FileLines(sha, job, stamp), '\n') + "\n"
  {
    ContentIsJoined(job, stamp);
    JoinLonger(NameLines(job, stamp), '\n', HashLine(sha, job, stamp));
    JoinLonger(ContentLines(job, stamp), '\n', HashLine(sha, job, stamp));
  }

  lemma NoBreaksInside(sha: Hash, job: string, stamp: string, line: string)
    requires Digest(sha) && '\n' !in stamp && line in FileLines(sha, job, stamp)
    ensures '\n' !in line
  {
    var name := Split(job, '\n');
    NoSeparatorInParts(job, '\n');
    assert line == HEADER || line == "Profile: " + name[0] || line in name[1..]
        || line == "Timestamp: " + stamp || line == HashLine(sha, job, stamp);
    assert '\n' !in name[0];
  }

  lemma BodyIsStripped(body: string)
    requires body != "" && Trimmed(body)
    ensures Strip(body + "\n") == body
  {
    var text := body + "\n";
    assert LeftStrip(text) == text;
    assert text[..|text| - 1] == body;
    assert RightStrip(body) == body;
  }

  lemma {:induction false} JoinEnds(parts: seq<string>)
    requires parts != [] && parts[0] != "" && parts[|parts| - 1] != ""
    ensures
      var s := Join(parts, '\n');
      s != "" && s[0] == parts[0][0] && s[|s| - 1] == parts[|parts| - 1][|parts[|parts| - 1]| - 1]
    decreases |parts|
  {
    if |parts| > 1 {
      var s, rest := Join(parts, '\n'), Join(parts[1..], '\n');
      if parts[1] != "" {
        JoinEnds(parts[1..]);
      } else {
        JoinEnd(parts[1..]);
      }
      assert s[|s| - 1] == rest[|rest| - 1];
    }
  }

  lemma {:induction false} JoinEnd(parts: seq<string>)
    requires parts != [] && parts[|parts| - 1] != ""
    ensures
      var s := Join(parts, '\n');
      s != "" && s[|s| - 1] == parts[|parts| - 1][|parts[|parts| - 1]| - 1]
    decreases |parts|
  {
    if |parts| > 1 {
      JoinEnd(parts[1..]);
    }
  }

  lemma WrittenLines(sha: Hash, job: string, stamp: string)
    requires Digest(sha) && '\n' !in stamp
    ensures Strip(Written(sha, job, stamp)) != ""
    ensures Split(Strip(Written(sha, job, stamp)), '\n') == FileLines(sha, job, stamp)
  {
    var lines := FileLines(sha, job, stamp);
    var body := Join(lines, '\n');
    FileIsJoined(sha, job, stamp);
    assert body != "" && Trimmed(body) by {
      assert lines[0] == HEADER && lines[|lines| - 1] == HashLine(sha, job, stamp);
      JoinEnds(lines);
    }
    BodyIsStripped(body);
    forall line | line in lines
      ensures '\n' !in line
    {
      NoBreaksInside(sha, job, stamp, line);
    }
    SplitJoin(lines, '\n');
  }

  lemma {:induction false} AllData(lines: seq<string>)
    requires forall i :: 0 <= i < |lines| ==> !IsMark(lines[i])
    ensures DataLines(lines) == lines
    decreases |lines|
  {
    if lines != [] {
      AllData(lines[..|lines| - 1]);
    }
  }

  function Total(lines: seq<string>): nat {
    if lines == [] then 0 else Total(lines[..|lines| - 1]) + |lines[|lines| - 1]| + 1
  }

  lemma {:induction false} JoinLength(lines: seq<string>)
    requires lines != []
    ensures |Join(lines, '\n')| + 1 == Total(lines)
    decreases |lines|
  {
    var init := lines[..|lines| - 1];
    if init != [] {
      JoinLength(init);
      JoinLonger(init, '\n', lines[|lines| - 1]);
      assert lines == init + [lines[|lines| - 1]];
    }
  }

  /** Dropping a hash line makes the text shorter. */
  lemma {:induction false} DataIsShorter(lines: seq<string>)
    ensures Total(DataLines(lines)) <= Total(lines)
    ensures (exists i :: 0 <= i < |lines| && IsMark(lines[i])) ==> Total(DataLines(lines)) < Total(lines)
    decreases |lines|
  {
    if lines != [] {
      DataIsShorter(lines[..|lines| - 1]);
      var data := DataLines(lines);
      if !IsMark(lines[|lines| - 1]) {
        assert data[..|data| - 1] == DataLines(lines[..|lines| - 1]);
      } else {
        assert data == DataLines(lines[..|lines| - 1]);
      }
    }
  }

  lemma {:induction false} HeaderIsData(lines: seq<string>)
    requires lines != [] && !IsMark(lines[0])
    ensures DataLines(lines) != []
    decreases |lines|
  {
    if |lines| > 1 {
      HeaderIsData(lines[..|lines| - 1]);
    }
  }

  /** A line of the job name after its first one that looks like a hash line. */
  predicate NameHasMark(job: string) {
    exists k :: 1 <= k < |Split(job, '\n')| && IsMark(Split(job, '\n')[k])
  }

  lemma HashLineIsStored(sha: Hash, job: string, stamp: string)
    requires Digest(sha)
    ensures IsMark(HashLine(sha, job, stamp))
    ensures Stored(FileLines(sha, job, stamp)) == sha(Content(job, stamp))
    ensures DataLines(FileLines(sha, job, stamp)) == DataLines(NameLines(job, stamp))
  {
    var hash := sha(Content(job, stamp));
    var last, lines := HashLine(sha, job, stamp), FileLines(sha, job, stamp);
    assert last[..|MARK|] == MARK && last[|MARK|..] == " " + hash;
    assert (" " + hash)[1..] == hash;
    assert LeftStrip(" " + hash) == LeftStrip(hash) == hash;
    assert RightStrip(hash) == hash;
    assert lines[..|lines| - 1] == NameLines(job, stamp);
  }

  lemma MarkedNameLines(job: string, stamp: string)
    ensures NameHasMark(job) <==> exists i :: 0 <= i < |NameLines(job, stamp)| && IsMark(NameLines(job, stamp)[i])
    ensures !IsMark(NameLines(job, stamp)[0])
  {
    var name, lines := Split(job, '\n'), NameLines(job, stamp);
    assert lines[0] == HEADER && lines[1] == "Profile: " + name[0];
    assert lines[|lines| - 1] == "Timestamp: " + stamp;
    assert lines[0][0] == 'B' && lines[1][0] == 'P' && lines[|lines| - 1][0] == 'T';
    assert forall k :: 1 <= k < |name| ==> lines[k + 1] == name[k];
    if i :| 0 <= i < |lines| && IsMark(lines[i]) {
      assert lines[i][0] == 'S';
      assert IsMark(name[i - 1]);
    }
    if NameHasMark(job) {
      var k :| 1 <= k < |name| && IsMark(name[k]);
      assert IsMark(lines[k + 1]);
    }
  }

  /** What the checker takes as the data of a written file is the content, unless a line was taken for a hash. */
  lemma WrittenData(sha: Hash, job: string, stamp: string)
    requires Digest(sha) && '\n' !in stamp
    ensures StoredHash(Written(sha, job, stamp)) == sha(Content(job, stamp))
    ensures Data(Written(sha, job, stamp)) == Content(job, stamp) <==> !NameHasMark(job)
  {
    var lines := NameLines(job, stamp);
    WrittenLines(sha, job, stamp);
    HashLineIsStored(sha, job, stamp);
    ContentIsJoined(job, stamp);
    MarkedNameLines(job, stamp);
    if NameHasMark(job) {
      DataIsShorter(lines);
      HeaderIsData(lines);
      JoinLength(lines);
      JoinLength(DataLines(lines));
    } else {
      AllData(lines);
    }
  }

  /**
    The checker accepts what the writer wrote, with its hash, exactly when no further line of the job
    name starts like a hash line.
   */
  lemma WrittenIsAccepted(sha: Hash, job: string, stamp: string)
    requires Digest(sha) && Injective(sha) && '\n' !in stamp
    ensures
      var hash := sha(Content(job, stamp));
      Check(sha, Written(sha, job, stamp), hash) == Verified(hash) <==> !NameHasMark(job)
  {
    WrittenLines(sha, job, stamp);
    WrittenData(sha, job, stamp);
    AcceptedIsWritten(sha, Written(sha, job, stamp), Content(job, stamp));
  }

  /** A job name without line feeds, as validation demands, always passes; no injectivity is needed. */
  lemma ValidNameIsAccepted(sha: Hash, job: string, stamp: string)
    requires Digest(sha) && '\n' !in stamp && '\n' !in job
    ensures
      var hash := sha(Content(job, stamp));
      Check(sha, Written(sha, job, stamp), hash) == Verified(hash)
  {
    FindAfter(job, '\n', "");
    WrittenLines(sha, job, stamp);
    WrittenData(sha, job, stamp);
  }

  const MARKED_NAME := "a\nSHA256:"

  lemma MarkedNameLinesAre()
    ensures Split(MARKED_NAME, '\n') == ["a", MARK]
  {
    FindAfter("a", '\n', MARK);
    FindAfter(MARK, '\n', "");
    assert MARKED_NAME == "a" + ['\n'] + MARK;
    assert MARKED_NAME[2..] == MARK && MARKED_NAME[..1] == "a";
    assert Split(MARK, '\n') == [MARK];
  }

  /** A job name of two lines, the second one a bare mark: the checker refuses what was written for it. */
  lemma MarkedNameIsRefused(sha: Hash, stamp: string)
    requires Digest(sha) && Injective(sha) && '\n' !in stamp
    ensures NameHasMark(MARKED_NAME)
    ensures
      var hash := sha(Content(MARKED_NAME, stamp));
      Check(sha, Written(sha, MARKED_NAME, stamp), hash) != Verified(hash)
  {
    MarkedNameLinesAre();
    assert IsMark(Split(MARKED_NAME, '\n')[1]);
    WrittenIsAccepted(sha, MARKED_NAME, stamp);
  }
}
