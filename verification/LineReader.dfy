/** `_split_lines` and the `_reader`/`_emit` pair inside `run_command` of borg_engine.py, on decoded text. */
module LineReader {
  import Text

  predicate IsBreak(c: char) {
    c == '\r' || c == '\n'
  }

  /** `re.split("[\r\n]", s)` */
  function Pieces(s: string): (parts: seq<string>)
    ensures parts != []
    decreases |s|
  {
    if s == "" then [""]
    else
      var rest := Pieces(s[1..]);
      if IsBreak(s[0]) then [""] + rest else [[s[0]] + rest[0]] + rest[1..]
  }

  /** The pieces with one break character between each two of them. */
  function Woven(parts: seq<string>, breaks: string): string
    requires |parts| == |breaks| + 1
  {
    if breaks == "" then parts[0] else parts[0] + [breaks[0]] + Woven(parts[1..], breaks[1..])
  }

  lemma WovenWithHead(c: char, parts: seq<string>, breaks: string)
    requires |parts| == |breaks| + 1
    ensures Woven([[c] + parts[0]] + parts[1..], breaks) == [c] + Woven(parts, breaks)
  {
    var longer := [[c] + parts[0]] + parts[1..];
    assert longer[1..] == parts[1..];
    if breaks != "" {
      var rest := Woven(parts[1..], breaks[1..]);
      assert [c] + parts[0] + [breaks[0]] + rest == [c] + (parts[0] + [breaks[0]] + rest);
    } else {
      assert longer[0] == [c] + parts[0];
    }
  }

  /** The text is its pieces and single carriage returns or line feeds between them; no piece holds either. */
  lemma {:induction false} PiecesAre(s: string) returns (breaks: string)
    ensures |breaks| == |Pieces(s)| - 1 && Woven(Pieces(s), breaks) == s
    ensures forall i :: 0 <= i < |breaks| ==> breaks[i] as int == 13 || breaks[i] as int == 10
    ensures forall p :: p in Pieces(s) ==> '\r' !in p && '\n' !in p
    decreases |s|
  {
    breaks := "";
    if s != "" {
      var rest := Pieces(s[1..]);
      breaks := PiecesAre(s[1..]);
      assert s == [s[0]] + s[1..];
      if IsBreak(s[0]) {
        assert ([""] + rest)[1..] == rest && ([s[0]] + breaks)[1..] == breaks;
        breaks := [s[0]] + breaks;
      } else {
        assert rest[0] in rest;
        WovenWithHead(s[0], rest, breaks);
      }
    }
  }

  function Init(parts: seq<string>): seq<string>
    requires parts != []
  {
    parts[..|parts| - 1]
  }

  function Last(parts: seq<string>): string
    requires parts != []
  {
    parts[|parts| - 1]
  }

  function NonBlank(parts: seq<string>): seq<string> {
    if parts == [] then []
    else NonBlank(parts[..|parts| - 1]) + if Text.Strip(parts[|parts| - 1]) != "" then [parts[|parts| - 1]] else []
  }

  function Concat(chunks: seq<string>): string {
    if chunks == [] then "" else Concat(chunks[..|chunks| - 1]) + chunks[|chunks| - 1]
  }

  /** Cutting the last piece off and reading on from it gives the pieces of the whole. */
  lemma {:induction false} PiecesGoOn(s: string, t: string)
    ensures Pieces(s + t) == Init(Pieces(s)) + Pieces(Last(Pieces(s)) + t)
    decreases |s|
  {
    if s == "" {
      assert s + t == t && Last(Pieces(s)) + t == t;
    } else {
      var u := s + t;
      assert u[1..] == s[1..] + t;
      PiecesGoOn(s[1..], t);
      var rest := Pieces(s[1..]);
      if IsBreak(s[0]) {
        AfterBreak(rest, Pieces(Last(rest) + t));
      } else if |rest| > 1 {
        BeforeBreak(s[0], rest, Pieces(Last(rest) + t));
      } else {
        WithoutBreak(s[0], rest[0], t);
        assert Init(rest) == [] && Init(Pieces(s)) == [];
      }
    }
  }

  lemma AfterBreak(rest: seq<string>, more: seq<string>)
    requires rest != []
    ensures Last([""] + rest) == Last(rest)
    ensures Init([""] + rest) + more == [""] + (Init(rest) + more)
  {
    assert Init([""] + rest) == [""] + Init(rest);
  }

  lemma BeforeBreak(c: char, rest: seq<string>, more: seq<string>)
    requires |rest| > 1
    ensures
      var parts, all := [[c] + rest[0]] + rest[1..], Init(rest) + more;
      Last(parts) == Last(rest) && Init(parts) + more == [[c] + all[0]] + all[1..]
  {
    var parts, all := [[c] + rest[0]] + rest[1..], Init(rest) + more;
    assert all[1..] == Init(rest)[1..] + more;
    assert Init(parts) == [[c] + rest[0]] + Init(rest)[1..];
  }

  lemma WithoutBreak(c: char, piece: string, t: string)
    requires !IsBreak(c)
    ensures
      var rest := Pieces(piece + t);
      Pieces([c] + piece + t) == [[c] + rest[0]] + rest[1..]
  {
    var longer := [c] + piece + t;
    assert longer[1..] == piece + t;
  }

  lemma {:induction false} NonBlankLonger(a: seq<string>, b: seq<string>)
    ensures NonBlank(a + b) == NonBlank(a) + NonBlank(b)
    decreases |b|
  {
    if b == [] {
      assert a + b == a;
    } else {
      var init := b[..|b| - 1];
      assert (a + b)[..|a + b| - 1] == a + init;
      NonBlankLonger(a, init);
      var last := if Text.Strip(b[|b| - 1]) != "" then [b[|b| - 1]] else [];
      assert NonBlank(a) + (NonBlank(init) + last) == NonBlank(a) + NonBlank(init) + last;
    }
  }

  /** A line is told unless it is all white space. */
  lemma OneLine(line: string)
    ensures NonBlank([line]) == if Text.Strip(line) == "" then [] else [line]
  {
    assert [line][..0] == [];
  }

  lemma AppendAssociates(a: seq<string>, b: seq<string>, c: seq<string>)
    ensures a + b + c == a + (b + c)
  {}

  /** What one more chunk adds to the emitted lines and leaves in the buffer. */
  lemma NextPieces(s: string, t: string)
    ensures
      var parts := Pieces(Last(Pieces(s)) + t);
      && Last(Pieces(s + t)) == Last(parts)
      && NonBlank(Init(Pieces(s + t))) == NonBlank(Init(Pieces(s))) + NonBlank(Init(parts))
  {
    PiecesGoOn(s, t);
    var parts := Pieces(Last(Pieces(s)) + t);
    assert Init(Pieces(s + t)) == Init(Pieces(s)) + Init(parts);
    NonBlankLonger(Init(Pieces(s)), Init(parts));
  }

  lemma LastPiece(parts: seq<string>)
    requires parts != []
    ensures NonBlank(parts) == NonBlank(Init(parts)) + if Text.Strip(Last(parts)) != "" then [Last(parts)] else []
  {}

  /** Number of lines kept after `n` emitted ones: above 200 the oldest hundred goes. */
  function TailLength(n: nat): (k: nat)
    ensures k <= n && k <= 200
    ensures n <= 101 ==> k == n
    ensures n > 101 ==> k >= 101
  {
    if n <= 200 then n else 101 + (n - 201) % 100
  }

  class Sink {
    /** The lines handed to `on_line`, in order. */
    var emitted: seq<string>
    var stderrTail: seq<string>

    /** The tail is the end of what was emitted. */
    predicate Valid()
      reads this
    {
      && |stderrTail| == TailLength(|emitted|)
      && stderrTail == emitted[|emitted| - |stderrTail|..]
    }

    constructor ()
      ensures Valid() && emitted == []
    {
      emitted, stderrTail := [], [];
    }

    method Emit(text: string)
      requires Valid()
      modifies this
      ensures Valid() && emitted == old(emitted) + [text]
    {
      stderrTail := stderrTail + [text];
      if |stderrTail| > 200 {
        stderrTail := stderrTail[100..];
      }
      emitted := emitted + [text];
    }

    /** However the text is cut into chunks, exactly its non-blank lines are emitted. */
    method ReadStream(chunks: seq<string>)
      requires Valid()
      modifies this
      ensures Valid() && emitted == old(emitted) + NonBlank(Pieces(Concat(chunks)))
    {
      var buffer := "";
      ghost var text, lines: seq<string> := "", [];
      for i := 0 to |chunks|
        invariant Valid() && emitted == old(emitted) + lines
        invariant text == Concat(chunks[..i])
        invariant buffer == Last(Pieces(text)) && lines == NonBlank(Init(Pieces(text)))
      {
        assert chunks[..i + 1][..i] == chunks[..i];
        NextPieces(text, chunks[i]);
        ghost var more := NonBlank(Init(Pieces(buffer + chunks[i])));
        buffer := Feed(buffer, chunks[i]);
        AppendAssociates(old(emitted), lines, more);
        text, lines := text + chunks[i], lines + more;
      }
      assert chunks[..|chunks|] == chunks;
      LastPiece(Pieces(text));
      AppendAssociates(old(emitted), lines, [buffer]);
      if Text.Strip(buffer) != "" {
        Emit(buffer);
      }
    }

    /** One round of the loop of `_reader`. */
    method Feed(buffer: string, chunk: string) returns (rest: string)
      requires Valid()
      modifies this
      ensures Valid() && emitted == old(emitted) + NonBlank(Init(Pieces(buffer + chunk)))
      ensures rest == Last(Pieces(buffer + chunk))
    {
      var parts := Pieces(buffer + chunk);
      EmitAll(Init(parts));
      rest := Last(parts);
    }

    /** The inner loop of `_reader`. */
    method EmitAll(lines: seq<string>)
      requires Valid()
      modifies this
      ensures Valid() && emitted == old(emitted) + NonBlank(lines)
    {
      for j := 0 to |lines|
        invariant Valid() && emitted == old(emitted) + NonBlank(lines[..j])
      {
        assert lines[..j + 1][..j] == lines[..j];
        if Text.Strip(lines[j]) != "" {
          Emit(lines[j]);
        }
      }
      assert lines[..|lines|] == lines;
    }
  }
}
