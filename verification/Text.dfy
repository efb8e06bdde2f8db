/**
  The parts of Python's `str` that the modelled code relies on: `strip`, `lower`, `split`,
  `join`, `startswith` and `int()`. Letters and digits are ASCII; white space is Python's set.
 */
module Text {
  import opened Wrappers

  predicate IsSpace(c: char) {
    var n := c as int;
    || 9 <= n <= 13 || 28 <= n <= 32 || n == 0x85 || n == 0xA0 || n == 0x1680
    || 0x2000 <= n <= 0x200A || n == 0x2028 || n == 0x2029 || n == 0x202F || n == 0x205F || n == 0x3000
  }

  predicate IsDigit(c: char) {
    '0' <= c <= '9'
  }

  function DigitValue(c: char): nat
    requires IsDigit(c)
  {
    c as int - '0' as int
  }

  function LeftStrip(s: string): string {
    if s != [] && IsSpace(s[0]) then LeftStrip(s[1..]) else s
  }

  function RightStrip(s: string): string {
    if s != [] && IsSpace(s[|s| - 1]) then RightStrip(s[..|s| - 1]) else s
  }

  function Strip(s: string): string {
    RightStrip(LeftStrip(s))
  }

  /** No white space at either end. */
  predicate Trimmed(s: string) {
    s == [] || (!IsSpace(s[0]) && !IsSpace(s[|s| - 1]))
  }

  lemma {:induction false} RightStripKeepsHead(s: string)
    requires s != [] && !IsSpace(s[0])
    ensures RightStrip(s) != [] && RightStrip(s)[0] == s[0]
    ensures !IsSpace(RightStrip(s)[|RightStrip(s)| - 1])
    decreases |s|
  {
    if IsSpace(s[|s| - 1]) {
      assert |s| > 1;
      RightStripKeepsHead(s[..|s| - 1]);
    }
  }

  lemma {:induction false} LeftStripHead(s: string)
    ensures LeftStrip(s) == [] || !IsSpace(LeftStrip(s)[0])
  {
    if s != [] && IsSpace(s[0]) {
      LeftStripHead(s[1..]);
    }
  }

  lemma StripTrims(s: string)
    ensures Trimmed(Strip(s))
    ensures Trimmed(s) ==> Strip(s) == s
  {
    LeftStripHead(s);
    if LeftStrip(s) != [] {
      RightStripKeepsHead(LeftStrip(s));
    }
  }

  lemma {:induction false} LeftStripIs(s: string) returns (left: string)
    ensures s == left + LeftStrip(s) && forall i :: 0 <= i < |left| ==> IsSpace(left[i])
  {
    left := "";
    if s != [] && IsSpace(s[0]) {
      var more := LeftStripIs(s[1..]);
      left := [s[0]] + more;
      assert s == [s[0]] + s[1..];
    }
  }

  lemma {:induction false} RightStripIs(s: string) returns (right: string)
    ensures s == RightStrip(s) + right && forall i :: 0 <= i < |right| ==> IsSpace(right[i])
    decreases |s|
  {
    right := "";
    if s != [] && IsSpace(s[|s| - 1]) {
      var more := RightStripIs(s[..|s| - 1]);
      right := more + [s[|s| - 1]];
      assert s == s[..|s| - 1] + [s[|s| - 1]];
    }
  }

  /** What is taken away is white space, and all of it: no other text is left over that starts and ends without. */
  lemma StripIs(s: string) returns (left: string, right: string)
    ensures s == left + Strip(s) + right && Trimmed(Strip(s))
    ensures forall i :: 0 <= i < |left| ==> IsSpace(left[i])
    ensures forall i :: 0 <= i < |right| ==> IsSpace(right[i])
  {
    left := LeftStripIs(s);
    right := RightStripIs(LeftStrip(s));
    StripTrims(s);
  }

  /** The white space of ASCII: tab to carriage return, the four separators, and the blank. */
  lemma AsciiSpaces(c: char)
    requires c as int < 128
    ensures IsSpace(c) <==> c as int in {9, 10, 11, 12, 13, 28, 29, 30, 31, 32}
  {}

  function LowerChar(c: char): char {
    if 'A' <= c <= 'Z' then c - 'A' + 'a' else c
  }

  lemma LowerCharIsAscii(c: char)
    ensures LowerChar(c) as int == if 65 <= c as int <= 90 then c as int + 32 else c as int
  {}

  function Lower(s: string): string {
    if s == [] then [] else [LowerChar(s[0])] + Lower(s[1..])
  }

  lemma {:induction false} LowerAt(s: string)
    ensures |Lower(s)| == |s|
    ensures forall i :: 0 <= i < |s| ==> Lower(s)[i] == LowerChar(s[i])
  {
    if s != [] {
      LowerAt(s[1..]);
      assert forall i :: 1 <= i < |s| ==> s[i] == s[1..][i - 1];
    }
  }

  lemma LowerTwice(s: string)
    ensures Lower(Lower(s)) == Lower(s)
    ensures Trimmed(s) ==> Trimmed(Lower(s))
  {
    LowerAt(s);
    LowerAt(Lower(s));
  }

  predicate StartsWith(s: string, p: string) {
    |p| <= |s| && s[..|p|] == p
  }

  /** Index of the first `c` in `s`, or |s|. */
  function Find(s: string, c: char): (i: nat)
    ensures i <= |s|
    ensures c !in s[..i]
    ensures i < |s| ==> s[i] == c
  {
    if s == [] || s[0] == c then 0
    else
      var r := Find(s[1..], c);
      assert s[..r + 1] == [s[0]] + s[1..][..r];
      r + 1
  }

  /** `s.split(c)`. */
  function Split(s: string, c: char): (parts: seq<string>)
    ensures |parts| > 0
    decreases |s|
  {
    var i := Find(s, c);
    if i == |s| then [s] else [s[..i]] + Split(s[i + 1..], c)
  }

  lemma {:induction false} NoSeparatorInParts(s: string, c: char)
    ensures forall p :: p in Split(s, c) ==> c !in p
    decreases |s|
  {
    var i := Find(s, c);
    if i == |s| {
      assert s[..i] == s;
    } else {
      NoSeparatorInParts(s[i + 1..], c);
    }
  }

  /** `c.join(parts)`. */
  function Join(parts: seq<string>, c: char): string {
    if |parts| == 0 then []
    else if |parts| == 1 then parts[0]
    else parts[0] + [c] + Join(parts[1..], c)
  }

  lemma {:induction false} JoinLonger(parts: seq<string>, c: char, p: string)
    requires |parts| > 0
    ensures Join(parts + [p], c) == Join(parts, c) + ([c] + p)
    decreases |parts|
  {
    var longer := parts + [p];
    assert longer[0] == parts[0];
    if |parts| == 1 {
      assert longer[1..] == [p];
      assert parts[0] + [c] + p == parts[0] + ([c] + p);
    } else {
      assert longer[1..] == parts[1..] + [p];
      JoinLonger(parts[1..], c, p);
      var rest := Join(parts[1..], c);
      assert parts[0] + [c] + (rest + ([c] + p)) == parts[0] + [c] + rest + ([c] + p);
    }
  }

  lemma {:induction false} JoinTail(parts: seq<string>, c: char, p: string)
    requires |parts| > 0
    ensures Join(parts[..|parts| - 1] + [parts[|parts| - 1] + p], c) == Join(parts, c) + p
    decreases |parts|
  {
    var longer := parts[..|parts| - 1] + [parts[|parts| - 1] + p];
    if |parts| > 1 {
      var rest := parts[1..];
      assert longer[0] == parts[0];
      assert longer[1..] == rest[..|rest| - 1] + [rest[|rest| - 1] + p];
      JoinTail(rest, c, p);
      assert parts[0] + [c] + (Join(rest, c) + p) == parts[0] + [c] + Join(rest, c) + p;
    }
  }

  /** Splitting text with one more part, or with a longer last part. */
  lemma SplitLonger(s: string, c: char, p: string)
    requires c !in p
    ensures Split(s + ([c] + p), c) == Split(s, c) + [p]
    ensures Split(s + p, c) == Split(s, c)[..|Split(s, c)| - 1] + [Split(s, c)[|Split(s, c)| - 1] + p]
  {
    var parts := Split(s, c);
    NoSeparatorInParts(s, c);
    JoinSplit(s, c);
    JoinLonger(parts, c, p);
    SplitJoin(parts + [p], c);
    JoinTail(parts, c, p);
    SplitJoin(parts[..|parts| - 1] + [parts[|parts| - 1] + p], c);
  }

  lemma {:induction false} FindAfter(p: string, c: char, rest: string)
    requires c !in p
    ensures Find(p + [c] + rest, c) == |p|
    ensures Find(p, c) == |p|
  {
    var s := p + [c] + rest;
    assert s[|p|] == c;
    assert forall i :: 0 <= i < |p| ==> s[i] in p;
  }

  /** Splitting undoes joining as long as no part contains the separator. */
  lemma {:induction false} SplitJoin(parts: seq<string>, c: char)
    requires |parts| > 0
    requires forall p :: p in parts ==> c !in p
    ensures Split(Join(parts, c), c) == parts
    decreases |parts|
  {
    if |parts| == 1 {
      FindAfter(parts[0], c, "");
      assert Split(parts[0], c) == [parts[0]];
    } else {
      var rest := Join(parts[1..], c);
      var s := parts[0] + [c] + rest;
      FindAfter(parts[0], c, rest);
      assert s[..|parts[0]|] == parts[0];
      assert s[|parts[0]| + 1..] == rest;
      SplitJoin(parts[1..], c);
      assert parts == [parts[0]] + parts[1..];
    }
  }

  /** Joining undoes splitting. */
  lemma {:induction false} JoinSplit(s: string, c: char)
    ensures Join(Split(s, c), c) == s
    decreases |s|
  {
    var i := Find(s, c);
    if i < |s| {
      JoinSplit(s[i + 1..], c);
      JoinWithHead(s[..i], Split(s[i + 1..], c), c);
      CutAround(s, i);
    }
  }

  lemma CutAround(s: string, i: nat)
    requires i < |s|
    ensures s == s[..i] + [s[i]] + s[i + 1..]
  {}

  lemma JoinWithHead(head: string, parts: seq<string>, c: char)
    requires parts != []
    ensures Join([head] + parts, c) == head + [c] + Join(parts, c)
  {
    assert ([head] + parts)[1..] == parts;
  }

  predicate AllDigits(s: string) {
    s != [] && forall i :: 0 <= i < |s| ==> IsDigit(s[i])
  }

  function DigitsValue(s: string): nat
    requires forall i :: 0 <= i < |s| ==> IsDigit(s[i])
  {
    if s == [] then 0 else 10 * DigitsValue(s[..|s| - 1]) + DigitValue(s[|s| - 1])
  }

  /** Decimal notation: ten digits, each counting ten times as much as the one after it. */
  lemma DigitsAreDecimal(s: string, k: nat)
    requires AllDigits(s) && k < 10
    ensures DigitValue("0123456789"[k]) == k
    ensures DigitsValue([]) == 0
    ensures DigitsValue(s) == 10 * DigitsValue(s[..|s| - 1]) + (s[|s| - 1] as int - 48)
  {}

  lemma ShortNumbers(s: string)
    requires AllDigits(s) && |s| <= 2
    ensures DigitsValue(s) == if |s| == 1 then DigitValue(s[0]) else 10 * DigitValue(s[0]) + DigitValue(s[1])
  {
    var init := s[..|s| - 1];
    if |s| == 2 {
      assert init[..0] == [];
    }
  }

  /** Digits with single underscores between them, as `int()` accepts. */
  predicate IsNumeral(s: string)
    decreases |s|
  {
    s != [] && IsDigit(s[0]) &&
    (|s| == 1 || IsNumeral(s[1..]) || (s[1] == '_' && |s| > 2 && IsNumeral(s[2..])))
  }

  function DropUnderscores(s: string): string {
    if s == [] then []
    else if s[0] == '_' then DropUnderscores(s[1..])
    else [s[0]] + DropUnderscores(s[1..])
  }

  lemma {:induction false} NumeralDigits(s: string)
    requires IsNumeral(s)
    ensures AllDigits(DropUnderscores(s))
    decreases |s|
  {
    if |s| == 1 {
      assert DropUnderscores(s[1..]) == [];
    } else if s[1] == '_' {
      assert s[1..][0] == '_';
      assert s[1..][1..] == s[2..];
      NumeralDigits(s[2..]);
    } else {
      NumeralDigits(s[1..]);
    }
  }

  /** `int(text)`; `None` stands for the ValueError. */
  function ParseInt(text: string): Option<int> {
    var s := Strip(text);
    var negative := s != [] && s[0] == '-';
    var body := if s != [] && (s[0] == '-' || s[0] == '+') then s[1..] else s;
    if !IsNumeral(body) then None
    else
      NumeralDigits(body);
      var n: int := DigitsValue(DropUnderscores(body));
      Some(if negative then -n else n)
  }

  lemma {:induction false} PlainNumeral(s: string)
    requires AllDigits(s)
    ensures IsNumeral(s) && DropUnderscores(s) == s
    decreases |s|
  {
    if |s| > 1 {
      PlainNumeral(s[1..]);
    } else {
      assert DropUnderscores(s[1..]) == [];
    }
  }

  lemma DigitsAreTrimmed(s: string)
    requires AllDigits(s)
    ensures Strip(s) == s
    ensures ParseInt(s) == Some(DigitsValue(s))
  {
    StripTrims(s);
    PlainNumeral(s);
  }

  lemma SignedDigits(s: string)
    requires AllDigits(s)
    ensures ParseInt("-" + s) == Some(-(DigitsValue(s) as int)) && ParseInt("+" + s) == Some(DigitsValue(s))
  {
    SignedIsTrimmed('-', s);
    SignedIsTrimmed('+', s);
    PlainNumeral(s);
  }

  lemma SignedIsTrimmed(sign: char, s: string)
    requires AllDigits(s) && (sign == '-' || sign == '+')
    ensures Strip([sign] + s) == [sign] + s && ([sign] + s)[1..] == s
  {
    StripTrims([sign] + s);
  }

  // ------------------------------------------------------------------ lists

  /** The first occurrences, in order. */
  function Dedup(s: seq<string>): seq<string> {
    if s == [] then []
    else
      var init, last := Dedup(s[..|s| - 1]), s[|s| - 1];
      if last in init then init else init + [last]
  }

  lemma DedupLast(s: seq<string>, x: string)
    ensures Dedup(s + [x]) == if x in Dedup(s) then Dedup(s) else Dedup(s) + [x]
  {
    assert (s + [x])[..|s|] == s;
  }

  /** `Dedup` keeps exactly the elements, each once. */
  lemma {:induction false} DedupKeeps(s: seq<string>, x: string)
    ensures x in Dedup(s) <==> x in s
    ensures forall i, j :: 0 <= i < j < |Dedup(s)| ==> Dedup(s)[i] != Dedup(s)[j]
    decreases |s|
  {
    if s != [] {
      DedupKeeps(s[..|s| - 1], x);
      assert s == s[..|s| - 1] + [s[|s| - 1]];
    }
  }

  /** The kept elements stand where they first occurred: adding to a list never moves or removes what was kept. */
  lemma {:induction false} DedupGrows(s: seq<string>, n: nat)
    requires n <= |s|
    ensures Dedup(s[..n]) <= Dedup(s)
    decreases |s| - n
  {
    if n < |s| {
      DedupGrows(s, n + 1);
      assert s[..n + 1] == s[..n] + [s[n]];
      DedupLast(s[..n], s[n]);
    } else {
      assert s[..n] == s;
    }
  }
}
