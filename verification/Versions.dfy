/** `is_version_newer` of borg_updates.py: dotted versions, compared after padding with zeros. */
module Versions {
  import Text

  function LeadingDigits(part: string): (r: string)
    ensures forall i :: 0 <= i < |r| ==> Text.IsDigit(r[i])
  {
    if part == "" || !Text.IsDigit(part[0]) then "" else [part[0]] + LeadingDigits(part[1..])
  }

  function Component(part: string): nat {
    Text.DigitsValue(LeadingDigits(part))
  }

  function Components(parts: seq<string>): (r: seq<nat>)
    ensures |r| == |parts|
    ensures forall i :: 0 <= i < |r| ==> r[i] == Component(parts[i])
  {
    seq(|parts|, i requires 0 <= i < |parts| => Component(parts[i]))
  }

  function DropV(s: string): string {
    if s != "" && (s[0] == 'v' || s[0] == 'V') then s[1..] else s
  }

  function Parse(value: string): seq<nat> {
    Components(Text.Split(DropV(Text.Strip(value)), '.'))
  }

  function Padded(v: seq<nat>, width: nat): (r: seq<nat>)
    requires |v| <= width
    ensures |r| == width
  {
    v + seq(width - |v|, _ => 0)
  }

  /** Python's `>` on lists of the same length. */
  predicate ListGreater(a: seq<nat>, b: seq<nat>)
    requires |a| == |b|
  {
    a != [] && (a[0] > b[0] || (a[0] == b[0] && ListGreater(a[1..], b[1..])))
  }

  predicate IsVersionNewer(remote: string, local: string) {
    var left, right := Parse(remote), Parse(local);
    var width := if |left| >= |right| then |left| else |right|;
    ListGreater(Padded(left, width), Padded(right, width))
  }

  // ------------------------------------------------- an order without padding

  /** Component `i` of a version that goes on with zeros for ever. */
  function At(v: seq<nat>, i: nat): nat {
    if i < |v| then v[i] else 0
  }

  ghost predicate FirstDifference(a: seq<nat>, b: seq<nat>, i: nat) {
    At(a, i) > At(b, i) && forall j: nat :: j < i ==> At(a, j) == At(b, j)
  }

  ghost predicate Greater(a: seq<nat>, b: seq<nat>) {
    exists i: nat :: FirstDifference(a, b, i)
  }

  lemma {:induction false} ListGreaterIsGreater(a: seq<nat>, b: seq<nat>)
    requires |a| == |b|
    ensures ListGreater(a, b) <==> Greater(a, b)
    decreases |a|
  {
    if a == [] {
      assert forall i: nat :: !FirstDifference(a, b, i);
    } else {
      ListGreaterIsGreater(a[1..], b[1..]);
      assert forall i: nat :: At(a[1..], i) == At(a, i + 1) && At(b[1..], i) == At(b, i + 1);
      if a[0] > b[0] {
        assert FirstDifference(a, b, 0);
      }
      if a[0] == b[0] && Greater(a[1..], b[1..]) {
        var i: nat :| FirstDifference(a[1..], b[1..], i);
        forall j: nat | j < i + 1
          ensures At(a, j) == At(b, j)
        {
          if j > 0 {
            assert At(a[1..], j - 1) == At(b[1..], j - 1);
          }
        }
        assert FirstDifference(a, b, i + 1);
      }
      if Greater(a, b) {
        var i: nat :| FirstDifference(a, b, i);
        if i > 0 {
          assert At(a, 0) == At(b, 0);
          assert FirstDifference(a[1..], b[1..], i - 1);
        }
      }
    }
  }

  lemma SameAtSameOrder(a: seq<nat>, b: seq<nat>, a': seq<nat>, b': seq<nat>)
    requires forall i: nat :: At(a, i) == At(a', i) && At(b, i) == At(b', i)
    requires Greater(a, b)
    ensures Greater(a', b')
  {
    var i: nat :| FirstDifference(a, b, i);
    assert FirstDifference(a', b', i);
  }

  lemma NewerIsGreater(remote: string, local: string)
    ensures IsVersionNewer(remote, local) <==> Greater(Parse(remote), Parse(local))
  {
    var left, right := Parse(remote), Parse(local);
    var width := if |left| >= |right| then |left| else |right|;
    var l, r := Padded(left, width), Padded(right, width);
    ListGreaterIsGreater(l, r);
    assert forall i: nat :: At(l, i) == At(left, i) && At(r, i) == At(right, i);
    if Greater(l, r) {
      SameAtSameOrder(l, r, left, right);
    }
    if Greater(left, right) {
      SameAtSameOrder(left, right, l, r);
    }
  }

  // ------------------------------------------------------------ a total preorder

  lemma GreaterIsAsymmetric(a: seq<nat>, b: seq<nat>)
    requires Greater(a, b)
    ensures !Greater(b, a)
  {
    var i: nat :| FirstDifference(a, b, i);
    assert At(a, i) > At(b, i);
  }

  lemma GreaterSplits(a: seq<nat>, b: seq<nat>, c: seq<nat>)
    requires Greater(a, c)
    ensures Greater(a, b) || Greater(b, c)
  {
    var i: nat :| FirstDifference(a, c, i);
    if j: nat :| j <= i && At(a, j) != At(b, j) {
      LeastDifference(a, b, c, i, j);
    } else {
      assert FirstDifference(b, c, i);
    }
  }

  lemma {:induction false} LeastDifference(a: seq<nat>, b: seq<nat>, c: seq<nat>, i: nat, j: nat)
    requires FirstDifference(a, c, i) && j <= i && At(a, j) != At(b, j)
    ensures Greater(a, b) || Greater(b, c)
    decreases j
  {
    if k: nat :| k < j && At(a, k) != At(b, k) {
      LeastDifference(a, b, c, i, k);
    } else if At(a, j) > At(b, j) {
      assert FirstDifference(a, b, j);
    } else {
      assert FirstDifference(b, c, j);
    }
  }

  /** Newer is a strict order: never of itself, and never both ways. */
  lemma NewerIsAsymmetric(a: string, b: string)
    ensures !IsVersionNewer(a, a)
    ensures IsVersionNewer(a, b) ==> !IsVersionNewer(b, a)
  {
    NewerIsGreater(a, a);
    NewerIsGreater(a, b);
    NewerIsGreater(b, a);
    if Greater(Parse(a), Parse(a)) {
      GreaterIsAsymmetric(Parse(a), Parse(a));
    }
    if Greater(Parse(a), Parse(b)) {
      GreaterIsAsymmetric(Parse(a), Parse(b));
    }
  }

  /** Not-newer is transitive and, with asymmetry, a total preorder, whatever the component counts. */
  lemma NotNewerIsTransitive(a: string, b: string, c: string)
    requires !IsVersionNewer(a, b) && !IsVersionNewer(b, c)
    ensures !IsVersionNewer(a, c)
  {
    NewerIsGreater(a, b);
    NewerIsGreater(b, c);
    NewerIsGreater(a, c);
    if Greater(Parse(a), Parse(c)) {
      GreaterSplits(Parse(a), Parse(b), Parse(c));
    }
  }

  lemma NewerIsTransitive(a: string, b: string, c: string)
    requires IsVersionNewer(a, b) && IsVersionNewer(b, c)
    ensures IsVersionNewer(a, c)
  {
    NewerIsAsymmetric(b, c);
    if !IsVersionNewer(a, c) {
      NotNewerIsTransitive(a, c, b);
    }
  }

  // ------------------------------------------------------------ trailing zeros

  lemma {:induction false} DigitsBeforeSpace(part: string, space: string)
    requires space == "" || !Text.IsDigit(space[0])
    ensures LeadingDigits(part + space) == LeadingDigits(part)
    decreases |part|
  {
    if part == "" {
      assert part + space == space;
    } else {
      assert (part + space)[1..] == part[1..] + space;
      DigitsBeforeSpace(part[1..], space);
    }
  }

  /** `strip` before a suffix that ends in no white space only works on the left. */
  lemma {:induction false} LeftStripLonger(s: string, p: string)
    requires p != "" && !Text.IsSpace(p[0])
    ensures Text.LeftStrip(s + p) == Text.LeftStrip(s) + p
    decreases |s|
  {
    if s == "" {
      assert s + p == p;
    } else if Text.IsSpace(s[0]) {
      assert (s + p)[1..] == s[1..] + p;
      LeftStripLonger(s[1..], p);
    }
  }

  lemma TailIsIgnored(body: string, space: string)
    requires forall i :: 0 <= i < |space| ==> Text.IsSpace(space[i])
    ensures Components(Text.Split(body + space, '.')) == Components(Text.Split(body, '.'))
  {
    NoDotInSpace(space);
    Text.SplitLonger(body, '.', space);
    SpaceAfterLast(Text.Split(body, '.'), space);
  }

  lemma NoDotInSpace(space: string)
    requires forall i :: 0 <= i < |space| ==> Text.IsSpace(space[i])
    ensures '.' !in space
  {}

  lemma SpaceAfterLast(parts: seq<string>, space: string)
    requires parts != [] && forall i :: 0 <= i < |space| ==> Text.IsSpace(space[i])
    ensures Components(parts[..|parts| - 1] + [parts[|parts| - 1] + space]) == Components(parts)
  {
    var last := parts[|parts| - 1];
    assert space != "" ==> !Text.IsDigit(space[0]);
    DigitsBeforeSpace(last, space);
    SameComponents(parts[..|parts| - 1] + [last + space], parts);
  }

  lemma SameComponents(a: seq<string>, b: seq<string>)
    requires |a| == |b| && forall i :: 0 <= i < |a| ==> Component(a[i]) == Component(b[i])
    ensures Components(a) == Components(b)
  {}

  lemma ZeroPart()
    ensures Component("0") == 0
  {
    assert LeadingDigits("0") == "0";
    Text.ShortNumbers("0");
  }

  /** The text before the first strip of a version, cut into its stripped core and white space. */
  lemma StripBeforeZero(version: string) returns (space: string)
    ensures forall i :: 0 <= i < |space| ==> Text.IsSpace(space[i])
    ensures DropV(Text.Strip(version + ".0")) == DropV(Text.Strip(version)) + space + (['.'] + "0")
  {
    var left := Text.LeftStrip(version);
    space := Text.RightStripIs(left);
    StripOfLonger(version);
    DropVKeepsTail(Text.RightStrip(left), space + ".0");
    Text.LeftStripHead(version);
    if left != "" {
      Text.RightStripKeepsHead(left);
    }
    assert DropV(Text.RightStrip(left)) + (space + ".0") == DropV(Text.Strip(version)) + space + (['.'] + "0");
    assert left + ".0" == Text.RightStrip(left) + (space + ".0");
  }

  lemma StripOfLonger(version: string)
    ensures Text.Strip(version + ".0") == Text.LeftStrip(version) + ".0"
  {
    LeftStripLonger(version, ".0");
    var full := Text.LeftStrip(version) + ".0";
    assert full[|full| - 1] == '0';
    assert Text.RightStrip(full) == full;
  }

  lemma DropVKeepsTail(head: string, tail: string)
    requires head != "" || (tail != "" && tail[0] != 'v' && tail[0] != 'V')
    ensures DropV(head + tail) == DropV(head) + tail
  {
    if head == "" {
      assert head + tail == tail;
    } else {
      assert (head + tail)[1..] == head[1..] + tail;
    }
  }

  lemma ParseWithZero(version: string)
    ensures Parse(version + ".0") == Parse(version) + [0]
  {
    var space := StripBeforeZero(version);
    var body := DropV(Text.Strip(version));
    Text.SplitLonger(body + space, '.', "0");
    TailIsIgnored(body, space);
    ZeroPart();
  }

  /** Trailing ".0" components never change the answer. */
  lemma TrailingZeroIsIgnored(a: string, b: string)
    ensures IsVersionNewer(a + ".0", b) == IsVersionNewer(a, b)
    ensures IsVersionNewer(b, a + ".0") == IsVersionNewer(b, a)
  {
    var x, y, z := Parse(a + ".0"), Parse(a), Parse(b);
    NewerIsGreater(a + ".0", b);
    NewerIsGreater(a, b);
    NewerIsGreater(b, a + ".0");
    NewerIsGreater(b, a);
    ParseWithZero(a);
    assert forall i: nat :: At(x, i) == At(y, i);
    if Greater(x, z) {
      SameAtSameOrder(x, z, y, z);
    }
    if Greater(y, z) {
      SameAtSameOrder(y, z, x, z);
    }
    if Greater(z, x) {
      SameAtSameOrder(z, x, z, y);
    }
    if Greater(z, y) {
      SameAtSameOrder(z, y, z, x);
    }
  }

  /** A version of one digit is that digit. */
  lemma OneDigitVersion(c: char)
    requires Text.IsDigit(c)
    ensures Text.Strip([c]) == [c] && Parse([c]) == [Text.DigitValue(c)]
  {
    Text.StripTrims([c]);
    Text.FindAfter([c], '.', "");
    assert Text.Split([c], '.') == [[c]];
    assert LeadingDigits([c]) == [c];
    Text.ShortNumbers([c]);
  }

  // --------------------------------------------- versions as they are written

  /** One component: digits, perhaps none, and whatever follows them. */
  datatype Part = Part(digits: string, rest: string) {
    predicate Proper() {
      && (forall i :: 0 <= i < |digits| ==> Text.IsDigit(digits[i]))
      && '.' !in rest && (rest != "" ==> !Text.IsDigit(rest[0]))
    }

    function Written(): string {
      digits + rest
    }
  }

  function Texts(parts: seq<Part>): (texts: seq<string>)
    ensures |texts| == |parts| && forall i :: 0 <= i < |parts| ==> texts[i] == parts[i].Written()
  {
    seq(|parts|, i requires 0 <= i < |parts| => parts[i].Written())
  }

  /** `version` is these components with dots between them, perhaps after one v, perhaps amid white space. */
  predicate Spells(version: string, parts: seq<Part>) {
    var text, body := Text.Strip(version), Text.Join(Texts(parts), '.');
    && parts != [] && (forall i :: 0 <= i < |parts| ==> parts[i].Proper())
    && (|| text == "v" + body || text == "V" + body
        || (text == body && (body == "" || (body[0] != 'v' && body[0] != 'V'))))
  }

  /** The number in front of component i; a missing component, or one without digits, counts as zero. */
  function NumberAt(parts: seq<Part>, i: nat): nat
    requires forall k :: 0 <= k < |parts| ==> parts[k].Proper()
  {
    if i < |parts| then
      assert parts[i].Proper();
      Text.DigitsValue(parts[i].digits)
    else 0
  }

  /** The numbers first differ at i, and there the first version has the larger one. */
  ghost predicate Exceeds(a: seq<Part>, b: seq<Part>, i: nat)
    requires forall k :: 0 <= k < |a| ==> a[k].Proper()
    requires forall k :: 0 <= k < |b| ==> b[k].Proper()
  {
    NumberAt(a, i) > NumberAt(b, i) && forall j: nat :: j < i ==> NumberAt(a, j) == NumberAt(b, j)
  }

  lemma {:induction false} LeadingDigitsOf(digits: string, rest: string)
    requires forall i :: 0 <= i < |digits| ==> Text.IsDigit(digits[i])
    requires rest != "" ==> !Text.IsDigit(rest[0])
    ensures LeadingDigits(digits + rest) == digits
    decreases |digits|
  {
    if digits == "" {
      assert digits + rest == rest;
    } else {
      assert (digits + rest)[1..] == digits[1..] + rest;
      LeadingDigitsOf(digits[1..], rest);
    }
  }

  lemma {:induction false} CutAfterDigits(text: string)
    ensures LeadingDigits(text) <= text
    ensures
      var rest := text[|LeadingDigits(text)|..];
      rest != "" ==> !Text.IsDigit(rest[0])
    decreases |text|
  {
    if text != "" && Text.IsDigit(text[0]) {
      CutAfterDigits(text[1..]);
    }
  }

  /** Every text is a version, in the sense that it spells some components. */
  lemma EveryTextSpells(version: string) returns (parts: seq<Part>)
    ensures Spells(version, parts)
  {
    var text := Text.Strip(version);
    var body := DropV(text);
    var texts := Text.Split(body, '.');
    Text.NoSeparatorInParts(body, '.');
    parts := CutAll(texts);
    assert Texts(parts) == texts;
    Text.JoinSplit(body, '.');
    assert text != body ==> text == [text[0]] + body;
  }

  lemma CutAll(texts: seq<string>) returns (parts: seq<Part>)
    requires forall t :: t in texts ==> '.' !in t
    ensures |parts| == |texts|
    ensures forall i :: 0 <= i < |texts| ==> parts[i].Proper() && parts[i].Written() == texts[i]
  {
    parts := seq(|texts|, i requires 0 <= i < |texts| => Cut(texts[i]));
  }

  function Cut(text: string): (part: Part)
    ensures part.Written() == text
    ensures '.' !in text ==> part.Proper()
  {
    CutAfterDigits(text);
    var n := |LeadingDigits(text)|;
    assert text == text[..n] + text[n..];
    Part(text[..n], text[n..])
  }

  lemma SpelledNumbers(version: string, parts: seq<Part>)
    requires Spells(version, parts)
    ensures |Parse(version)| == |parts|
    ensures forall i :: 0 <= i < |parts| ==> Parse(version)[i] == NumberAt(parts, i)
  {
    var texts := Texts(parts);
    assert DropV(Text.Strip(version)) == Text.Join(texts, '.');
    forall t | t in texts
      ensures '.' !in t
    {
      var i :| 0 <= i < |texts| && texts[i] == t;
      assert parts[i].Proper();
    }
    Text.SplitJoin(texts, '.');
    forall i | 0 <= i < |parts|
      ensures Component(texts[i]) == NumberAt(parts, i)
    {
      LeadingDigitsOf(parts[i].digits, parts[i].rest);
    }
  }

  /**
    Newer means: where the numbers of the two versions first differ, the first one's is larger. All digits
    count, what follows them in a component does not, and missing components are zero.
   */
  lemma NewerByNumbers(remote: string, local: string, a: seq<Part>, b: seq<Part>)
    requires Spells(remote, a) && Spells(local, b)
    ensures IsVersionNewer(remote, local) <==> exists i: nat :: Exceeds(a, b, i)
  {
    var left, right := Parse(remote), Parse(local);
    NewerIsGreater(remote, local);
    SpelledNumbers(remote, a);
    SpelledNumbers(local, b);
    assert forall i: nat :: At(left, i) == NumberAt(a, i) && At(right, i) == NumberAt(b, i);
    if i: nat :| Exceeds(a, b, i) {
      assert FirstDifference(left, right, i);
    }
    if i: nat :| FirstDifference(left, right, i) {
      assert Exceeds(a, b, i);
    }
  }

  /** A release 1.10 is newer than a 1.9. */
  lemma TenIsNewerThanNine(remote: string, local: string)
    requires remote == "1.10" && local == "1.9"
    ensures IsVersionNewer(remote, local)
  {
    var one, ten, nine := Part("1", ""), Part("10", ""), Part("9", "");
    SpellsTwo(remote, one, ten);
    SpellsTwo(local, one, nine);
    NewerByNumbers(remote, local, [one, ten], [one, nine]);
    SecondExceeds(one, ten, nine);
  }

  lemma SecondExceeds(first: Part, ten: Part, nine: Part)
    requires first.Proper() && ten == Part("10", "") && nine == Part("9", "")
    ensures Exceeds([first, ten], [first, nine], 1)
  {
    Text.ShortNumbers(ten.digits);
    Text.ShortNumbers(nine.digits);
  }

  lemma SpellsTwo(version: string, a: Part, b: Part)
    requires a.Proper() && b.Proper() && a.digits != "" && b.Written() != ""
    requires version == a.Written() + ['.'] + b.Written() && Text.Trimmed(version)
    ensures Spells(version, [a, b])
  {
    Text.StripTrims(version);
    var texts := Texts([a, b]);
    assert texts == [a.Written(), b.Written()] && texts[1..] == [b.Written()];
    assert Text.Join(texts, '.') == version;
    assert version[0] == a.digits[0];
  }
}
