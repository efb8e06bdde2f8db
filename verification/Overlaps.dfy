/** `find_schedule_overlaps` of borg_model.py: the early exit loses no pair. */
module Overlaps {
  import opened Wrappers
  import opened Schedule

  datatype Planned = Planned(name: string, time: Time)
  datatype Overlap = Overlap(first: string, second: string, minutes: int)

  /** `int(round(delta / 60))` with Python's rounding of halves to even. */
  function RoundMinutes(delta: Time): int {
    var q, r := delta / 60_000_000, delta % 60_000_000;
    if 2 * r < 60_000_000 || (2 * r == 60_000_000 && q % 2 == 0) then q else q + 1
  }

  lemma RoundingIsMonotone(a: Time, b: Time)
    requires a <= b
    ensures RoundMinutes(a) <= RoundMinutes(b)
  {}

  /** To the nearest minute, and from the middle between two to the even one. */
  lemma RoundsToNearest(delta: Time)
    ensures -30_000_000 <= RoundMinutes(delta) * 60_000_000 - delta <= 30_000_000
    ensures
      var off := RoundMinutes(delta) * 60_000_000 - delta;
      off == 30_000_000 || off == -30_000_000 ==> RoundMinutes(delta) % 2 == 0
  {}

  /** The entries that have a name and a next run. */
  function Named(nextRuns: seq<(string, Option<Time>)>): seq<Planned> {
    if nextRuns == [] then []
    else
      var (name, time) := nextRuns[|nextRuns| - 1];
      Named(nextRuns[..|nextRuns| - 1]) + if name != "" && time.Some? then [Planned(name, time.value)] else []
  }

  lemma {:induction false} NamedAre(nextRuns: seq<(string, Option<Time>)>, p: Planned)
    ensures p in Named(nextRuns) <==> p.name != "" && (p.name, Some(p.time)) in nextRuns
    decreases |nextRuns|
  {
    if nextRuns != [] {
      var init, last := nextRuns[..|nextRuns| - 1], nextRuns[|nextRuns| - 1];
      NamedAre(init, p);
      assert nextRuns == init + [last];
      assert Named(nextRuns) ==
             Named(init) + if last.0 != "" && last.1.Some? then [Planned(last.0, last.1.value)] else [];
      assert last == (p.name, Some(p.time)) <==> last.0 == p.name && last.1 == Some(p.time);
    }
  }

  // ---------------------------------------------------------------- sorting

  /** Insert behind all entries that are not later. */
  function Insert(s: seq<Planned>, x: Planned): seq<Planned> {
    if s == [] || s[|s| - 1].time <= x.time then s + [x]
    else Insert(s[..|s| - 1], x) + [s[|s| - 1]]
  }

  /** `sorted(..., key=time)`: a stable sort. */
  function SortByTime(s: seq<Planned>): seq<Planned> {
    if s == [] then [] else Insert(SortByTime(s[..|s| - 1]), s[|s| - 1])
  }

  predicate Sorted(s: seq<Planned>) {
    forall i, j :: 0 <= i < j < |s| ==> s[i].time <= s[j].time
  }

  function At(s: seq<Planned>, t: Time): seq<Planned> {
    if s == [] then [] else At(s[..|s| - 1], t) + if s[|s| - 1].time == t then [s[|s| - 1]] else []
  }

  lemma {:induction false} AtOfLonger(s: seq<Planned>, x: Planned, t: Time)
    ensures At(s + [x], t) == At(s, t) + if x.time == t then [x] else []
  {
    assert (s + [x])[..|s|] == s;
  }

  lemma {:induction false} InsertSorts(s: seq<Planned>, x: Planned)
    requires Sorted(s)
    ensures Sorted(Insert(s, x))
    ensures multiset(Insert(s, x)) == multiset(s) + multiset{x}
    decreases |s|
  {
    if s != [] && s[|s| - 1].time > x.time {
      var init, last := s[..|s| - 1], s[|s| - 1];
      assert s == init + [last];
      InsertSorts(init, x);
      NothingLater(init, x, last.time, Insert(init, x));
      SortedLonger(Insert(init, x), last);
    }
  }

  lemma NothingLater(s: seq<Planned>, x: Planned, t: Time, inserted: seq<Planned>)
    requires multiset(inserted) == multiset(s) + multiset{x}
    requires x.time <= t && forall y :: y in s ==> y.time <= t
    ensures forall y :: y in inserted ==> y.time <= t
  {
    forall y | y in inserted
      ensures y.time <= t
    {
      assert y in multiset(s) + multiset{x};
    }
  }

  lemma SortedLonger(s: seq<Planned>, last: Planned)
    requires Sorted(s) && forall y :: y in s ==> y.time <= last.time
    ensures Sorted(s + [last])
  {}

  lemma {:induction false} InsertGoesLast(s: seq<Planned>, x: Planned, t: Time)
    ensures At(Insert(s, x), t) == At(s, t) + if x.time == t then [x] else []
    decreases |s|
  {
    if s == [] || s[|s| - 1].time <= x.time {
      AtOfLonger(s, x, t);
    } else {
      var init, last := s[..|s| - 1], s[|s| - 1];
      InsertGoesLast(init, x, t);
      AtOfLonger(Insert(init, x), last, t);
    }
  }

  /** Sorting orders by time, keeps every entry, and keeps the order of entries at the same time. */
  lemma {:induction false} SortIsStable(s: seq<Planned>, t: Time)
    ensures Sorted(SortByTime(s))
    ensures multiset(SortByTime(s)) == multiset(s)
    ensures At(SortByTime(s), t) == At(s, t)
    decreases |s|
  {
    if s != [] {
      var init, last := s[..|s| - 1], s[|s| - 1];
      assert s == init + [last];
      SortIsStable(init, t);
      InsertSorts(SortByTime(init), last);
      InsertGoesLast(SortByTime(init), last, t);
    }
  }

  // ------------------------------------------------------------------ pairs

  /** All pairs (i, k) with i < k < j whose rounded distance is within the window; no early exit. */
  function Row(s: seq<Planned>, i: nat, j: nat, window: int): seq<Overlap>
    requires i < j <= |s|
  {
    if j == i + 1 then []
    else
      var minutes := RoundMinutes(s[j - 1].time - s[i].time);
      Row(s, i, j - 1, window) + if minutes <= window then [Overlap(s[i].name, s[j - 1].name, minutes)] else []
  }

  /** The pairs whose first entry is before position i. */
  function Pairs(s: seq<Planned>, i: nat, window: int): seq<Overlap>
    requires i <= |s|
  {
    if i == 0 then [] else Pairs(s, i - 1, window) + Row(s, i - 1, |s|, window)
  }

  function AllPairs(s: seq<Planned>, window: int): seq<Overlap> {
    Pairs(s, |s|, window)
  }

  lemma {:induction false} NothingAfterTheWindow(s: seq<Planned>, i: nat, j: nat, k: nat, window: int)
    requires Sorted(s) && i < j < k <= |s| && RoundMinutes(s[j].time - s[i].time) > window
    ensures Row(s, i, k, window) == Row(s, i, j, window)
    decreases k
  {
    RoundingIsMonotone(s[j].time - s[i].time, s[k - 1].time - s[i].time);
    if k > j + 1 {
      NothingAfterTheWindow(s, i, j, k - 1, window);
    }
  }

  /** The inner loop, with its `break`. */
  method OverlapsWith(ordered: seq<Planned>, i: nat, window: int) returns (row: seq<Overlap>)
    requires Sorted(ordered) && i < |ordered|
    ensures row == Row(ordered, i, |ordered|, window)
  {
    row := [];
    var j := i + 1;
    while j < |ordered|
      invariant i < j <= |ordered|
      invariant row == Row(ordered, i, j, window)
    {
      var minutes := RoundMinutes(ordered[j].time - ordered[i].time);
      if minutes > window {
        NothingAfterTheWindow(ordered, i, j, |ordered|, window);
        break;
      }
      row := row + [Overlap(ordered[i].name, ordered[j].name, minutes)];
      j := j + 1;
    }
  }

  /** The source's loops return all pairs within the window, in order. */
  method FindScheduleOverlaps(nextRuns: seq<(string, Option<Time>)>, windowMinutes: int)
    returns (overlaps: seq<Overlap>)
    ensures overlaps == AllPairs(SortByTime(Named(nextRuns)), if windowMinutes < 0 then 0 else windowMinutes)
  {
    var window := if windowMinutes < 0 then 0 else windowMinutes;
    var ordered := SortByTime(Named(nextRuns));
    assert Sorted(ordered) by {
      SortIsStable(Named(nextRuns), 0);
    }
    overlaps := [];
    for i := 0 to |ordered|
      invariant overlaps == Pairs(ordered, i, window)
    {
      var row := OverlapsWith(ordered, i, window);
      overlaps := overlaps + row;
    }
  }

  ghost predicate IsPair(s: seq<Planned>, i: nat, j: nat, o: Overlap, window: int) {
    && i < j < |s|
    && o == Overlap(s[i].name, s[j].name, RoundMinutes(s[j].time - s[i].time))
    && o.minutes <= window
  }

  lemma {:induction false} RowExactly(s: seq<Planned>, i: nat, j: nat, window: int, o: Overlap)
    requires i < j <= |s|
    ensures o in Row(s, i, j, window) <==> exists k: nat :: k < j && IsPair(s, i, k, o, window)
    decreases j
  {
    if j > i + 1 {
      RowExactly(s, i, j - 1, window, o);
      assert IsPair(s, i, j - 1, o, window) <==>
             o.minutes <= window && o == Overlap(s[i].name, s[j - 1].name, RoundMinutes(s[j - 1].time - s[i].time));
    }
  }

  /** Some entry after entry h makes this overlap with it. */
  ghost predicate InRow(s: seq<Planned>, h: nat, o: Overlap, window: int) {
    exists k: nat :: IsPair(s, h, k, o, window)
  }

  lemma {:induction false} PairsExactly(s: seq<Planned>, i: nat, window: int, o: Overlap)
    requires i <= |s|
    ensures o in Pairs(s, i, window) <==> exists h: nat :: h < i && InRow(s, h, o, window)
    decreases i
  {
    if i > 0 {
      PairsExactly(s, i - 1, window, o);
      RowExactly(s, i - 1, |s|, window, o);
      assert o in Row(s, i - 1, |s|, window) <==> InRow(s, i - 1, o, window);
    }
  }

  /** An overlap is reported exactly when two planned runs, in time order, are within the window. */
  lemma OverlapsExactly(s: seq<Planned>, window: int, o: Overlap)
    ensures o in AllPairs(s, window) <==> exists h: nat, k: nat :: IsPair(s, h, k, o, window)
  {
    PairsExactly(s, |s|, window, o);
    if h: nat, k: nat :| IsPair(s, h, k, o, window) {
      assert InRow(s, h, o, window);
    }
    if o in AllPairs(s, window) {
      var h: nat :| h < |s| && InRow(s, h, o, window);
      var k: nat :| IsPair(s, h, k, o, window);
    }
  }
}
