/**
  `compute_next_run` and `parse_hhmm` of borg_model.py. A time is a number of microseconds on
  a naive local clock whose zero is a midnight.
 */
module Schedule {
  import opened Wrappers
  import Text

  type Time = int

  const SECOND: Time := 1_000_000
  const MINUTE: Time := 60 * SECOND
  const HOUR: Time := 60 * MINUTE
  const DAY: Time := 24 * HOUR

  /** `isoformat(timespec="seconds")` read back: the whole second that contains `t`. */
  function Stamp(t: Time): (s: Time)
    ensures s <= t < s + SECOND
  {
    t - t % SECOND
  }

  lemma StampIsWholeSecond(t: Time)
    ensures Stamp(t) % 1_000_000 == 0 && Stamp(t) <= t < Stamp(t) + 1_000_000
  {
    var n := t / 1_000_000;
    assert Stamp(t) == n * 1_000_000;
  }

  lemma StampMonotone(a: Time, b: Time)
    requires a <= b
    ensures Stamp(a) <= Stamp(b)
  {}

  // ---------------------------------------------------------------- clock times

  datatype ClockTime = ClockTime(hour: int, minute: int) {
    predicate InRange() {
      0 <= hour <= 23 && 0 <= minute <= 59
    }

    function Offset(): Time {
      (60 * hour + minute) * MINUTE
    }
  }

  function ParseHhmm(raw: string): (r: Option<ClockTime>)
    ensures r.Some? ==> r.value.InRange()
  {
    var text := Text.Strip(raw);
    if text == "" || ':' !in text then None
    else
      var i := Text.Find(text, ':');
      var hour := Text.ParseInt(text[..i]);
      var minute := Text.ParseInt(text[i + 1..]);
      if hour.None? || minute.None? then None
      else if !(0 <= hour.value <= 23 && 0 <= minute.value <= 59) then None
      else Some(ClockTime(hour.value, minute.value))
  }

  /** `[01]?\d|2[0-3]`, then `:`, then `[0-5]\d`. */
  predicate IsClockText(s: string) {
    var n := |s|;
    && 4 <= n <= 5
    && (n == 4 ==> Text.IsDigit(s[0]))
    && (n == 5 ==> (('0' <= s[0] <= '1' && Text.IsDigit(s[1])) || (s[0] == '2' && '0' <= s[1] <= '3')))
    && s[n - 3] == ':'
    && '0' <= s[n - 2] <= '5' && Text.IsDigit(s[n - 1])
  }

  /** `_TIME_RE`; its `$` also matches before a final line feed. */
  predicate MatchesTime(s: string) {
    IsClockText(s) || (s != [] && s[|s| - 1] == '\n' && IsClockText(s[..|s| - 1]))
  }

  lemma ClockTextParses(s: string)
    requires IsClockText(s)
    ensures Text.Strip(s) == s
    ensures ParseHhmm(s).Some?
    ensures ParseHhmm(s).value.hour == Text.DigitsValue(s[..|s| - 3])
    ensures ParseHhmm(s).value.minute == Text.DigitsValue(s[|s| - 2..])
  {
    var h, m := s[..|s| - 3], s[|s| - 2..];
    Text.StripTrims(s);
    ColonOfClockText(s);
    HourOfClockText(h);
    MinuteOfClockText(m);
  }

  lemma ColonOfClockText(s: string)
    requires IsClockText(s)
    ensures ':' in s && Text.Find(s, ':') == |s| - 3
  {
    assert s[|s| - 3] == ':';
  }

  lemma HourOfClockText(h: string)
    requires (|h| == 1 && Text.IsDigit(h[0])) ||
             (|h| == 2 && (('0' <= h[0] <= '1' && Text.IsDigit(h[1])) || (h[0] == '2' && '0' <= h[1] <= '3')))
    ensures Text.AllDigits(h) && Text.ParseInt(h) == Some(Text.DigitsValue(h)) && Text.DigitsValue(h) <= 23
  {
    Text.DigitsAreTrimmed(h);
    Text.ShortNumbers(h);
  }

  lemma MinuteOfClockText(m: string)
    requires |m| == 2 && '0' <= m[0] <= '5' && Text.IsDigit(m[1])
    ensures Text.AllDigits(m) && Text.ParseInt(m) == Some(Text.DigitsValue(m)) && Text.DigitsValue(m) <= 59
  {
    Text.DigitsAreTrimmed(m);
    Text.ShortNumbers(m);
  }

  /** A time accepted by the validator always parses to an hour and a minute in range. */
  lemma AcceptedTimeParses(s: string)
    requires MatchesTime(s)
    ensures ParseHhmm(s).Some?
  {
    if IsClockText(s) {
      ClockTextParses(s);
    } else {
      var core := s[..|s| - 1];
      ClockTextParses(core);
      assert Text.LeftStrip(s) == s;
      assert Text.RightStrip(s) == Text.RightStrip(core);
      assert Text.LeftStrip(core) == core;
      assert ParseHhmm(s) == ParseHhmm(core);
    }
  }

  /** Any two digit strings around a colon are read as an hour and a minute, or refused as out of range. */
  lemma DigitsParse(hour: string, minute: string)
    requires Text.AllDigits(hour) && Text.AllDigits(minute)
    ensures
      var h, m := Text.DigitsValue(hour), Text.DigitsValue(minute);
      ParseHhmm(hour + ":" + minute) == if h < 24 && m < 60 then Some(ClockTime(h, m)) else None
  {
    AroundColon(hour, minute);
    Text.DigitsAreTrimmed(hour);
    Text.DigitsAreTrimmed(minute);
  }

  lemma AroundColon(hour: string, minute: string)
    requires Text.AllDigits(hour) && Text.AllDigits(minute)
    ensures
      var s := hour + ":" + minute;
      && Text.Strip(s) == s && s != "" && ':' in s && Text.Find(s, ':') == |hour|
      && s[..|hour|] == hour && s[|hour| + 1..] == minute
  {
    var s := hour + ":" + minute;
    assert s[|hour|] == ':';
    assert s[0] == hour[0] && s[|s| - 1] == minute[|minute| - 1];
    Text.StripTrims(s);
    Text.FindAfter(hour, ':', minute);
  }

  // ------------------------------------------------------------------ schedules

  /** What a job's schedule fields mean. */
  datatype Rule = Never | DailyAt(offset: Time) | Every(step: Time) {
    predicate Valid() {
      match this
      case Never => true
      case DailyAt(o) => 0 <= o < DAY && o % MINUTE == 0
      case Every(step) => step >= HOUR
    }
  }

  lemma LowerCaseWord(s: string)
    requires s != "" && forall i :: 0 <= i < |s| ==> 'a' <= s[i] <= 'z'
    ensures Text.Lower(Text.Strip(s)) == s
  {
    Text.StripTrims(s);
    Text.LowerAt(s);
  }

  lemma ModesByName()
    ensures ModeOf("manual") == Manual && ModeOf("daily") == Daily && ModeOf("interval") == Interval
  {
    ModeOfManual();
    ModeOfDaily();
    ModeOfInterval();
  }

  lemma ModeOfManual()
    ensures ModeOf("manual") == Manual
  {
    LowerCaseWord("manual");
  }

  lemma ModeOfDaily()
    ensures ModeOf("daily") == Daily
  {
    LowerCaseWord("daily");
  }

  lemma ModeOfInterval()
    ensures ModeOf("interval") == Interval
  {
    LowerCaseWord("interval");
  }

  /** `max(1, int(interval or 3))` hours. */
  function IntervalStep(interval: int): (step: Time)
    ensures step >= HOUR
  {
    var hours := if interval == 0 then 3 else if interval < 1 then 1 else interval;
    hours * HOUR
  }

  lemma OffsetIsValid(c: ClockTime)
    requires c.InRange()
    ensures DailyAt(c.Offset()).Valid()
  {
    var minutes := 60 * c.hour + c.minute;
    assert minutes * MINUTE / MINUTE == minutes;
  }

  datatype Mode = Manual | Daily | Interval | Unknown

  function ModeOf(scheduleType: string): Mode {
    var text := Text.Lower(Text.Strip(if scheduleType == "" then "manual" else scheduleType));
    if text == "manual" then Manual
    else if text == "daily" then Daily
    else if text == "interval" then Interval
    else Unknown
  }

  function RuleOf(scheduleType: string, interval: int, time: string): (r: Rule)
    ensures r.Valid()
  {
    match ModeOf(scheduleType)
    case Daily =>
      (match ParseHhmm(time)
       case None => Never
       case Some(c) => OffsetIsValid(c); DailyAt(c.Offset()))
    case Interval => Every(IntervalStep(interval))
    case _ => Never
  }

  /** First point of `from`, `from + step`, ... that is after `now`. */
  function StepPast(from: Time, step: Time, now: Time): (r: Time)
    requires step >= HOUR
    ensures r > now && r >= from
    ensures from <= now ==> r <= now + step
    decreases now - from
  {
    if from <= now then StepPast(from + step, step, now) else from
  }

  function NextRun(rule: Rule, catchup: bool, reference: Option<Time>, now: Time): (r: Option<Time>)
    requires rule.Valid()
  {
    match rule
    case Never => None
    case DailyAt(offset) =>
      var candidate := now - now % DAY + offset;
      if candidate <= now then
        if catchup && (reference.None? || now - reference.value > DAY) then Some(now + 5 * SECOND)
        else Some(candidate + DAY)
      else Some(candidate)
    case Every(step) =>
      if reference.None? then Some(now + 5 * SECOND)
      else
        var candidate := reference.value + step;
        if candidate <= now then
          Some(if catchup then now + 5 * SECOND else StepPast(candidate, step, now))
        else Some(candidate)
  }

  /** The source's own function, with its loop; a job without a schedule has no next run. */
  method ComputeNextRun(
    scheduleType: string, interval: int, time: string, catchupMissed: bool, lastSuccess: Option<Time>,
    now: Time, backupRunning: bool)
    returns (next: Option<Time>)
    ensures next == NextRun(RuleOf(scheduleType, interval, time), catchupMissed && !backupRunning, lastSuccess, now)
    ensures IsNextRun(RuleOf(scheduleType, interval, time), catchupMissed && !backupRunning, lastSuccess, now, next)
  {
    NextRunIs(RuleOf(scheduleType, interval, time), catchupMissed && !backupRunning, lastSuccess, now);
    var mode := ModeOf(scheduleType);
    if mode == Manual {
      return None;
    }
    var catchup := catchupMissed && !backupRunning;
    if mode == Daily {
      var parsed := ParseHhmm(time);
      if parsed.None? {
        return None;
      }
      OffsetIsValid(parsed.value);
      next := NextDaily(parsed.value.Offset(), catchup, lastSuccess, now);
      return;
    }
    if mode == Interval {
      next := NextInterval(IntervalStep(interval), catchup, lastSuccess, now);
      return;
    }
    return None;
  }

  method NextDaily(offset: Time, catchup: bool, lastSuccess: Option<Time>, now: Time) returns (next: Option<Time>)
    requires DailyAt(offset).Valid()
    ensures next == NextRun(DailyAt(offset), catchup, lastSuccess, now)
  {
    var candidate := now - now % DAY + offset;
    if candidate <= now {
      if catchup && (lastSuccess.None? || now - lastSuccess.value > DAY) {
        return Some(now + 5 * SECOND);
      }
      candidate := candidate + DAY;
    }
    return Some(candidate);
  }

  method NextInterval(step: Time, catchup: bool, lastSuccess: Option<Time>, now: Time) returns (next: Option<Time>)
    requires Every(step).Valid()
    ensures next == NextRun(Every(step), catchup, lastSuccess, now)
  {
    if lastSuccess.None? {
      return Some(now + 5 * SECOND);
    }
    var candidate := lastSuccess.value + step;
    if candidate <= now {
      if catchup {
        return Some(now + 5 * SECOND);
      }
      candidate := Advance(candidate, step, now);
    }
    return Some(candidate);
  }

  /** The loop that steps a missed interval run past `now`. */
  method Advance(from: Time, step: Time, now: Time) returns (candidate: Time)
    requires step >= HOUR
    ensures candidate == StepPast(from, step, now)
  {
    candidate := from;
    while candidate <= now
      invariant StepPast(candidate, step, now) == StepPast(from, step, now)
      decreases now - candidate
    {
      candidate := candidate + step;
    }
  }

  // ----------------------------------------------------------- what it promises

  /** Every result is in the future; a daily one at most a day away, an interval one at most the interval. */
  lemma NextRunBounds(rule: Rule, catchup: bool, reference: Option<Time>, now: Time)
    requires rule.Valid()
    ensures NextRun(rule, catchup, reference, now).None? <==> rule.Never?
    ensures !rule.Never? ==> NextRun(rule, catchup, reference, now).value > now
    ensures rule.DailyAt? ==> NextRun(rule, catchup, reference, now).value <= now + DAY
    ensures rule.Every? && (reference.Some? ==> reference.value <= now) ==>
              NextRun(rule, catchup, reference, now).value <= now + rule.step
  {}

  /** Without catch-up a daily job runs at the first HH:MM after now. */
  lemma DailyIsFirstSlot(offset: Time, reference: Option<Time>, now: Time, other: Time)
    requires DailyAt(offset).Valid()
    requires other > now && other % DAY == offset
    ensures NextRun(DailyAt(offset), false, reference, now).value % DAY == offset
    ensures NextRun(DailyAt(offset), false, reference, now).value <= other
  {
    var next := NextAtClockTime(offset, reference, now);
    SameClockTime(next, other, offset);
  }

  lemma NextAtClockTime(offset: Time, reference: Option<Time>, now: Time) returns (next: Time)
    requires DailyAt(offset).Valid()
    ensures NextRun(DailyAt(offset), false, reference, now) == Some(next)
    ensures next % 86_400_000_000 == offset && next - 86_400_000_000 <= now < next
  {
    var candidate := now - now % DAY + offset;
    next := if candidate <= now then candidate + DAY else candidate;
  }

  /** Two times with the same time of day are whole days apart. */
  lemma SameClockTime(a: Time, b: Time, offset: Time)
    requires 0 <= offset < 86_400_000_000 && b % 86_400_000_000 == offset
    ensures a % 86_400_000_000 == offset && a > b - 86_400_000_000 ==> a >= b
  {}

  lemma {:induction false} StepPastIsLeast(from: Time, step: Time, now: Time, k: nat)
    requires step >= HOUR
    requires from + k * step > now
    ensures StepPast(from, step, now) <= from + k * step
    decreases k
  {
    if from <= now {
      assert k > 0;
      assert from + k * step == (from + step) + (k - 1) * step;
      StepPastIsLeast(from + step, step, now, k - 1);
    } else {
      assert k * step >= 0;
    }
  }

  lemma {:induction false} StepPastOnGrid(from: Time, step: Time, now: Time) returns (k: nat)
    requires step >= HOUR
    ensures StepPast(from, step, now) == from + k * step
    decreases now - from
  {
    if from <= now {
      var j := StepPastOnGrid(from + step, step, now);
      k := j + 1;
    } else {
      k := 0;
    }
  }

  /** Without catch-up an interval job runs at the least reference + k * interval (k >= 1) after now. */
  lemma IntervalIsLeastStep(step: Time, reference: Time, now: Time, k: nat)
    requires Every(step).Valid() && k >= 1
    ensures exists j: nat :: j >= 1 && NextRun(Every(step), false, Some(reference), now) == Some(reference + j * step)
    ensures reference + k * step > now ==>
              NextRun(Every(step), false, Some(reference), now).value <= reference + k * step
  {
    var from := reference + step;
    var j := StepPastOnGrid(from, step, now);
    assert reference + (j + 1) * step == from + j * step;
    assert NextRun(Every(step), false, Some(reference), now) == Some(reference + (j + 1) * step);
    if reference + k * step > now {
      assert reference + k * step == from + (k - 1) * step;
      StepPastIsLeast(from, step, now, k - 1);
    }
  }

  // ------------------------------------------- the result, without the calculation

  /** `t` has this time of day; 86 400 seconds make a day. */
  predicate IsAt(t: Time, timeOfDay: Time) {
    t % 86_400_000_000 == timeOfDay
  }

  /** `r` is the first time after `now` that has this time of day. */
  ghost predicate FirstSlot(timeOfDay: Time, now: Time, r: Time) {
    r > now && IsAt(r, timeOfDay) && forall t :: now < t < r ==> !IsAt(t, timeOfDay)
  }

  ghost predicate IsStep(t: Time, reference: Time, step: Time) {
    exists k: nat :: k >= 1 && t == reference + k * step
  }

  /** `r` is the first time after `now` that is one or more whole steps after the reference. */
  ghost predicate FirstStep(reference: Time, step: Time, now: Time, r: Time) {
    r > now && IsStep(r, reference, step) && forall t :: now < t < r ==> !IsStep(t, reference, step)
  }

  /** A daily job is caught up on when today's slot is past and the last run is more than a day ago. */
  predicate CatchesUp(timeOfDay: Time, reference: Option<Time>, now: Time) {
    now % 86_400_000_000 >= timeOfDay && (reference.None? || now - reference.value > 86_400_000_000)
  }

  /** What the next run has to be, for a reader who does not want to know how it is found. */
  ghost predicate IsNextRun(rule: Rule, catchup: bool, reference: Option<Time>, now: Time, next: Option<Time>) {
    match rule
    case Never => next == None
    case DailyAt(timeOfDay) =>
      if catchup && CatchesUp(timeOfDay, reference, now) then next == Some(now + 5_000_000)
      else next.Some? && FirstSlot(timeOfDay, now, next.value)
    case Every(step) =>
      if reference.None? || (catchup && reference.value + step <= now) then next == Some(now + 5_000_000)
      else next.Some? && FirstStep(reference.value, step, now, next.value)
  }

  lemma SlotIsFirst(timeOfDay: Time, now: Time, r: Time)
    requires 0 <= timeOfDay < 86_400_000_000
    requires r % 86_400_000_000 == timeOfDay && now < r <= now + 86_400_000_000
    ensures FirstSlot(timeOfDay, now, r)
  {
    forall t | now < t < r
      ensures !IsAt(t, timeOfDay)
    {
      SameClockTime(t, r, timeOfDay);
    }
  }

  lemma StepIsFirst(step: Time, reference: Time, now: Time, r: Time)
    requires step >= HOUR && r == StepPast(reference + step, step, now)
    ensures FirstStep(reference, step, now, r)
  {
    var j := StepPastOnGrid(reference + step, step, now);
    assert r == reference + (j + 1) * step;
    forall t | now < t < r
      ensures !IsStep(t, reference, step)
    {
      if IsStep(t, reference, step) {
        var k: nat :| k >= 1 && t == reference + k * step;
        assert t == reference + step + (k - 1) * step;
        StepPastIsLeast(reference + step, step, now, k - 1);
      }
    }
  }

  /** The calculation gives the next run. */
  lemma NextRunIs(rule: Rule, catchup: bool, reference: Option<Time>, now: Time)
    requires rule.Valid()
    ensures IsNextRun(rule, catchup, reference, now, NextRun(rule, catchup, reference, now))
  {
    match rule
    case Never =>
    case DailyAt(offset) => NextDailyIs(offset, catchup, reference, now);
    case Every(step) =>
      if reference.Some? {
        StepIsFirst(step, reference.value, now, StepPast(reference.value + step, step, now));
      }
  }

  lemma NextDailyIs(offset: Time, catchup: bool, reference: Option<Time>, now: Time)
    requires DailyAt(offset).Valid()
    ensures IsNextRun(DailyAt(offset), catchup, reference, now, NextRun(DailyAt(offset), catchup, reference, now))
  {
    assert now - now % DAY + offset <= now <==> now % 86_400_000_000 >= offset;
    if !(catchup && CatchesUp(offset, reference, now)) {
      var next := NextAtClockTime(offset, reference, now);
      assert NextRun(DailyAt(offset), catchup, reference, now) == NextRun(DailyAt(offset), false, reference, now);
      SlotIsFirst(offset, now, next);
    }
  }

  /** And there is only one: a first slot and a first step are unique. */
  lemma NextRunIsUnique(
    rule: Rule, catchup: bool, reference: Option<Time>, now: Time, a: Option<Time>, b: Option<Time>)
    requires IsNextRun(rule, catchup, reference, now, a) && IsNextRun(rule, catchup, reference, now, b)
    ensures a == b
  {
    if a.Some? && b.Some? {
      assert !(a.value < b.value) && !(b.value < a.value);
    }
  }

  // ----------------------------------------------------- what the three fields mean

  /** HH:MM is that many hours and minutes after midnight. */
  lemma DailyRule(interval: int, s: string)
    requires IsClockText(s)
    ensures RuleOf("daily", interval, s) ==
            DailyAt(Text.DigitsValue(s[..|s| - 3]) * 3_600_000_000 + Text.DigitsValue(s[|s| - 2..]) * 60_000_000)
  {
    ModeOfDaily();
    ClockTextParses(s);
  }

  /** The interval counts hours; none stands for three, and a negative one for one. */
  lemma IntervalRule(interval: int, s: string)
    ensures RuleOf("interval", interval, s) ==
            Every((if interval >= 1 then interval else if interval == 0 then 3 else 1) * 3_600_000_000)
  {
    ModeOfInterval();
  }

  lemma ManualRule(interval: int, s: string)
    ensures RuleOf("manual", interval, s) == Never && RuleOf("", interval, s) == Never
  {
    ModeOfManual();
  }

  /** A daily job set to HH:MM that is not caught up on runs at the first HH:MM after now. */
  lemma DailyRunsAtClockTime(
    interval: int, s: string, catchup: bool, reference: Option<Time>, now: Time, timeOfDay: Time)
    returns (r: Time)
    requires IsClockText(s)
    requires timeOfDay == Text.DigitsValue(s[..|s| - 3]) * 3_600_000_000 + Text.DigitsValue(s[|s| - 2..]) * 60_000_000
    requires catchup ==> reference.Some? && now - reference.value <= 86_400_000_000
    ensures NextRun(RuleOf("daily", interval, s), catchup, reference, now) == Some(r)
    ensures FirstSlot(timeOfDay, now, r)
  {
    assert RuleOf("daily", interval, s) == DailyAt(timeOfDay) by {
      DailyRule(interval, s);
    }
    r := DailyRunsAt(timeOfDay, catchup, reference, now);
  }

  lemma DailyRunsAt(timeOfDay: Time, catchup: bool, reference: Option<Time>, now: Time) returns (r: Time)
    requires DailyAt(timeOfDay).Valid()
    requires catchup ==> reference.Some? && now - reference.value <= 86_400_000_000
    ensures NextRun(DailyAt(timeOfDay), catchup, reference, now) == Some(r)
    ensures FirstSlot(timeOfDay, now, r)
  {
    NextDailyIs(timeOfDay, catchup, reference, now);
    r := NextRun(DailyAt(timeOfDay), catchup, reference, now).value;
  }

  /** 03:15, the default, is 195 minutes after midnight. */
  lemma QuarterPastThree(interval: int, s: string)
    requires s == "03:15"
    ensures RuleOf("daily", interval, s) == DailyAt(11_700_000_000)
  {
    DailyRule(interval, s);
    TwoDigits(s[..2], '0', '3');
    TwoDigits(s[3..], '1', '5');
  }

  lemma TwoDigits(s: string, a: char, b: char)
    requires |s| == 2 && s[0] == a && s[1] == b && Text.IsDigit(a) && Text.IsDigit(b)
    ensures Text.AllDigits(s) && Text.DigitsValue(s) == 10 * Text.DigitValue(a) + Text.DigitValue(b)
  {
    Text.ShortNumbers(s);
  }

  // ------------------------------------------------------------ slots and spacing

  /** Number of the slot-day (from one HH:MM to the next) that contains `t`. */
  function SlotDay(offset: Time, t: Time): int {
    (t - offset) / DAY
  }

  /** A run at `t` is clear of a run at `r`: in a later slot-day, or a whole interval later. */
  predicate Clear(rule: Rule, r: Time, t: Time) {
    match rule
    case Never => true
    case DailyAt(offset) => SlotDay(offset, r) < SlotDay(offset, t)
    case Every(step) => r + step <= t
  }

  lemma ClearMonotone(rule: Rule, r: Time, t: Time, r': Time, t': Time)
    requires Clear(rule, r, t) && r' <= r && t <= t'
    ensures Clear(rule, r', t')
  {}

  lemma ClearIsLater(rule: Rule, r: Time, t: Time)
    requires rule.Valid() && !rule.Never? && Clear(rule, r, t)
    ensures r < t
  {}

  /** Slots start on whole seconds, so stamping a time does not move it to another slot-day. */
  lemma StampKeepsSlot(offset: Time, t: Time)
    requires DailyAt(offset).Valid()
    ensures SlotDay(offset, Stamp(t)) == SlotDay(offset, t)
  {}

  /** The heart of the scheduler: a computed run is always clear of the reference it was computed from. */
  lemma NextRunIsClear(rule: Rule, catchup: bool, r: Time, now: Time)
    requires rule.Valid() && !rule.Never?
    requires r <= now || rule.Every?
    ensures Clear(rule, r, NextRun(rule, catchup, Some(r), now).value)
  {
    match rule
    case DailyAt(offset) => NextDailyIsClear(offset, catchup, r, now);
    case Every(_) =>
  }

  lemma NextDailyIsClear(offset: Time, catchup: bool, r: Time, now: Time)
    requires DailyAt(offset).Valid() && r <= now
    ensures SlotDay(offset, r) < SlotDay(offset, NextRun(DailyAt(offset), catchup, Some(r), now).value)
  {
    var candidate := now - now % DAY + offset;
    SlotOfCandidate(offset, now, candidate);
  }

  /** The slot that starts at `offset` on the day of `now` is the one before or after `now`. */
  lemma SlotOfCandidate(offset: Time, now: Time, candidate: Time)
    requires 0 <= offset < DAY && candidate == now - now % DAY + offset
    ensures SlotDay(offset, candidate) == now / DAY
    ensures SlotDay(offset, now) == if candidate <= now then now / DAY else now / DAY - 1
  {}
}
