/**
 The loop's calendar gate (internal/loop/calendar.go) in a zone of fixed offset.
 Instants are nanoseconds since 1970-01-01T00:00:00Z.
 */
module LoopCalendar {
  import opened Common

  const SECOND := 1_000_000_000
  const DAY := 86400

  /** A daily window [start, end) in seconds from local midnight. */
  datatype Window = Window(start: int, end: int)

  /** Weekdays count from Sunday = 0. */
  datatype Calendar = Calendar(offset: int, weekdays: set<int>, windows: seq<Window>)

  // ----------------------------------------------------------- local clock --

  function LocalSeconds(c: Calendar, t: int): int {
    t / SECOND + c.offset
  }

  function LocalDay(c: Calendar, t: int): int {
    LocalSeconds(c, t) / DAY
  }

  function SecondOfDay(c: Calendar, t: int): int {
    LocalSeconds(c, t) % DAY
  }

  /** 1970-01-01 was a Thursday. */
  function WeekdayOf(day: int): int {
    (day + 4) % 7
  }

  /** The instant at which local day `day` has run for `second` seconds. */
  function At(c: Calendar, day: int, second: int): int {
    (day * DAY + second - c.offset) * SECOND
  }

  lemma AtIsReached(c: Calendar, day: int, second: int, t: int)
    ensures At(c, day, second) <= t <==> day * DAY + second <= LocalSeconds(c, t)
  {
  }

  lemma AtReadsBack(c: Calendar, day: int, second: int)
    requires 0 <= second < DAY
    ensures LocalDay(c, At(c, day, second)) == day && SecondOfDay(c, At(c, day, second)) == second
  {
    assert LocalSeconds(c, At(c, day, second)) == day * DAY + second;
  }

  // -------------------------------------------------------------- the gate --

  ghost predicate Valid(c: Calendar) {
    && (exists d :: d in c.weekdays) && (forall d | d in c.weekdays :: 0 <= d < 7)
    && |c.windows| > 0
    && (forall i | 0 <= i < |c.windows| :: 0 <= c.windows[i].start < c.windows[i].end <= DAY)
    && (forall i, j | 0 <= i < j < |c.windows| :: c.windows[i].end <= c.windows[j].start)
  }

  predicate Inside(w: Window, second: int) {
    w.start <= second < w.end
  }

  ghost predicate Open(c: Calendar, t: int) {
    && WeekdayOf(LocalDay(c, t)) in c.weekdays
    && exists i :: 0 <= i < |c.windows| && Inside(c.windows[i], SecondOfDay(c, t))
  }

  method OpenWindow(c: Calendar, t: int) returns (r: Option<Window>)
    ensures r.Some? <==> Open(c, t)
    ensures r.Some? ==> r.value in c.windows && Inside(r.value, SecondOfDay(c, t))
  {
    if WeekdayOf(LocalDay(c, t)) !in c.weekdays {
      return None;
    }
    var second := SecondOfDay(c, t);
    for i := 0 to |c.windows|
      invariant forall j | 0 <= j < i :: !Inside(c.windows[j], second)
    {
      if Inside(c.windows[i], second) {
        return Some(c.windows[i]);
      }
    }
    r := None;
  }

  /** The end of the window containing t: the calendar is open from t to there, and no window of that day holds it. */
  method OpenUntil(c: Calendar, t: int) returns (r: Option<int>)
    requires Valid(c)
    ensures r.Some? <==> Open(c, t)
    ensures r.Some? ==> t < r.value && forall u | t <= u < r.value :: Open(c, u)
    ensures r.Some? ==>
      exists w :: w in c.windows && Inside(w, SecondOfDay(c, t)) && r.value == At(c, LocalDay(c, t), w.end)
  {
    var w := OpenWindow(c, t);
    if w.None? {
      return None;
    }
    var day, end := LocalDay(c, t), w.value.end;
    r := Some(At(c, day, end));
    AtIsReached(c, day, end, t);
    forall u | t <= u < r.value ensures Open(c, u) {
      StaysInWindow(c, t, u, w.value);
    }
  }

  lemma StaysInWindow(c: Calendar, t: int, u: int, w: Window)
    requires Valid(c) && w in c.windows && Inside(w, SecondOfDay(c, t))
    requires WeekdayOf(LocalDay(c, t)) in c.weekdays
    requires t <= u < At(c, LocalDay(c, t), w.end)
    ensures Open(c, u)
  {
    var day := LocalDay(c, t);
    AtIsReached(c, day, w.end, u);
    assert LocalSeconds(c, t) <= LocalSeconds(c, u) < day * DAY + w.end;
    assert LocalDay(c, u) == day;
    var i :| 0 <= i < |c.windows| && c.windows[i] == w;
    assert Inside(c.windows[i], SecondOfDay(c, u));
  }

  /** No instant of [from, to) is open. */
  ghost predicate ClosedDuring(c: Calendar, from: int, to: int) {
    forall u | from <= u < to :: !Open(c, u)
  }

  lemma ClosedDayOff(c: Calendar, t: int, day: int)
    requires WeekdayOf(day) !in c.weekdays && ClosedDuring(c, t, At(c, day, 0))
    ensures ClosedDuring(c, t, At(c, day + 1, 0))
  {
    forall u | t <= u < At(c, day + 1, 0) ensures !Open(c, u) {
      if u >= At(c, day, 0) {
        AtIsReached(c, day, 0, u);
        AtIsReached(c, day + 1, 0, u);
        assert LocalDay(c, u) == day;
      }
    }
  }

  /** Between window i - 1 (or midnight) and window i of one day nothing is open. */
  lemma ClosedGap(c: Calendar, t: int, day: int, i: nat)
    requires Valid(c) && i <= |c.windows|
    requires ClosedDuring(c, t, if i == 0 then At(c, day, 0) else At(c, day, c.windows[i - 1].end))
    ensures ClosedDuring(c, t, if i == |c.windows| then At(c, day + 1, 0) else At(c, day, c.windows[i].start))
  {
    var from, to := if i == 0 then 0 else c.windows[i - 1].end, if i == |c.windows| then DAY else c.windows[i].start;
    assert At(c, day, DAY) == At(c, day + 1, 0);
    forall u | t <= u < At(c, day, to) ensures !Open(c, u) {
      if u >= At(c, day, from) {
        AtIsReached(c, day, from, u);
        AtIsReached(c, day, to, u);
        assert LocalDay(c, u) == day && from <= SecondOfDay(c, u) < to;
        forall j | 0 <= j < |c.windows| ensures !Inside(c.windows[j], SecondOfDay(c, u)) {
          if j < i { assert c.windows[j].end <= from; } else { assert to <= c.windows[j].start; }
        }
      }
    }
  }

  /** A window that has started by t on t's own closed day is already over at t. */
  lemma ClosedPastWindow(c: Calendar, t: int, i: nat)
    requires Valid(c) && i < |c.windows| && !Open(c, t) && WeekdayOf(LocalDay(c, t)) in c.weekdays
    requires At(c, LocalDay(c, t), c.windows[i].start) <= t
    ensures At(c, LocalDay(c, t), c.windows[i].end) <= t
  {
    AtIsReached(c, LocalDay(c, t), c.windows[i].start, t);
    AtIsReached(c, LocalDay(c, t), c.windows[i].end, t);
    assert !Inside(c.windows[i], SecondOfDay(c, t));
  }

  lemma OpensAtStart(c: Calendar, day: int, i: nat)
    requires Valid(c) && i < |c.windows| && WeekdayOf(day) in c.weekdays
    ensures Open(c, At(c, day, c.windows[i].start))
  {
    AtReadsBack(c, day, c.windows[i].start);
    assert Inside(c.windows[i], SecondOfDay(c, At(c, day, c.windows[i].start)));
  }

  /** Some allowed weekday falls on one of any seven days in a row. */
  lemma AllowedDayWithinWeek(c: Calendar, day: int) returns (k: nat)
    requires Valid(c)
    ensures 1 <= k <= 7 && WeekdayOf(day + k) in c.weekdays
  {
    var d :| d in c.weekdays;
    k := (d - WeekdayOf(day) - 1) % 7 + 1;
    assert WeekdayOf(day + k) == d;
  }

  /**
   The earliest instant at or after t at which the calendar is open.  The search over
   days 0..8 always succeeds for a valid calendar.
   */
  method NextOpen(c: Calendar, t: int) returns (r: int)
    requires Valid(c)
    ensures t <= r && Open(c, r)
    ensures forall u | t <= u < r :: !Open(c, u)
  {
    var open := OpenWindow(c, t);
    if open.Some? {
      return t;
    }
    var today := LocalDay(c, t);
    ghost var k := AllowedDayWithinWeek(c, today);
    AtIsReached(c, today, 0, t);
    for offset := 0 to 9
      invariant offset <= k
      invariant ClosedDuring(c, t, At(c, today + offset, 0))
    {
      var day := today + offset;
      if WeekdayOf(day) !in c.weekdays {
        ClosedDayOff(c, t, day);
        continue;
      }
      for i := 0 to |c.windows|
        invariant i > 0 ==> offset == 0 && At(c, day, c.windows[i - 1].end) <= t
        invariant ClosedDuring(c, t, if i == 0 then At(c, day, 0) else At(c, day, c.windows[i - 1].end))
      {
        ClosedGap(c, t, day, i);
        var start := At(c, day, c.windows[i].start);
        OpensAtStart(c, day, i);
        var opens := OpenWindow(c, start);
        if start > t && opens.Some? {
          return start;
        }
        AtIsReached(c, day, c.windows[i].start, t);
        ClosedPastWindow(c, t, i);
      }
      ClosedGap(c, t, day, |c.windows|);
    }
    assert false;
  }
}
