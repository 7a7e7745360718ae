/** Validation and compilation of a calendar block (internal/loop/calendar.go). */
module CalendarConfig {
  import opened Common
  import opened LoopCalendar

  datatype WindowText = WindowText(start: string, end: string)

  datatype CalendarError =
    | TimezoneMissing | TimezoneLocal | TimezoneUnknown
    | WeekdaysMissing | WeekdayUnknown | WeekdayDuplicate
    | WindowsMissing | ClockInvalid | WindowEmpty | WindowsOverlap

  // ------------------------------------------------------------ the texts --

  predicate IsSpace(c: char) {
    c in " \t\n\r"
  }

  function TrimSpace(s: string): string {
    if s == "" then s
    else if IsSpace(s[0]) then TrimSpace(s[1..])
    else if IsSpace(s[|s| - 1]) then TrimSpace(s[..|s| - 1])
    else s
  }

  function ToLower(s: string): string {
    seq(|s|, i requires 0 <= i < |s| => if 'A' <= s[i] <= 'Z' then s[i] - 'A' + 'a' else s[i])
  }

  function Weekday(raw: string): Option<int> {
    var name := ToLower(TrimSpace(raw));
    if name == "sun" || name == "sunday" then Some(0)
    else if name == "mon" || name == "monday" then Some(1)
    else if name == "tue" || name == "tuesday" then Some(2)
    else if name == "wed" || name == "wednesday" then Some(3)
    else if name == "thu" || name == "thursday" then Some(4)
    else if name == "fri" || name == "friday" then Some(5)
    else if name == "sat" || name == "saturday" then Some(6)
    else None
  }

  predicate Digit(c: char) {
    '0' <= c <= '9'
  }

  function Value(c: char): int
    requires Digit(c)
  {
    (c - '0') as int
  }

  /** `HH:MM`: hours 00..24, minutes 00..59. */
  predicate ClockShaped(s: string) {
    && |s| == 5 && s[2] == ':'
    && Digit(s[0]) && Digit(s[1]) && Digit(s[3]) && Digit(s[4])
    && (s[0] == '0' || s[0] == '1' || (s[0] == '2' && s[1] <= '4'))
    && s[3] <= '5'
  }

  /** Seconds from midnight; 24:00 is the end of the day and only an end may be it. */
  function ParseClock(s: string, allowMidnightEnd: bool): (r: Option<int>)
    ensures r.Some? ==> 0 <= r.value <= DAY && (!allowMidnightEnd ==> r.value < DAY)
  {
    if !ClockShaped(s) then None else
      var hours, minutes := 10 * Value(s[0]) + Value(s[1]), 10 * Value(s[3]) + Value(s[4]);
      if hours == 24 && (!allowMidnightEnd || minutes != 0) then None
      else Some(hours * 3600 + minutes * 60)
  }

  /** Exactly the minutes of a day can be written, each in one way. */
  lemma ClocksAreMinutes(s: string, s': string, allow: bool, allow': bool)
    requires ParseClock(s, allow).Some? && ParseClock(s, allow) == ParseClock(s', allow')
    ensures s == s' && ParseClock(s, allow).value % 60 == 0
  {
    assert Value(s[0]) == Value(s'[0]) && Value(s[1]) == Value(s'[1]);
    assert Value(s[3]) == Value(s'[3]) && Value(s[4]) == Value(s'[4]);
    assert s[0] == s'[0] && s[1] == s'[1] && s[3] == s'[3] && s[4] == s'[4];
  }

  function ParseWindow(w: WindowText): Result<Window, CalendarError> {
    var start, end := ParseClock(w.start, false), ParseClock(w.end, true);
    if start.None? || end.None? then Err(ClockInvalid)
    else if end.value <= start.value then Err(WindowEmpty)
    else Ok(Window(start.value, end.value))
  }

  // -------------------------------------------------------------- sorting --

  function InsertWindow(w: Window, ws: seq<Window>): seq<Window> {
    if ws == [] || w.start <= ws[0].start then [w] + ws
    else [ws[0]] + InsertWindow(w, ws[1..])
  }

  function SortWindows(ws: seq<Window>): seq<Window> {
    if ws == [] then [] else InsertWindow(ws[0], SortWindows(ws[1..]))
  }

  ghost predicate SortedByStart(ws: seq<Window>) {
    forall i, j | 0 <= i < j < |ws| :: ws[i].start <= ws[j].start
  }

  ghost predicate Apart(v: Window, w: Window) {
    v.end <= w.start || w.end <= v.start
  }

  ghost predicate ApartFromAll(v: Window, ws: seq<Window>) {
    forall w | w in ws :: Apart(v, w)
  }

  ghost predicate PairwiseApart(ws: seq<Window>) {
    ws == [] || (ApartFromAll(ws[0], ws[1..]) && PairwiseApart(ws[1..]))
  }

  lemma {:induction false} InsertMembers(w: Window, ws: seq<Window>)
    ensures |InsertWindow(w, ws)| == |ws| + 1
    ensures forall x :: x in InsertWindow(w, ws) <==> x == w || x in ws
  {
    if ws != [] && w.start > ws[0].start {
      InsertMembers(w, ws[1..]);
      assert ws == [ws[0]] + ws[1..];
    }
  }

  lemma {:induction false} InsertSorts(w: Window, ws: seq<Window>)
    requires SortedByStart(ws)
    ensures SortedByStart(InsertWindow(w, ws))
  {
    if ws != [] && w.start > ws[0].start {
      InsertSorts(w, ws[1..]);
      InsertMembers(w, ws[1..]);
      var rest := InsertWindow(w, ws[1..]);
      forall j | 0 <= j < |rest| ensures ws[0].start <= rest[j].start {
        assert rest[j] in rest;
      }
    }
  }

  lemma {:induction false} InsertApart(w: Window, ws: seq<Window>)
    ensures PairwiseApart(InsertWindow(w, ws)) <==> ApartFromAll(w, ws) && PairwiseApart(ws)
  {
    if ws == [] || w.start <= ws[0].start {
      assert ([w] + ws)[1..] == ws;
    } else {
      InsertApart(w, ws[1..]);
      InsertMembers(w, ws[1..]);
      var rest := InsertWindow(w, ws[1..]);
      assert ([ws[0]] + rest)[1..] == rest;
      assert ApartFromAll(ws[0], rest) <==> Apart(ws[0], w) && ApartFromAll(ws[0], ws[1..]);
      assert ApartFromAll(w, ws) <==> Apart(w, ws[0]) && ApartFromAll(w, ws[1..]) by {
        assert ws == [ws[0]] + ws[1..];
      }
    }
  }

  lemma {:induction false} SortIsSorted(ws: seq<Window>)
    ensures var sorted := SortWindows(ws);
      && SortedByStart(sorted) && |sorted| == |ws|
      && (forall x :: x in sorted <==> x in ws)
      && (PairwiseApart(sorted) <==> PairwiseApart(ws))
  {
    if ws != [] {
      SortIsSorted(ws[1..]);
      InsertMembers(ws[0], SortWindows(ws[1..]));
      InsertSorts(ws[0], SortWindows(ws[1..]));
      InsertApart(ws[0], SortWindows(ws[1..]));
      assert ws == [ws[0]] + ws[1..];
    }
  }

  ghost predicate InOrder(ws: seq<Window>) {
    forall i, j | 0 <= i < j < |ws| :: ws[i].end <= ws[j].start
  }

  lemma InOrderSplits(ws: seq<Window>)
    requires ws != []
    ensures InOrder(ws) <==> InOrder(ws[1..]) && forall j | 1 <= j < |ws| :: ws[0].end <= ws[j].start
  {
    var rest := ws[1..];
    if InOrder(ws) {
      forall i, j | 0 <= i < j < |rest| ensures rest[i].end <= rest[j].start {
        assert rest[i] == ws[i + 1] && rest[j] == ws[j + 1];
      }
    }
    if InOrder(rest) && forall j | 1 <= j < |ws| :: ws[0].end <= ws[j].start {
      forall i, j | 0 <= i < j < |ws| ensures ws[i].end <= ws[j].start {
        if i > 0 { assert rest[i - 1] == ws[i] && rest[j - 1] == ws[j]; }
      }
    }
  }

  lemma FirstIsApart(ws: seq<Window>)
    requires ws != [] && SortedByStart(ws) && forall w | w in ws :: w.start < w.end
    ensures ApartFromAll(ws[0], ws[1..]) <==> forall j | 1 <= j < |ws| :: ws[0].end <= ws[j].start
  {
    forall j | 1 <= j < |ws| ensures Apart(ws[0], ws[j]) <==> ws[0].end <= ws[j].start {
      assert ws[0] in ws && ws[j] in ws;
    }
    if ApartFromAll(ws[0], ws[1..]) {
      forall j | 1 <= j < |ws| ensures ws[0].end <= ws[j].start { assert ws[j] in ws[1..]; }
    }
    if forall j | 1 <= j < |ws| :: ws[0].end <= ws[j].start {
      forall w | w in ws[1..] ensures Apart(ws[0], w) {
        var j :| 1 <= j < |ws| && ws[j] == w;
      }
    }
  }

  lemma {:induction false} ApartMeansInOrder(ws: seq<Window>)
    requires SortedByStart(ws) && forall w | w in ws :: w.start < w.end
    ensures PairwiseApart(ws) <==> InOrder(ws)
  {
    hide InOrder, ApartFromAll;
    if ws == [] {
      NoneInOrder();
    } else {
      assert forall w | w in ws[1..] :: w in ws;
      ApartMeansInOrder(ws[1..]);
      InOrderSplits(ws);
      FirstIsApart(ws);
    }
  }

  lemma NoneInOrder()
    ensures InOrder([])
  {
  }

  // ------------------------------------------------------------- compiling --

  ghost predicate GoodZone(timezone: string, zones: string -> Option<int>) {
    TrimSpace(timezone) != "" && TrimSpace(timezone) != "Local" && zones(TrimSpace(timezone)).Some?
  }

  function Weekdays(raw: seq<string>): (days: seq<Option<int>>)
    ensures |days| == |raw| && forall i | 0 <= i < |raw| :: days[i] == Weekday(raw[i])
  {
    seq(|raw|, i requires 0 <= i < |raw| => Weekday(raw[i]))
  }

  function ParseWindows(windows: seq<WindowText>): (r: seq<Result<Window, CalendarError>>)
    ensures |r| == |windows| && forall i | 0 <= i < |windows| :: r[i] == ParseWindow(windows[i])
  {
    seq(|windows|, i requires 0 <= i < |windows| => ParseWindow(windows[i]))
  }

  ghost predicate GoodWeekdays(days: seq<Option<int>>) {
    && days != []
    && (forall i | 0 <= i < |days| :: days[i].Some?)
    && (forall i, j | 0 <= i < j < |days| :: days[i] != days[j])
  }

  ghost predicate GoodWindows(windows: seq<Result<Window, CalendarError>>) {
    && windows != []
    && (forall i | 0 <= i < |windows| :: windows[i].Ok?)
    && (forall i, j | 0 <= i < j < |windows| :: Apart(windows[i].value, windows[j].value))
  }

  /** The configured meaning of the block: a listed weekday and a listed window. */
  ghost predicate Listed(
    days: seq<Option<int>>, windows: seq<Result<Window, CalendarError>>, weekday: int, second: int)
  {
    && Some(weekday) in days
    && exists i :: 0 <= i < |windows| && windows[i].Ok? && Inside(windows[i].value, second)
  }

  /** Each error is reported for what it says, and only once everything checked before it is in order. */
  ghost predicate Explains(
    timezone: string, weekdays: seq<string>, windows: seq<WindowText>, zones: string -> Option<int>, e: CalendarError)
  {
    var name, days, parsed := TrimSpace(timezone), Weekdays(weekdays), ParseWindows(windows);
    match e
    case TimezoneMissing => name == ""
    case TimezoneLocal => name == "Local"
    case TimezoneUnknown => name != "" && name != "Local" && zones(name).None?
    case WeekdaysMissing => GoodZone(timezone, zones) && days == []
    case WeekdayUnknown => GoodZone(timezone, zones) && None in days
    case WeekdayDuplicate => GoodZone(timezone, zones) && exists i, j | 0 <= i < j < |days| :: days[i] == days[j]
    case WindowsMissing => GoodZone(timezone, zones) && GoodWeekdays(days) && windows == []
    case WindowsOverlap =>
      && GoodZone(timezone, zones) && GoodWeekdays(days) && (forall i | 0 <= i < |parsed| :: parsed[i].Ok?)
      && exists i, j | 0 <= i < j < |parsed| :: !Apart(parsed[i].value, parsed[j].value)
    case _ => GoodZone(timezone, zones) && GoodWeekdays(days) && Err(e) in parsed
  }

  method CollectWeekdays(days: seq<Option<int>>) returns (r: Result<set<int>, CalendarError>)
    ensures r.Ok? <==> GoodWeekdays(days)
    ensures r.Err? ==>
      match r.error
      case WeekdaysMissing => days == []
      case WeekdayUnknown => None in days
      case WeekdayDuplicate => exists i, j | 0 <= i < j < |days| :: days[i] == days[j]
      case _ => false
    ensures r.Ok? ==> forall d :: d in r.value <==> Some(d) in days
  {
    if |days| == 0 {
      return Err(WeekdaysMissing);
    }
    var allowed: set<int> := {};
    for i := 0 to |days|
      invariant forall j | 0 <= j < i :: days[j].Some? && days[j].value in allowed
      invariant forall d | d in allowed :: exists j :: 0 <= j < i && days[j] == Some(d)
      invariant forall j, k | 0 <= j < k < i :: days[j] != days[k]
    {
      if days[i].None? {
        return Err(WeekdayUnknown);
      }
      var day := days[i].value;
      if day in allowed {
        assert exists j :: 0 <= j < i && days[j] == Some(day);
        assert days[i] == Some(day);
        return Err(WeekdayDuplicate);
      }
      allowed := allowed + {day};
    }
    r := Ok(allowed);
  }

  lemma {:induction false} ApartAppend(ws: seq<Window>, w: Window)
    ensures PairwiseApart(ws + [w]) <==> PairwiseApart(ws) && ApartFromAll(w, ws)
  {
    if ws != [] {
      ApartAppend(ws[1..], w);
      assert (ws + [w])[1..] == ws[1..] + [w];
      assert ApartFromAll(ws[0], ws[1..] + [w]) <==> ApartFromAll(ws[0], ws[1..]) && Apart(ws[0], w);
      assert ApartFromAll(w, ws) <==> Apart(w, ws[0]) && ApartFromAll(w, ws[1..]) by {
        assert ws == [ws[0]] + ws[1..];
      }
    } else {
      assert (ws + [w])[1..] == [];
    }
  }

  /** The parsed windows, up to the first text that does not parse. */
  method CollectWindows(windows: seq<Result<Window, CalendarError>>) returns (r: Result<seq<Window>, CalendarError>)
    ensures r.Ok? <==> forall i | 0 <= i < |windows| :: windows[i].Ok?
    ensures r.Err? ==> Err(r.error) in windows
    ensures r.Ok? ==>
      |r.value| == |windows| && forall i | 0 <= i < |windows| :: windows[i].Ok? && windows[i].value == r.value[i]
    ensures r.Ok? ==> (PairwiseApart(r.value) <==>
              forall j, k | 0 <= j < k < |windows| :: Apart(r.value[j], r.value[k]))
  {
    var parsed: seq<Window> := [];
    for i := 0 to |windows|
      invariant |parsed| == i
      invariant forall j | 0 <= j < i :: windows[j].Ok? && windows[j].value == parsed[j]
      invariant PairwiseApart(parsed) <==> forall j, k | 0 <= j < k < i :: Apart(parsed[j], parsed[k])
    {
      if windows[i].Err? {
        return Err(windows[i].error);
      }
      ApartAppend(parsed, windows[i].value);
      assert ApartFromAll(windows[i].value, parsed)
             <==> forall j | 0 <= j < i :: Apart(parsed[j], windows[i].value) by {
        assert forall j | 0 <= j < i :: parsed[j] in parsed;
        assert forall v | v in parsed :: Apart(windows[i].value, v) <==> Apart(v, windows[i].value);
      }
      parsed := parsed + [windows[i].value];
    }
    r := Ok(parsed);
  }

  method NeighboursApart(ws: seq<Window>) returns (apart: bool)
    requires |ws| > 0 && forall w | w in ws :: w.start < w.end
    ensures apart <==> InOrder(ws)
  {
    for i := 1 to |ws|
      invariant forall j | 1 <= j < i :: ws[j - 1].end <= ws[j].start
    {
      if ws[i].start < ws[i - 1].end {
        return false;
      }
    }
    NeighboursInOrder(ws);
    apart := true;
  }

  /** Sorting and comparing neighbours finds exactly the lists in which some two windows overlap. */
  method OrderWindows(parsed: seq<Window>) returns (r: Result<seq<Window>, CalendarError>)
    requires |parsed| > 0 && forall w | w in parsed :: w.start < w.end
    ensures r == Err(WindowsOverlap) <==> !PairwiseApart(parsed)
    ensures r.Ok? <==> PairwiseApart(parsed)
    ensures r.Ok? ==> |r.value| == |parsed| && InOrder(r.value) && forall w :: w in r.value <==> w in parsed
  {
    var sorted := SortWindows(parsed);
    SortIsSorted(parsed);
    ApartMeansInOrder(sorted);
    var apart := NeighboursApart(sorted);
    r := if apart then Ok(sorted) else Err(WindowsOverlap);
  }

  lemma {:induction false} NeighboursInOrder(ws: seq<Window>)
    requires forall w | w in ws :: w.start < w.end
    requires forall j | 1 <= j < |ws| :: ws[j - 1].end <= ws[j].start
    ensures InOrder(ws)
  {
    forall i, j | 0 <= i < j < |ws| ensures ws[i].end <= ws[j].start {
      OrderFrom(ws, i, j);
    }
  }

  lemma {:induction false} OrderFrom(ws: seq<Window>, i: nat, j: nat)
    requires i < j < |ws|
    requires forall w | w in ws :: w.start < w.end
    requires forall j | 1 <= j < |ws| :: ws[j - 1].end <= ws[j].start
    ensures ws[i].end <= ws[j].start
  {
    if i + 1 < j {
      OrderFrom(ws, i, j - 1);
      assert ws[j - 1] in ws;
    }
  }

  /**
   A block compiles exactly when its zone is known and explicit, its weekdays are known
   and distinct and its windows parse and are pairwise disjoint; the compiled calendar
   is open exactly at the listed weekdays and windows.
   */
  method CompileCalendar(
    timezone: string, weekdays: seq<string>, windows: seq<WindowText>, zones: string -> Option<int>)
    returns (r: Result<Calendar, CalendarError>)
    ensures r.Ok? <==>
      GoodZone(timezone, zones) && GoodWeekdays(Weekdays(weekdays)) && GoodWindows(ParseWindows(windows))
    ensures r.Err? ==> Explains(timezone, weekdays, windows, zones, r.error)
    ensures r.Ok? ==> Valid(r.value) && r.value.offset == zones(TrimSpace(timezone)).value
    ensures r.Ok? ==> forall t :: Open(r.value, t) <==>
              Listed(Weekdays(weekdays), ParseWindows(windows),
                     WeekdayOf(LocalDay(r.value, t)), SecondOfDay(r.value, t))
  {
    var name := TrimSpace(timezone);
    if name == "" {
      return Err(TimezoneMissing);
    }
    if name == "Local" {
      return Err(TimezoneLocal);
    }
    var zone := zones(name);
    if zone.None? {
      return Err(TimezoneUnknown);
    }
    var days := CollectWeekdays(Weekdays(weekdays));
    if days.Err? {
      return Err(days.error);
    }
    if |windows| == 0 {
      return Err(WindowsMissing);
    }
    var texts := ParseWindows(windows);
    var parsed := CollectWindows(texts);
    if parsed.Err? {
      return Err(parsed.error);
    }
    ParsedAreWindows(windows, parsed.value);
    var ranges := OrderWindows(parsed.value);
    if ranges.Err? {
      return Err(ranges.error);
    }
    var c := Calendar(zone.value, days.value, ranges.value);
    CompiledIsValid(weekdays, c);
    forall t ensures Open(c, t) <==> Listed(Weekdays(weekdays), texts, WeekdayOf(LocalDay(c, t)), SecondOfDay(c, t)) {
      WindowsMatch(c.windows, parsed.value, texts, SecondOfDay(c, t));
    }
    r := Ok(c);
  }

  lemma ParsedAreWindows(windows: seq<WindowText>, parsed: seq<Window>)
    requires |parsed| == |windows| && forall i | 0 <= i < |windows| :: ParseWindow(windows[i]) == Ok(parsed[i])
    ensures forall w | w in parsed :: 0 <= w.start < w.end <= DAY
  {
    forall w | w in parsed ensures 0 <= w.start < w.end <= DAY {
      var i :| 0 <= i < |parsed| && parsed[i] == w;
      assert ParseWindow(windows[i]) == Ok(w);
    }
  }

  lemma CompiledIsValid(weekdays: seq<string>, c: Calendar)
    requires GoodWeekdays(Weekdays(weekdays)) && forall d :: d in c.weekdays <==> Some(d) in Weekdays(weekdays)
    requires |c.windows| > 0 && InOrder(c.windows) && forall w | w in c.windows :: 0 <= w.start < w.end <= DAY
    ensures Valid(c)
  {
    var days := Weekdays(weekdays);
    assert days[0].value in c.weekdays;
    forall d | d in c.weekdays ensures 0 <= d < 7 {
      var i :| 0 <= i < |days| && days[i] == Some(d);
      assert Weekday(weekdays[i]) == Some(d);
    }
  }

  lemma WindowsMatch(ws: seq<Window>, parsed: seq<Window>, texts: seq<Result<Window, CalendarError>>, second: int)
    requires |parsed| == |texts| && forall i | 0 <= i < |texts| :: texts[i] == Ok(parsed[i])
    requires forall w :: w in ws <==> w in parsed
    ensures (exists i :: 0 <= i < |ws| && Inside(ws[i], second)) <==>
            (exists i :: 0 <= i < |texts| && texts[i].Ok? && Inside(texts[i].value, second))
  {
    if i :| 0 <= i < |ws| && Inside(ws[i], second) {
      assert ws[i] in parsed;
      var j :| 0 <= j < |parsed| && parsed[j] == ws[i];
      assert texts[j].Ok?;
    }
    if i :| 0 <= i < |texts| && texts[i].Ok? && Inside(texts[i].value, second) {
      assert parsed[i] in ws;
    }
  }
}
