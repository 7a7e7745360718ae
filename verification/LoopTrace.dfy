/**
 What a loop run is configured with, what it observes, what it does, and what every
 run must respect (internal/loop/runner.go).  Times are nanoseconds.
 */
module LoopTrace {
  import opened Common
  import LoopCalendar
  import UsagePace

  // --------------------------------------------------------- configuration --

  datatype Schedule = Schedule(every: nat, initialDelay: nat, onlyWhenIdle: bool, maxRuns: nat)

  /** A flow is a schedule whose one run is a list of steps. */
  datatype Flow = Flow(schedule: Schedule, steps: nat)

  datatype QuotaConfig = QuotaConfig(
    weeklySkipAt: real, requireHeadroom: bool, sessionMinRemaining: real, sessionGate: bool,
    refreshInterval: int, failClosed: bool)

  datatype Config = Config(
    idleAfter: int, assumeIdleOnStart: bool, maxRuntime: int, maxActions: nat, stopOnPrompt: bool, once: bool,
    ignore: string -> bool, calendar: Option<LoopCalendar.Calendar>, quota: Option<QuotaConfig>,
    actions: seq<Schedule>, flows: seq<Flow>)

  const DEFAULT_REFRESH := 300 * 1_000_000_000
  const DEFAULT_WEEKLY_SKIP_AT := 100.0
  const DEFAULT_SESSION_MIN_REMAINING := 20.0

  // ----------------------------------------------------------- observation --

  datatype Prompt = NoPrompt | CapacityRetry | OtherPrompt

  datatype UsageWindow = UsageWindow(name: string, used: real, pace: Option<UsagePace.Pace>)

  datatype Reading = NotListed | Broken | Stale | Windows(windows: seq<UsageWindow>)

  /** Stopped: a stop was requested before the input was sent.  Failed: sending or waiting after it failed. */
  datatype Outcome = Sent | Stopped | Failed

  /**
   What one cycle of the loop meets: whether it may run at all, the sampled clock, the
   captured lines (None when the capture failed), the prompt on screen, what a quota
   fetch would return, and what becomes of the n-th input sent in the cycle.
   */
  datatype Cycle = Cycle(
    runnable: bool, now: int, lines: Option<seq<string>>, prompt: Prompt, reading: Reading,
    acceptSent: bool, outcome: nat -> Outcome)

  function Kept(ignore: string -> bool, lines: seq<string>): seq<string> {
    if lines == [] then []
    else (if ignore(lines[0]) then [] else [lines[0]]) + Kept(ignore, lines[1..])
  }

  function Joined(lines: seq<string>): string {
    if lines == [] then "" else if |lines| == 1 then lines[0] else lines[0] + "\n" + Joined(lines[1..])
  }

  /** The text whose hash the loop compares. */
  function IdleText(cfg: Config, c: Cycle): string
    requires c.lines.Some?
  {
    Joined(Kept(cfg.ignore, c.lines.value))
  }

  // ----------------------------------------------------------------- quota --

  function Interval(q: QuotaConfig): (r: int)
    ensures r > 0
  {
    if q.refreshInterval <= 0 then DEFAULT_REFRESH else q.refreshInterval
  }

  /** The last window of that name, as the scan over the windows leaves it. */
  function LastNamed(windows: seq<UsageWindow>, name: string): Option<UsageWindow> {
    if windows == [] then None
    else if windows[|windows| - 1].name == name then Some(windows[|windows| - 1])
    else LastNamed(windows[..|windows| - 1], name)
  }

  /** Whether the reading makes a cycle skip. */
  function Skips(q: QuotaConfig, reading: Reading): bool {
    if !reading.Windows? || reading.windows == [] then q.failClosed else
      var weekly, session := LastNamed(reading.windows, "weekly"), LastNamed(reading.windows, "session");
      var weeklyAt := if q.weeklySkipAt <= 0.0 then DEFAULT_WEEKLY_SKIP_AT else q.weeklySkipAt;
      var minRemaining := if q.sessionMinRemaining <= 0.0 then DEFAULT_SESSION_MIN_REMAINING else q.sessionMinRemaining;
      if weekly.None? || (q.sessionGate && session.None?) then q.failClosed
      else if weekly.value.used >= weeklyAt then true
      else if q.requireHeadroom && weekly.value.pace.None? then q.failClosed
      else if q.requireHeadroom && weekly.value.pace.value.expected - weekly.value.pace.value.actual <= 0.0 then true
      else q.sessionGate && 100.0 - session.value.used <= minRemaining
  }

  // ----------------------------------------------------------------- trace --

  datatype Id = ActionId(index: nat) | FlowId(index: nat)

  /** `Started` of an action is the sending of its input; a flow sends one input per `Stepped`. */
  datatype Event =
    | Fetched(cycle: nat, now: int)
    | Accepted(cycle: nat)
    | Started(cycle: nat, now: int, id: Id)
    | Stepped(cycle: nat, flow: nat, step: nat)
    | Ended(cycle: nat, flow: nat)

  ghost function Inputs(trace: seq<Event>): nat {
    if trace == [] then 0 else
      var e := trace[|trace| - 1];
      Inputs(trace[..|trace| - 1]) + if e.Stepped? || (e.Started? && e.id.ActionId?) then 1 else 0
  }

  ghost function StartTimes(trace: seq<Event>, id: Id): seq<int> {
    if trace == [] then [] else
      var e := trace[|trace| - 1];
      StartTimes(trace[..|trace| - 1], id) + if e.Started? && e.id == id then [e.now] else []
  }

  ghost function FetchTimes(trace: seq<Event>): seq<int> {
    if trace == [] then [] else
      var e := trace[|trace| - 1];
      FetchTimes(trace[..|trace| - 1]) + if e.Fetched? then [e.now] else []
  }

  ghost predicate SpacedBy(times: seq<int>, gap: int) {
    forall i | 0 <= i < |times| - 1 :: times[i + 1] - times[i] >= gap
  }

  /** The runs of one schedule: never early, never too many, never too close. */
  ghost predicate TimesOk(s: Schedule, start: int, times: seq<int>) {
    && SpacedBy(times, s.every)
    && (s.every == 0 ==> |times| <= 1)
    && (s.maxRuns > 0 ==> |times| <= s.maxRuns)
    && (|times| > 0 ==> times[0] >= start + s.initialDelay)
  }

  function ScheduleOf(cfg: Config, id: Id): Schedule
    requires match id case ActionId(i) => i < |cfg.actions| case FlowId(i) => i < |cfg.flows|
  {
    match id
    case ActionId(i) => cfg.actions[i]
    case FlowId(i) => cfg.flows[i].schedule
  }

  predicate Known(cfg: Config, id: Id) {
    match id case ActionId(i) => i < |cfg.actions| case FlowId(i) => i < |cfg.flows|
  }

  ghost predicate CalendarOpen(cfg: Config, now: int) {
    cfg.calendar.Some? ==> LoopCalendar.Open(cfg.calendar.value, now)
  }

  /** A passing quota reading, fetched in this cycle or less than one refresh interval ago. */
  ghost predicate QuotaEvidence(cfg: Config, cycles: seq<Cycle>, trace: seq<Event>, c: nat)
    requires c < |cycles|
  {
    cfg.quota.Some? ==>
      exists p :: 0 <= p < |trace| && trace[p].Fetched? && trace[p].cycle <= c
        && (trace[p].cycle == c || cycles[c].now - trace[p].now < Interval(cfg.quota.value))
        && !Skips(cfg.quota.value, cycles[trace[p].cycle].reading)
  }

  ghost predicate Monotone(start: int, cycles: seq<Cycle>) {
    && (forall i | 0 <= i < |cycles| :: cycles[i].now >= start)
    && (forall i, j | 0 <= i < j < |cycles| :: cycles[i].now <= cycles[j].now)
  }

  /** Every observation in the trailing idle span shows the same text, and the span has been observed. */
  ghost predicate IdleEvidence(cfg: Config, start: int, cycles: seq<Cycle>, c: nat)
    requires c < |cycles|
  {
    && (!cfg.assumeIdleOnStart ==> cycles[c].now - start >= cfg.idleAfter)
    && (forall j | 0 <= j <= c && cycles[j].now > cycles[c].now - cfg.idleAfter ::
          && cycles[j].lines.Some? && cycles[c].lines.Some?
          && IdleText(cfg, cycles[j]) == IdleText(cfg, cycles[c]))
  }

  /** What holds of the cycle in which an action or flow starts. */
  ghost predicate StartOk(cfg: Config, start: int, cycles: seq<Cycle>, trace: seq<Event>, e: Event)
    requires e.Started?
  {
    && Known(cfg, e.id) && e.cycle < |cycles| && e.now == cycles[e.cycle].now
    && cycles[e.cycle].runnable
    && (cfg.maxRuntime > 0 ==> e.now - start < cfg.maxRuntime)
    && (cfg.stopOnPrompt ==> cycles[e.cycle].prompt.NoPrompt?)
    && CalendarOpen(cfg, e.now)
    && QuotaEvidence(cfg, cycles, trace, e.cycle)
    && (ScheduleOf(cfg, e.id).onlyWhenIdle && Monotone(start, cycles) ==> IdleEvidence(cfg, start, cycles, e.cycle))
  }

  /** After the start of a flow at p come its steps, in order, then its end, as far as the trace goes. */
  ghost predicate FlowRunsInOrder(cfg: Config, trace: seq<Event>, p: nat)
    requires p < |trace| && trace[p].Started? && trace[p].id.FlowId? && Known(cfg, trace[p].id)
  {
    var c, i := trace[p].cycle, trace[p].id.index;
    && (forall q | p < q < |trace| && q <= p + cfg.flows[i].steps :: trace[q] == Stepped(c, i, q - p - 1))
    && (p + 1 + cfg.flows[i].steps < |trace| ==> trace[p + 1 + cfg.flows[i].steps] == Ended(c, i))
  }

  /** A step belongs to the flow start that many events before it. */
  ghost predicate StepBelongs(trace: seq<Event>, q: nat)
    requires q < |trace| && trace[q].Stepped?
  {
    var p := q - 1 - trace[q].step;
    p >= 0 && trace[p].Started? && trace[p].id == FlowId(trace[q].flow) && trace[p].cycle == trace[q].cycle
  }

  ghost predicate FlowsInOrder(cfg: Config, trace: seq<Event>) {
    && (forall p | 0 <= p < |trace| && trace[p].Started? && trace[p].id.FlowId? ::
          Known(cfg, trace[p].id) && FlowRunsInOrder(cfg, trace, p))
    && (forall q | 0 <= q < |trace| && trace[q].Stepped? :: StepBelongs(trace, q))
  }

  /** Between two Enters on the capacity prompt lies a cycle without any prompt. */
  ghost predicate AcceptedApart(cycles: seq<Cycle>, trace: seq<Event>) {
    forall p, q | 0 <= p < q < |trace| && trace[p].Accepted? && trace[q].Accepted? ::
      exists c :: trace[p].cycle < c < trace[q].cycle && c < |cycles| && cycles[c].prompt.NoPrompt?
  }

  ghost predicate BudgetKept(cfg: Config, trace: seq<Event>) {
    cfg.maxActions > 0 ==> Inputs(trace) <= cfg.maxActions
  }

  ghost predicate AllTimesOk(cfg: Config, start: int, trace: seq<Event>) {
    forall id | Known(cfg, id) :: TimesOk(ScheduleOf(cfg, id), start, StartTimes(trace, id))
  }

  ghost predicate AllStartsOk(cfg: Config, start: int, cycles: seq<Cycle>, trace: seq<Event>) {
    forall p | 0 <= p < |trace| && trace[p].Started? :: StartOk(cfg, start, cycles, trace, trace[p])
  }

  ghost predicate FetchesSpaced(cfg: Config, trace: seq<Event>) {
    cfg.quota.Some? ==> SpacedBy(FetchTimes(trace), Interval(cfg.quota.value))
  }

  /** Everything promised of a run, complete or cut short. */
  ghost predicate TraceOk(cfg: Config, start: int, cycles: seq<Cycle>, trace: seq<Event>) {
    && BudgetKept(cfg, trace)
    && AllTimesOk(cfg, start, trace)
    && AllStartsOk(cfg, start, cycles, trace)
    && FlowsInOrder(cfg, trace)
    && FetchesSpaced(cfg, trace)
    && AcceptedApart(cycles, trace)
  }

  // -------------------------------------------------- consequences of TraceOk --

  lemma {:induction false} GapsAddUp(times: seq<int>, gap: int, i: nat, j: nat)
    requires SpacedBy(times, gap) && i <= j < |times|
    ensures times[j] - times[i] >= (j - i) * gap
    decreases j - i
  {
    if i < j {
      GapsAddUp(times, gap, i, j - 1);
      assert times[j - 1 + 1] - times[j - 1] >= gap;
      assert (j - i) * gap == (j - 1 - i) * gap + gap;
    }
  }

  lemma BurstBound(times: seq<int>, every: nat, from: int, span: nat, i: nat, j: nat)
    requires SpacedBy(times, every) && every > 0 && i <= j < |times|
    requires from <= times[i] && times[j] <= from + span
    ensures j - i + 1 <= span / every + 1
  {
    GapsAddUp(times, every, i, j);
    QuotientAtLeast(span, every, j - i);
  }

  /**
   No catch-up burst: whatever was closed, skipped or paused in between, any span of
   length `span` holds at most span / every + 1 runs of one schedule.
   */
  lemma NoCatchUpBurst(
    cfg: Config, start: int, cycles: seq<Cycle>, trace: seq<Event>, id: Id, from: int, span: nat, i: nat, j: nat)
    requires TraceOk(cfg, start, cycles, trace) && Known(cfg, id) && ScheduleOf(cfg, id).every > 0
    requires i <= j < |StartTimes(trace, id)|
    requires from <= StartTimes(trace, id)[i] && StartTimes(trace, id)[j] <= from + span
    ensures j - i + 1 <= span / ScheduleOf(cfg, id).every + 1
  {
    assert TimesOk(ScheduleOf(cfg, id), start, StartTimes(trace, id));
    BurstBound(StartTimes(trace, id), ScheduleOf(cfg, id).every, from, span, i, j);
  }

  lemma QuotientAtLeast(span: nat, every: nat, n: nat)
    requires every > 0 && n * every <= span
    ensures n <= span / every
  {
    if n > span / every {
      MultiplyMonotone(span / every + 1, n, every);
    }
  }

  lemma MultiplyMonotone(a: nat, b: nat, k: nat)
    requires a <= b
    ensures a * k <= b * k
  {
  }
}
