/**
 The loop runner (internal/loop/runner.go): Runner.Run over any sequence of cycles,
 with the fields and the per-schedule counters it updates in place.
 */
module LoopRunner {
  import opened Common
  import opened LoopTrace
  import LoopCalendar

  /** The mutable part of a schedule.  `limit` bounds its runs, if not 0; a run without `every` makes it the last. */
  datatype Sched = Sched(nextRun: int, runs: nat, limit: nat)

  datatype StopReason =
    | Requested | MaxRuntime | CaptureFailed | PermissionPrompt | MaxActions | SendFailed | OnceDone | Exhausted

  // ------------------------------------------------------ appending events --

  ghost predicate FlowsClosed(cfg: Config, trace: seq<Event>, before: nat)
    requires before <= |trace|
  {
    forall p | 0 <= p < before && trace[p].Started? && trace[p].id.FlowId? && trace[p].id.index < |cfg.flows| ::
      p + 1 + cfg.flows[trace[p].id.index].steps < |trace|
  }

  /** Flow i started `done` steps ago and is the only flow that has not ended. */
  ghost predicate FlowOpen(cfg: Config, trace: seq<Event>, c: nat, i: nat, done: nat) {
    && done < |trace| && i < |cfg.flows| && done <= cfg.flows[i].steps
    && var p := |trace| - 1 - done;
       && trace[p].Started? && trace[p].id == FlowId(i) && trace[p].cycle == c
       && FlowsClosed(cfg, trace, p)
  }

  lemma AppendCounts(trace: seq<Event>, e: Event)
    ensures Inputs(trace + [e]) == Inputs(trace) + if e.Stepped? || (e.Started? && e.id.ActionId?) then 1 else 0
    ensures forall id :: StartTimes(trace + [e], id)
                         == StartTimes(trace, id) + if e.Started? && e.id == id then [e.now] else []
    ensures FetchTimes(trace + [e]) == FetchTimes(trace) + if e.Fetched? then [e.now] else []
  {
    assert (trace + [e])[..|trace|] == trace;
  }

  ghost predicate FlowFits(cfg: Config, trace: seq<Event>, e: Event) {
    match e
    case Stepped(c, i, k) => FlowOpen(cfg, trace, c, i, k) && k < cfg.flows[i].steps
    case Ended(c, i) => FlowOpen(cfg, trace, c, i, if i < |cfg.flows| then cfg.flows[i].steps else 0)
    case Started(_, _, id) => FlowsClosed(cfg, trace, |trace|) && Known(cfg, id)
    case _ => FlowsClosed(cfg, trace, |trace|)
  }

  lemma AppendKeepsFlows(cfg: Config, trace: seq<Event>, e: Event)
    requires FlowsInOrder(cfg, trace) && FlowFits(cfg, trace, e)
    ensures FlowsInOrder(cfg, trace + [e])
  {
    var t := trace + [e];
    forall p | 0 <= p < |t| && t[p].Started? && t[p].id.FlowId?
      ensures Known(cfg, t[p].id) && FlowRunsInOrder(cfg, t, p)
    {
      if p < |trace| {
        assert FlowRunsInOrder(cfg, trace, p);
      }
    }
    forall q | 0 <= q < |t| && t[q].Stepped? ensures StepBelongs(t, q) {
      if q < |trace| {
        assert StepBelongs(trace, q);
      }
    }
  }

  lemma AppendKeepsClosed(cfg: Config, trace: seq<Event>, e: Event)
    requires FlowsInOrder(cfg, trace) && FlowFits(cfg, trace, e) && FlowsInOrder(cfg, trace + [e])
    ensures !e.Stepped? && !(e.Started? && e.id.FlowId?) ==> FlowsClosed(cfg, trace + [e], |trace| + 1)
    ensures e.Stepped? ==> FlowOpen(cfg, trace + [e], e.cycle, e.flow, e.step + 1)
    ensures e.Started? && e.id.FlowId? ==> FlowOpen(cfg, trace + [e], e.cycle, e.id.index, 0)
  {
  }

  /** What an event must satisfy besides fitting the flows. */
  ghost predicate EventFits(cfg: Config, start: int, cycles: seq<Cycle>, trace: seq<Event>, e: Event) {
    && e.cycle < |cycles|
    && (cfg.maxActions > 0 && (e.Stepped? || (e.Started? && e.id.ActionId?)) ==> Inputs(trace) < cfg.maxActions)
    && (e.Started? ==>
          && StartOk(cfg, start, cycles, trace, e)
          && TimesOk(ScheduleOf(cfg, e.id), start, StartTimes(trace, e.id) + [e.now]))
    && (e.Fetched? && cfg.quota.Some? && FetchTimes(trace) != [] ==>
          e.now - FetchTimes(trace)[|FetchTimes(trace)| - 1] >= Interval(cfg.quota.value))
    && (e.Accepted? ==> forall p | 0 <= p < |trace| && trace[p].Accepted? ::
          exists c :: trace[p].cycle < c < e.cycle && c < |cycles| && cycles[c].prompt.NoPrompt?)
  }

  lemma QuotaEvidenceStays(cfg: Config, cycles: seq<Cycle>, trace: seq<Event>, e: Event, c: nat)
    requires c < |cycles| && QuotaEvidence(cfg, cycles, trace, c)
    ensures QuotaEvidence(cfg, cycles, trace + [e], c)
  {
    if cfg.quota.Some? {
      var p :| 0 <= p < |trace| && trace[p].Fetched? && trace[p].cycle <= c
        && (trace[p].cycle == c || cycles[c].now - trace[p].now < Interval(cfg.quota.value))
        && !Skips(cfg.quota.value, cycles[trace[p].cycle].reading);
      assert (trace + [e])[p] == trace[p];
    }
  }

  lemma AppendKeepsStarts(cfg: Config, start: int, cycles: seq<Cycle>, trace: seq<Event>, e: Event)
    requires AllStartsOk(cfg, start, cycles, trace)
    requires e.Started? ==> StartOk(cfg, start, cycles, trace, e)
    ensures AllStartsOk(cfg, start, cycles, trace + [e])
  {
    var t := trace + [e];
    forall p | 0 <= p < |t| && t[p].Started? ensures StartOk(cfg, start, cycles, t, t[p]) {
      assert StartOk(cfg, start, cycles, trace, t[p]) by {
        if p < |trace| { assert t[p] == trace[p]; } else { assert t[p] == e; }
      }
      QuotaEvidenceStays(cfg, cycles, trace, e, t[p].cycle);
    }
  }

  lemma AppendKeepsTimes(cfg: Config, start: int, trace: seq<Event>, e: Event)
    requires AllTimesOk(cfg, start, trace)
    requires e.Started? ==> Known(cfg, e.id) && TimesOk(ScheduleOf(cfg, e.id), start, StartTimes(trace, e.id) + [e.now])
    ensures AllTimesOk(cfg, start, trace + [e])
  {
    AppendCounts(trace, e);
    forall id | Known(cfg, id) ensures TimesOk(ScheduleOf(cfg, id), start, StartTimes(trace + [e], id)) {
      if !(e.Started? && e.id == id) {
        assert StartTimes(trace, id) + [] == StartTimes(trace, id);
      }
    }
  }

  lemma AppendKeepsCounters(cfg: Config, start: int, cycles: seq<Cycle>, trace: seq<Event>, e: Event)
    requires BudgetKept(cfg, trace) && FetchesSpaced(cfg, trace) && EventFits(cfg, start, cycles, trace, e)
    ensures BudgetKept(cfg, trace + [e]) && FetchesSpaced(cfg, trace + [e])
  {
    AppendCounts(trace, e);
  }

  lemma AppendKeepsAccepted(cycles: seq<Cycle>, trace: seq<Event>, e: Event)
    requires AcceptedApart(cycles, trace)
    requires e.Accepted? ==> forall p | 0 <= p < |trace| && trace[p].Accepted? ::
          exists c :: trace[p].cycle < c < e.cycle && c < |cycles| && cycles[c].prompt.NoPrompt?
    ensures AcceptedApart(cycles, trace + [e])
  {
  }

  lemma AppendKeepsTraceOk(cfg: Config, start: int, cycles: seq<Cycle>, trace: seq<Event>, e: Event)
    requires TraceOk(cfg, start, cycles, trace) && FlowFits(cfg, trace, e) && EventFits(cfg, start, cycles, trace, e)
    ensures TraceOk(cfg, start, cycles, trace + [e])
    ensures !e.Stepped? && !(e.Started? && e.id.FlowId?) ==> FlowsClosed(cfg, trace + [e], |trace| + 1)
    ensures e.Stepped? ==> FlowOpen(cfg, trace + [e], e.cycle, e.flow, e.step + 1)
    ensures e.Started? && e.id.FlowId? ==> FlowOpen(cfg, trace + [e], e.cycle, e.id.index, 0)
  {
    AppendKeepsCounters(cfg, start, cycles, trace, e);
    AppendKeepsFlows(cfg, trace, e);
    AppendKeepsStarts(cfg, start, cycles, trace, e);
    AppendKeepsTimes(cfg, start, trace, e);
    AppendKeepsAccepted(cycles, trace, e);
    AppendKeepsClosed(cfg, trace, e);
  }

  lemma MonotonePrefix(start: int, cycles: seq<Cycle>, c: Cycle)
    requires Monotone(start, cycles + [c])
    ensures Monotone(start, cycles)
  {
    var cs := cycles + [c];
    forall i | 0 <= i < |cycles| ensures cycles[i].now >= start { assert cs[i] == cycles[i]; }
    forall i, j | 0 <= i < j < |cycles| ensures cycles[i].now <= cycles[j].now {
      assert cs[i] == cycles[i] && cs[j] == cycles[j];
    }
  }

  lemma GrowingCyclesKeepStart(cfg: Config, start: int, cycles: seq<Cycle>, trace: seq<Event>, c: Cycle, e: Event)
    requires e.Started? && StartOk(cfg, start, cycles, trace, e)
    ensures StartOk(cfg, start, cycles + [c], trace, e)
  {
    var cs := cycles + [c];
    assert cs[e.cycle] == cycles[e.cycle];
    if cfg.quota.Some? {
      var q :| 0 <= q < |trace| && trace[q].Fetched? && trace[q].cycle <= e.cycle
        && (trace[q].cycle == e.cycle || cycles[e.cycle].now - trace[q].now < Interval(cfg.quota.value))
        && !Skips(cfg.quota.value, cycles[trace[q].cycle].reading);
      assert cs[trace[q].cycle] == cycles[trace[q].cycle];
      assert QuotaEvidence(cfg, cs, trace, e.cycle);
    }
    if ScheduleOf(cfg, e.id).onlyWhenIdle && Monotone(start, cs) {
      MonotonePrefix(start, cycles, c);
      forall j | 0 <= j <= e.cycle ensures cs[j] == cycles[j] {
      }
    }
  }

  lemma GrowingCyclesKeepTraceOk(cfg: Config, start: int, cycles: seq<Cycle>, trace: seq<Event>, c: Cycle)
    requires TraceOk(cfg, start, cycles, trace)
    ensures TraceOk(cfg, start, cycles + [c], trace)
  {
    var cs := cycles + [c];
    forall p | 0 <= p < |trace| && trace[p].Started? ensures StartOk(cfg, start, cs, trace, trace[p]) {
      GrowingCyclesKeepStart(cfg, start, cycles, trace, c, trace[p]);
    }
    forall p, q | 0 <= p < q < |trace| && trace[p].Accepted? && trace[q].Accepted?
      ensures exists k :: trace[p].cycle < k < trace[q].cycle && k < |cs| && cs[k].prompt.NoPrompt?
    {
      var k :| trace[p].cycle < k < trace[q].cycle && k < |cycles| && cycles[k].prompt.NoPrompt?;
      assert cs[k] == cycles[k];
    }
  }

  // ------------------------------------------- the fields and their meaning --

  /** How a schedule's counters reflect the times at which it has run. */
  ghost predicate SchedLink(s: Schedule, start: int, st: Sched, times: seq<int>) {
    && st.runs == |times|
    && (times == [] ==> st.nextRun == start + s.initialDelay && st.limit == s.maxRuns)
    && (times != [] && s.every > 0 ==> st.nextRun == times[|times| - 1] + s.every && st.limit == s.maxRuns)
    && (times != [] && s.every == 0 ==> st.limit == |times|)
  }

  ghost predicate SchedsLink(cfg: Config, start: int, trace: seq<Event>, actions: seq<Sched>, flows: seq<Sched>) {
    && |actions| == |cfg.actions| && |flows| == |cfg.flows|
    && (forall i | 0 <= i < |actions| :: SchedLink(cfg.actions[i], start, actions[i], StartTimes(trace, ActionId(i))))
    && (forall i | 0 <= i < |flows| :: SchedLink(cfg.flows[i].schedule, start, flows[i], StartTimes(trace, FlowId(i))))
  }

  ghost predicate QuotaLink(
    cfg: Config, cycles: seq<Cycle>, trace: seq<Event>, have: bool, fetched: int, snap: Reading)
  {
    && (!have ==> FetchTimes(trace) == [])
    && (have ==>
          && FetchTimes(trace) != [] && FetchTimes(trace)[|FetchTimes(trace)| - 1] == fetched
          && exists p :: 0 <= p < |trace| && trace[p].Fetched? && trace[p].now == fetched
               && trace[p].cycle < |cycles| && snap == cycles[trace[p].cycle].reading)
  }

  /** From cycle k on every observation showed `text`, and the idle clock started at cycle k (or with the run). */
  ghost predicate IdleLink(
    cfg: Config, start: int, cycles: seq<Cycle>, text: Option<string>, changedAt: int, k: nat)
  {
    var base := if cfg.assumeIdleOnStart then start - cfg.idleAfter else start;
    && (cycles == [] <==> text.None?)
    && (cycles == [] ==> changedAt == base)
    && (cycles != [] ==>
          && k < |cycles| && changedAt == (if k == 0 then base else cycles[k].now)
          && forall j | k <= j < |cycles| :: cycles[j].lines.Some? && IdleText(cfg, cycles[j]) == text.value)
  }

  /** After an answered capacity prompt, a second Enter waits for a cycle without a prompt. */
  ghost predicate AcceptLink(cfg: Config, cycles: seq<Cycle>, trace: seq<Event>, answered: bool) {
    forall p | 0 <= p < |trace| && trace[p].Accepted? ::
      && cfg.stopOnPrompt && trace[p].cycle < |cycles|
      && (!answered ==> exists c :: trace[p].cycle < c < |cycles| && cycles[c].prompt.NoPrompt?)
  }

  lemma IdleMeansEvidence(cfg: Config, start: int, cycles: seq<Cycle>, text: Option<string>, changedAt: int, k: nat)
    requires cycles != [] && IdleLink(cfg, start, cycles, text, changedAt, k)
    requires cycles[|cycles| - 1].now - changedAt >= cfg.idleAfter
    requires Monotone(start, cycles)
    ensures IdleEvidence(cfg, start, cycles, |cycles| - 1)
  {
    var c := |cycles| - 1;
    forall j | 0 <= j <= c && cycles[j].now > cycles[c].now - cfg.idleAfter
      ensures cycles[j].lines.Some? && cycles[c].lines.Some? && IdleText(cfg, cycles[j]) == IdleText(cfg, cycles[c])
    {
      assert k <= j;
    }
  }

  lemma NextRunIsOk(s: Schedule, start: int, st: Sched, times: seq<int>, now: int)
    requires SchedLink(s, start, st, times) && TimesOk(s, start, times)
    requires now >= st.nextRun && (st.limit > 0 ==> st.runs < st.limit)
    ensures TimesOk(s, start, times + [now])
  {
    var t := times + [now];
    forall i | 0 <= i < |t| - 1 ensures t[i + 1] - t[i] >= s.every {
      if i < |times| - 1 { assert times[i + 1] - times[i] >= s.every; }
    }
  }

  /** The counters after a run at `now`. */
  function AfterRun(s: Schedule, st: Sched, now: int): Sched {
    if s.every > 0 then Sched(now + s.every, st.runs + 1, st.limit)
    else Sched(0, st.runs + 1, st.runs + 1)
  }

  /** A schedule whose time has come and whose runs are not used up. */
  predicate Due(st: Sched, now: int) {
    now >= st.nextRun && (st.limit > 0 ==> st.runs < st.limit)
  }

  /** A schedule of these settings has run as often as it ever may. */
  ghost predicate UsedUp(s: Schedule, times: seq<int>) {
    if s.every == 0 then |times| == 1 else s.maxRuns > 0 && |times| == s.maxRuns
  }

  ghost predicate AllUsedUp(cfg: Config, trace: seq<Event>) {
    forall id | Known(cfg, id) :: UsedUp(ScheduleOf(cfg, id), StartTimes(trace, id))
  }

  lemma LimitReachedIsUsedUp(s: Schedule, start: int, st: Sched, times: seq<int>)
    requires SchedLink(s, start, st, times) && TimesOk(s, start, times)
    ensures UsedUp(s, times) <==> st.limit > 0 && st.runs >= st.limit
  {
  }

  lemma SchedsLinkStays(
    cfg: Config, start: int, trace: seq<Event>, e: Event, actions: seq<Sched>, flows: seq<Sched>)
    requires SchedsLink(cfg, start, trace, actions, flows) && !e.Started?
    ensures SchedsLink(cfg, start, trace + [e], actions, flows)
  {
    AppendCounts(trace, e);
    forall id ensures StartTimes(trace + [e], id) == StartTimes(trace, id) {
      assert StartTimes(trace, id) + [] == StartTimes(trace, id);
    }
  }

  lemma OtherTimesStay(trace: seq<Event>, e: Event, id: Id)
    requires e.Started? ==> e.id != id
    ensures StartTimes(trace + [e], id) == StartTimes(trace, id)
  {
    AppendCounts(trace, e);
    assert StartTimes(trace, id) + [] == StartTimes(trace, id);
  }

  lemma StartedLink(s: Schedule, start: int, trace: seq<Event>, e: Event, st: Sched)
    requires e.Started? && SchedLink(s, start, st, StartTimes(trace, e.id))
    ensures SchedLink(s, start, AfterRun(s, st, e.now), StartTimes(trace + [e], e.id))
  {
    AppendCounts(trace, e);
  }

  lemma SchedsLinkAction(
    cfg: Config, start: int, trace: seq<Event>, e: Event, actions: seq<Sched>, flows: seq<Sched>, i: nat)
    requires SchedsLink(cfg, start, trace, actions, flows) && i < |actions| && e.Started? && e.id == ActionId(i)
    ensures SchedsLink(cfg, start, trace + [e], actions[i := AfterRun(cfg.actions[i], actions[i], e.now)], flows)
  {
    StartedLink(cfg.actions[i], start, trace, e, actions[i]);
    forall j | 0 <= j < |actions| && j != i
      ensures StartTimes(trace + [e], ActionId(j)) == StartTimes(trace, ActionId(j))
    {
      OtherTimesStay(trace, e, ActionId(j));
    }
    forall j | 0 <= j < |flows| ensures StartTimes(trace + [e], FlowId(j)) == StartTimes(trace, FlowId(j)) {
      OtherTimesStay(trace, e, FlowId(j));
    }
  }

  lemma SchedsLinkFlow(
    cfg: Config, start: int, trace: seq<Event>, e: Event, actions: seq<Sched>, flows: seq<Sched>, i: nat)
    requires SchedsLink(cfg, start, trace, actions, flows) && i < |flows| && e.Started? && e.id == FlowId(i)
    ensures SchedsLink(cfg, start, trace + [e], actions, flows[i := AfterRun(cfg.flows[i].schedule, flows[i], e.now)])
  {
    StartedLink(cfg.flows[i].schedule, start, trace, e, flows[i]);
    forall j | 0 <= j < |flows| && j != i ensures StartTimes(trace + [e], FlowId(j)) == StartTimes(trace, FlowId(j)) {
      OtherTimesStay(trace, e, FlowId(j));
    }
    forall j | 0 <= j < |actions| ensures StartTimes(trace + [e], ActionId(j)) == StartTimes(trace, ActionId(j)) {
      OtherTimesStay(trace, e, ActionId(j));
    }
  }

  lemma QuotaLinkStays(
    cfg: Config, cycles: seq<Cycle>, trace: seq<Event>, e: Event, have: bool, fetched: int, snap: Reading)
    requires QuotaLink(cfg, cycles, trace, have, fetched, snap) && !e.Fetched?
    ensures QuotaLink(cfg, cycles, trace + [e], have, fetched, snap)
  {
    AppendCounts(trace, e);
    assert FetchTimes(trace) + [] == FetchTimes(trace);
    if have {
      var p :| 0 <= p < |trace| && trace[p].Fetched? && trace[p].now == fetched
        && trace[p].cycle < |cycles| && snap == cycles[trace[p].cycle].reading;
      assert (trace + [e])[p] == trace[p];
    }
  }

  lemma FreshFetchLink(cfg: Config, cycles: seq<Cycle>, trace: seq<Event>, c: nat)
    requires c < |cycles|
    ensures QuotaLink(cfg, cycles, trace + [Fetched(c, cycles[c].now)], true, cycles[c].now, cycles[c].reading)
  {
    AppendCounts(trace, Fetched(c, cycles[c].now));
    assert (trace + [Fetched(c, cycles[c].now)])[|trace|] == Fetched(c, cycles[c].now);
  }

  lemma GrowingCyclesKeepLinks(
    cfg: Config, cycles: seq<Cycle>, trace: seq<Event>, c: Cycle, have: bool, fetched: int, snap: Reading,
    answered: bool)
    requires AcceptLink(cfg, cycles, trace, answered)
    requires cfg.quota.Some? ==> QuotaLink(cfg, cycles, trace, have, fetched, snap)
    ensures AcceptLink(cfg, cycles + [c], trace, answered)
    ensures cfg.quota.Some? ==> QuotaLink(cfg, cycles + [c], trace, have, fetched, snap)
  {
    var cs := cycles + [c];
    if cfg.quota.Some? && have {
      var p :| 0 <= p < |trace| && trace[p].Fetched? && trace[p].now == fetched
        && trace[p].cycle < |cycles| && snap == cycles[trace[p].cycle].reading;
      assert cs[trace[p].cycle] == cycles[trace[p].cycle];
    }
    forall p | 0 <= p < |trace| && trace[p].Accepted? && !answered
      ensures exists k :: trace[p].cycle < k < |cs| && cs[k].prompt.NoPrompt?
    {
      var k :| trace[p].cycle < k < |cycles| && cycles[k].prompt.NoPrompt?;
      assert cs[k] == cycles[k];
    }
  }

  predicate Complete(st: Sched) {
    st.limit > 0 && st.runs >= st.limit
  }

  predicate SchedulesComplete(actions: seq<Sched>, flows: seq<Sched>) {
    && (forall i | 0 <= i < |actions| :: Complete(actions[i]))
    && (forall i | 0 <= i < |flows| :: Complete(flows[i]))
  }

  lemma RunsAreTimely(cfg: Config, start: int, cycles: seq<Cycle>, trace: seq<Event>)
    requires TraceOk(cfg, start, cycles, trace)
    ensures AllTimesOk(cfg, start, trace)
  {
  }

  lemma CompleteMeansUsedUp(
    cfg: Config, start: int, trace: seq<Event>, actions: seq<Sched>, flows: seq<Sched>)
    requires AllTimesOk(cfg, start, trace) && SchedsLink(cfg, start, trace, actions, flows)
    ensures SchedulesComplete(actions, flows) <==> AllUsedUp(cfg, trace)
  {
    forall id | Known(cfg, id)
      ensures UsedUp(ScheduleOf(cfg, id), StartTimes(trace, id)) <==>
        match id case ActionId(i) => Complete(actions[i]) case FlowId(i) => Complete(flows[i])
    {
      assert TimesOk(ScheduleOf(cfg, id), start, StartTimes(trace, id));
      match id
      case ActionId(i) => LimitReachedIsUsedUp(cfg.actions[i], start, actions[i], StartTimes(trace, id));
      case FlowId(i) => LimitReachedIsUsedUp(cfg.flows[i].schedule, start, flows[i], StartTimes(trace, id));
    }
    if AllUsedUp(cfg, trace) {
      forall i | 0 <= i < |actions| ensures Complete(actions[i]) { assert Known(cfg, ActionId(i)); }
      forall i | 0 <= i < |flows| ensures Complete(flows[i]) { assert Known(cfg, FlowId(i)); }
    }
  }

  /** What has been established about the cycle at hand when its actions and flows are considered. */
  ghost predicate InCycle(
    cfg: Config, start: int, cycles: seq<Cycle>, trace: seq<Event>, c: Cycle, idle: bool, skip: bool)
  {
    && |cycles| > 0 && cycles[|cycles| - 1] == c
    && c.runnable
    && (cfg.maxRuntime > 0 ==> c.now - start < cfg.maxRuntime)
    && (cfg.stopOnPrompt ==> c.prompt.NoPrompt?)
    && (!skip ==> CalendarOpen(cfg, c.now) && QuotaEvidence(cfg, cycles, trace, |cycles| - 1))
    && (idle && Monotone(start, cycles) ==> IdleEvidence(cfg, start, cycles, |cycles| - 1))
  }

  /** Schedules before `n` that are still due are only waiting for an idle pane. */
  ghost predicate Served(settings: seq<Schedule>, scheds: seq<Sched>, n: nat, now: int, idle: bool)
    requires n <= |settings| == |scheds|
  {
    forall j | 0 <= j < n :: Due(scheds[j], now) ==> settings[j].onlyWhenIdle && !idle
  }

  function FlowSchedules(flows: seq<Flow>): (r: seq<Schedule>)
    ensures |r| == |flows| && forall i | 0 <= i < |r| :: r[i] == flows[i].schedule
  {
    seq(|flows|, i requires 0 <= i < |flows| => flows[i].schedule)
  }

  /** A schedule's counters and the caches agree with what the run has done. */
  ghost predicate Books(
    cfg: Config, start: int, cycles: seq<Cycle>, trace: seq<Event>, actions: seq<Sched>, flows: seq<Sched>,
    count: nat, have: bool, fetched: int, snap: Reading, answered: bool)
  {
    && TraceOk(cfg, start, cycles, trace)
    && |actions| == |cfg.actions| && |flows| == |cfg.flows|
    && SchedsLink(cfg, start, trace, actions, flows)
    && count == Inputs(trace)
    && (cfg.quota.Some? ==> QuotaLink(cfg, cycles, trace, have, fetched, snap))
    && AcceptLink(cfg, cycles, trace, answered)
  }

  lemma AcceptLinkStays(cfg: Config, cycles: seq<Cycle>, trace: seq<Event>, e: Event, answered: bool)
    requires AcceptLink(cfg, cycles, trace, answered) && !e.Accepted?
    ensures AcceptLink(cfg, cycles, trace + [e], answered)
  {
    forall p | 0 <= p < |trace + [e]| && (trace + [e])[p].Accepted? ensures (trace + [e])[p] == trace[p] {
    }
  }

  lemma FetchFits(
    cfg: Config, start: int, cycles: seq<Cycle>, trace: seq<Event>, have: bool, fetched: int, snap: Reading)
    requires TraceOk(cfg, start, cycles, trace) && FlowsClosed(cfg, trace, |trace|) && cycles != []
    requires cfg.quota.Some? && QuotaLink(cfg, cycles, trace, have, fetched, snap)
    requires !have || cycles[|cycles| - 1].now - fetched >= Interval(cfg.quota.value)
    ensures var e := Fetched(|cycles| - 1, cycles[|cycles| - 1].now);
      FlowFits(cfg, trace, e) && EventFits(cfg, start, cycles, trace, e)
  {
    hide AllTimesOk, AllStartsOk, FlowsInOrder, FlowsClosed;
  }

  lemma FetchKeepsBooks(
    cfg: Config, start: int, cycles: seq<Cycle>, trace: seq<Event>, actions: seq<Sched>, flows: seq<Sched>,
    count: nat, have: bool, fetched: int, snap: Reading, answered: bool)
    requires Books(cfg, start, cycles, trace, actions, flows, count, have, fetched, snap, answered)
    requires FlowsClosed(cfg, trace, |trace|) && cycles != [] && cfg.quota.Some?
    requires !have || cycles[|cycles| - 1].now - fetched >= Interval(cfg.quota.value)
    ensures var c := |cycles| - 1; var t := trace + [Fetched(c, cycles[c].now)];
      Books(cfg, start, cycles, t, actions, flows, count, true, cycles[c].now, cycles[c].reading, answered)
      && FlowsClosed(cfg, t, |t|)
  {
    hide TraceOk, SchedsLink, QuotaLink, AcceptLink, FlowFits, EventFits, Inputs, FlowsClosed;
    var c := |cycles| - 1;
    var e := Fetched(c, cycles[c].now);
    FetchFits(cfg, start, cycles, trace, have, fetched, snap);
    AppendKeepsTraceOk(cfg, start, cycles, trace, e);
    SchedsLinkStays(cfg, start, trace, e, actions, flows);
    AcceptLinkStays(cfg, cycles, trace, e, answered);
    AppendCounts(trace, e);
    FreshFetchLink(cfg, cycles, trace, c);
  }

  lemma AcceptKeepsBooks(
    cfg: Config, start: int, cycles: seq<Cycle>, trace: seq<Event>, actions: seq<Sched>, flows: seq<Sched>,
    count: nat, have: bool, fetched: int, snap: Reading)
    requires Books(cfg, start, cycles, trace, actions, flows, count, have, fetched, snap, false)
    requires FlowsClosed(cfg, trace, |trace|) && cycles != []
    requires cfg.stopOnPrompt && !cycles[|cycles| - 1].prompt.NoPrompt?
    ensures var t := trace + [Accepted(|cycles| - 1)];
      Books(cfg, start, cycles, t, actions, flows, count, have, fetched, snap, true) && FlowsClosed(cfg, t, |t|)
  {
    hide TraceOk;
    var e := Accepted(|cycles| - 1);
    forall p | 0 <= p < |trace| && trace[p].Accepted?
      ensures exists c :: trace[p].cycle < c < e.cycle && c < |cycles| && cycles[c].prompt.NoPrompt?
    {
      var c :| trace[p].cycle < c < |cycles| && cycles[c].prompt.NoPrompt?;
    }
    AppendKeepsTraceOk(cfg, start, cycles, trace, e);
    SchedsLinkStays(cfg, start, trace, e, actions, flows);
    AppendCounts(trace, e);
    if cfg.quota.Some? { QuotaLinkStays(cfg, cycles, trace, e, have, fetched, snap); }
  }

  /** A due schedule may start in a cycle that nothing holds back. */
  lemma StartFits(
    cfg: Config, start: int, cycles: seq<Cycle>, trace: seq<Event>, st: Sched, c: Cycle, id: Id, idle: bool)
    requires TraceOk(cfg, start, cycles, trace) && FlowsClosed(cfg, trace, |trace|) && Known(cfg, id)
    requires InCycle(cfg, start, cycles, trace, c, idle, false)
    requires SchedLink(ScheduleOf(cfg, id), start, st, StartTimes(trace, id))
    requires Due(st, c.now) && (ScheduleOf(cfg, id).onlyWhenIdle ==> idle)
    requires id.ActionId? && cfg.maxActions > 0 ==> Inputs(trace) < cfg.maxActions
    ensures var e := Started(|cycles| - 1, c.now, id);
      FlowFits(cfg, trace, e) && EventFits(cfg, start, cycles, trace, e)
  {
    assert TimesOk(ScheduleOf(cfg, id), start, StartTimes(trace, id));
    NextRunIsOk(ScheduleOf(cfg, id), start, st, StartTimes(trace, id), c.now);
  }

  lemma ActionKeepsBooks(
    cfg: Config, start: int, cycles: seq<Cycle>, trace: seq<Event>, actions: seq<Sched>, flows: seq<Sched>,
    count: nat, have: bool, fetched: int, snap: Reading, answered: bool, c: Cycle, i: nat, idle: bool)
    requires Books(cfg, start, cycles, trace, actions, flows, count, have, fetched, snap, answered)
    requires FlowsClosed(cfg, trace, |trace|) && InCycle(cfg, start, cycles, trace, c, idle, false)
    requires i < |actions| && Due(actions[i], c.now) && (cfg.actions[i].onlyWhenIdle ==> idle)
    requires cfg.maxActions > 0 ==> count < cfg.maxActions
    ensures var t := trace + [Started(|cycles| - 1, c.now, ActionId(i))];
      && Books(cfg, start, cycles, t, actions[i := AfterRun(cfg.actions[i], actions[i], c.now)], flows,
               count + 1, have, fetched, snap, answered)
      && FlowsClosed(cfg, t, |t|) && InCycle(cfg, start, cycles, t, c, idle, false)
  {
    hide TraceOk, QuotaLink, AcceptLink, QuotaEvidence, IdleEvidence, Inputs, FlowFits, EventFits;
    var e := Started(|cycles| - 1, c.now, ActionId(i));
    StartFits(cfg, start, cycles, trace, actions[i], c, ActionId(i), idle);
    AppendKeepsTraceOk(cfg, start, cycles, trace, e);
    SchedsLinkAction(cfg, start, trace, e, actions, flows, i);
    AppendCounts(trace, e);
    if cfg.quota.Some? { QuotaLinkStays(cfg, cycles, trace, e, have, fetched, snap); }
    AcceptLinkStays(cfg, cycles, trace, e, answered);
    QuotaEvidenceStays(cfg, cycles, trace, e, |cycles| - 1);
  }

  lemma FlowStartKeepsBooks(
    cfg: Config, start: int, cycles: seq<Cycle>, trace: seq<Event>, actions: seq<Sched>, flows: seq<Sched>,
    count: nat, have: bool, fetched: int, snap: Reading, answered: bool, c: Cycle, i: nat, idle: bool)
    requires Books(cfg, start, cycles, trace, actions, flows, count, have, fetched, snap, answered)
    requires FlowsClosed(cfg, trace, |trace|) && InCycle(cfg, start, cycles, trace, c, idle, false)
    requires i < |flows| && Due(flows[i], c.now) && (cfg.flows[i].schedule.onlyWhenIdle ==> idle)
    ensures var t := trace + [Started(|cycles| - 1, c.now, FlowId(i))];
      && Books(cfg, start, cycles, t, actions, flows[i := AfterRun(cfg.flows[i].schedule, flows[i], c.now)],
               count, have, fetched, snap, answered)
      && FlowOpen(cfg, t, |cycles| - 1, i, 0) && InCycle(cfg, start, cycles, t, c, idle, false)
  {
    hide TraceOk, QuotaLink, AcceptLink, QuotaEvidence, IdleEvidence, Inputs, FlowFits, EventFits;
    var e := Started(|cycles| - 1, c.now, FlowId(i));
    StartFits(cfg, start, cycles, trace, flows[i], c, FlowId(i), idle);
    AppendKeepsTraceOk(cfg, start, cycles, trace, e);
    SchedsLinkFlow(cfg, start, trace, e, actions, flows, i);
    AppendCounts(trace, e);
    if cfg.quota.Some? { QuotaLinkStays(cfg, cycles, trace, e, have, fetched, snap); }
    AcceptLinkStays(cfg, cycles, trace, e, answered);
    QuotaEvidenceStays(cfg, cycles, trace, e, |cycles| - 1);
  }

  /** A step of the open flow. */
  lemma StepKeepsBooks(
    cfg: Config, start: int, cycles: seq<Cycle>, trace: seq<Event>, actions: seq<Sched>, flows: seq<Sched>,
    count: nat, have: bool, fetched: int, snap: Reading, answered: bool, c: Cycle, i: nat, done: nat, idle: bool)
    requires Books(cfg, start, cycles, trace, actions, flows, count, have, fetched, snap, answered)
    requires InCycle(cfg, start, cycles, trace, c, idle, false) && FlowOpen(cfg, trace, |cycles| - 1, i, done)
    requires done < cfg.flows[i].steps && (cfg.maxActions > 0 ==> count < cfg.maxActions)
    ensures var t := trace + [Stepped(|cycles| - 1, i, done)];
      && Books(cfg, start, cycles, t, actions, flows, count + 1, have, fetched, snap, answered)
      && FlowOpen(cfg, t, |cycles| - 1, i, done + 1) && InCycle(cfg, start, cycles, t, c, idle, false)
  {
    hide TraceOk, SchedsLink, QuotaLink, AcceptLink, QuotaEvidence, IdleEvidence, Inputs, FlowsClosed, FlowOpen;
    var e := Stepped(|cycles| - 1, i, done);
    AppendKeepsTraceOk(cfg, start, cycles, trace, e);
    SchedsLinkStays(cfg, start, trace, e, actions, flows);
    AcceptLinkStays(cfg, cycles, trace, e, answered);
    AppendCounts(trace, e);
    if cfg.quota.Some? { QuotaLinkStays(cfg, cycles, trace, e, have, fetched, snap); }
    QuotaEvidenceStays(cfg, cycles, trace, e, |cycles| - 1);
  }

  /** The end of the open flow, after its last step. */
  lemma EndKeepsBooks(
    cfg: Config, start: int, cycles: seq<Cycle>, trace: seq<Event>, actions: seq<Sched>, flows: seq<Sched>,
    count: nat, have: bool, fetched: int, snap: Reading, answered: bool, c: Cycle, i: nat, done: nat, idle: bool)
    requires Books(cfg, start, cycles, trace, actions, flows, count, have, fetched, snap, answered)
    requires InCycle(cfg, start, cycles, trace, c, idle, false) && FlowOpen(cfg, trace, |cycles| - 1, i, done)
    requires done == cfg.flows[i].steps
    ensures var t := trace + [Ended(|cycles| - 1, i)];
      && Books(cfg, start, cycles, t, actions, flows, count, have, fetched, snap, answered)
      && FlowsClosed(cfg, t, |t|) && InCycle(cfg, start, cycles, t, c, idle, false)
  {
    hide TraceOk, SchedsLink, QuotaLink, AcceptLink, QuotaEvidence, IdleEvidence, Inputs, FlowsClosed;
    var e := Ended(|cycles| - 1, i);
    AppendKeepsTraceOk(cfg, start, cycles, trace, e);
    SchedsLinkStays(cfg, start, trace, e, actions, flows);
    AcceptLinkStays(cfg, cycles, trace, e, answered);
    AppendCounts(trace, e);
    if cfg.quota.Some? { QuotaLinkStays(cfg, cycles, trace, e, have, fetched, snap); }
    QuotaEvidenceStays(cfg, cycles, trace, e, |cycles| - 1);
  }

  lemma GrowingCyclesKeepBooks(
    cfg: Config, start: int, cycles: seq<Cycle>, trace: seq<Event>, actions: seq<Sched>, flows: seq<Sched>,
    count: nat, have: bool, fetched: int, snap: Reading, answered: bool, c: Cycle)
    requires Books(cfg, start, cycles, trace, actions, flows, count, have, fetched, snap, answered)
    ensures Books(cfg, start, cycles + [c], trace, actions, flows, count, have, fetched, snap, answered)
    ensures c.prompt.NoPrompt? || !cfg.stopOnPrompt ==>
      Books(cfg, start, cycles + [c], trace, actions, flows, count, have, fetched, snap, false)
  {
    hide TraceOk;
    GrowingCyclesKeepTraceOk(cfg, start, cycles, trace, c);
    GrowingCyclesKeepLinks(cfg, cycles, trace, c, have, fetched, snap, answered);
    if c.prompt.NoPrompt? {
      forall p | 0 <= p < |trace| && trace[p].Accepted?
        ensures exists k :: trace[p].cycle < k < |cycles + [c]| && (cycles + [c])[k].prompt.NoPrompt?
      {
        assert (cycles + [c])[|cycles|] == c;
      }
    }
  }

  /** Flow i may start in the last cycle: due, not skipped, idle if required, and held back by nothing else. */
  ghost predicate FlowMayStart(cfg: Config, start: int, cycles: seq<Cycle>, trace: seq<Event>, i: nat)
    requires cycles != []
  {
    var e := Started(|cycles| - 1, cycles[|cycles| - 1].now, FlowId(i));
    FlowFits(cfg, trace, e) && EventFits(cfg, start, cycles, trace, e)
  }

  /** The budget of actions is used up, or a flow that may start now does not fit into what is left. */
  ghost predicate BudgetSpent(cfg: Config, start: int, cycles: seq<Cycle>, trace: seq<Event>)
    requires cycles != []
  {
    cfg.maxActions > 0
    && (|| Inputs(trace) >= cfg.maxActions
        || exists i | 0 <= i < |cfg.flows| ::
             Inputs(trace) + cfg.flows[i].steps > cfg.maxActions && FlowMayStart(cfg, start, cycles, trace, i))
  }

  lemma FlowTooLarge(
    cfg: Config, start: int, cycles: seq<Cycle>, trace: seq<Event>, actions: seq<Sched>, flows: seq<Sched>,
    count: nat, have: bool, fetched: int, snap: Reading, answered: bool, c: Cycle, i: nat, idle: bool)
    requires Books(cfg, start, cycles, trace, actions, flows, count, have, fetched, snap, answered)
    requires FlowsClosed(cfg, trace, |trace|) && InCycle(cfg, start, cycles, trace, c, idle, false)
    requires i < |flows| && Due(flows[i], c.now) && (cfg.flows[i].schedule.onlyWhenIdle ==> idle)
    requires cfg.maxActions > 0 && cfg.flows[i].steps > cfg.maxActions - count
    ensures BudgetSpent(cfg, start, cycles, trace)
  {
    hide TraceOk, QuotaLink, AcceptLink, QuotaEvidence, IdleEvidence, Inputs, FlowFits, EventFits;
    StartFits(cfg, start, cycles, trace, flows[i], c, FlowId(i), idle);
    assert FlowMayStart(cfg, start, cycles, trace, i);
  }

  /** Some input of the cycle fares like that. */
  ghost predicate SomeInput(c: Cycle, o: Outcome) {
    exists n: nat :: c.outcome(n) == o
  }

  /** Why the last cycle ends the run. */
  ghost predicate Explains(
    cfg: Config, start: int, cycles: seq<Cycle>, trace: seq<Event>, stop: Option<StopReason>)
    requires cycles != []
  {
    var c := cycles[|cycles| - 1];
    match stop
    case None => !cfg.once
    case Some(Requested) => !c.runnable || SomeInput(c, Stopped)
    case Some(MaxRuntime) => cfg.maxRuntime > 0 && c.now - start >= cfg.maxRuntime
    case Some(CaptureFailed) => c.lines.None?
    case Some(PermissionPrompt) => cfg.stopOnPrompt && c.prompt.OtherPrompt?
    case Some(MaxActions) => BudgetSpent(cfg, start, cycles, trace)
    case Some(SendFailed) => !c.acceptSent || SomeInput(c, Failed)
    case Some(OnceDone) => cfg.once
    case Some(Exhausted) => AllUsedUp(cfg, trace)
  }

  // ---------------------------------------------------------------- Runner --

  class Runner {
    const cfg: Config
    const start: int
    var actions: seq<Sched>
    var flows: seq<Sched>
    var actionCount: nat
    var lastText: Option<string>
    var lastChangedAt: int
    var quotaHave: bool
    var quotaSnap: Reading
    var quotaFetched: int
    var capacityPromptAnswered: bool
    /** The cycles met and the things done so far. */
    var cycles: seq<Cycle>
    var trace: seq<Event>
    /** The cycle in which the idle clock last restarted. */
    ghost var changedAt: nat

    /** Nothing done so far breaks a promise. */
    ghost predicate Safe()
      reads this
    {
      TraceOk(cfg, start, cycles, trace)
    }

    /** Everything but the idle clock, which only Observe touches. */
    ghost predicate InOrder()
      reads this
    {
      && Books(cfg, start, cycles, trace, actions, flows, actionCount,
               quotaHave, quotaFetched, quotaSnap, capacityPromptAnswered)
      && FlowsClosed(cfg, trace, |trace|)
    }

    /** Between cycles. */
    ghost predicate Valid()
      reads this
    {
      && InOrder()
      && IdleLink(cfg, start, cycles, lastText, lastChangedAt, changedAt)
      && (cfg.calendar.Some? ==> LoopCalendar.Valid(cfg.calendar.value))
    }

    constructor (cfg: Config, start: int)
      requires cfg.calendar.Some? ==> LoopCalendar.Valid(cfg.calendar.value)
      ensures Valid() && this.cfg == cfg && this.start == start && cycles == [] && trace == []
    {
      this.cfg, this.start := cfg, start;
      actions := seq(|cfg.actions|, i requires 0 <= i < |cfg.actions| =>
        Sched(start + cfg.actions[i].initialDelay, 0, cfg.actions[i].maxRuns));
      flows := seq(|cfg.flows|, i requires 0 <= i < |cfg.flows| =>
        Sched(start + cfg.flows[i].schedule.initialDelay, 0, cfg.flows[i].schedule.maxRuns));
      actionCount := 0;
      lastText := None;
      lastChangedAt := if cfg.assumeIdleOnStart then start - cfg.idleAfter else start;
      quotaHave, quotaSnap, quotaFetched := false, NotListed, 0;
      capacityPromptAnswered := false;
      trace, cycles, changedAt := [], [], 0;
    }

    /** Compares the filtered text of this cycle with the last one and restarts the idle clock on a change. */
    method Observe(c: Cycle) returns (idle: bool)
      requires c.lines.Some? && |cycles| > 0 && cycles[|cycles| - 1] == c
      requires IdleLink(cfg, start, cycles[..|cycles| - 1], lastText, lastChangedAt, changedAt)
      modifies this`lastText, this`lastChangedAt, this`changedAt
      ensures IdleLink(cfg, start, cycles, lastText, lastChangedAt, changedAt)
      ensures idle && Monotone(start, cycles) ==> IdleEvidence(cfg, start, cycles, |cycles| - 1)
    {
      var text := IdleText(cfg, c);
      idle := c.now - lastChangedAt >= cfg.idleAfter;
      if lastText.None? {
        lastText := Some(text);
        changedAt := 0;
      } else if lastText.value != text {
        lastText := Some(text);
        lastChangedAt := c.now;
        changedAt := |cycles| - 1;
        idle := false;
      }
      if idle && Monotone(start, cycles) {
        IdleMeansEvidence(cfg, start, cycles, lastText, lastChangedAt, changedAt);
      }
    }

    /** Decides whether the cycle skips, from a reading that is at most one refresh interval old. */
    method EvaluateQuota(c: Cycle) returns (skip: bool)
      requires InOrder() && |cycles| > 0 && cycles[|cycles| - 1] == c
      modifies this`trace, this`quotaHave, this`quotaSnap, this`quotaFetched
      ensures InOrder()
      ensures skip <==> cfg.quota.Some? && Skips(cfg.quota.value, quotaSnap)
      ensures cfg.quota.Some? ==> quotaHave && c.now - quotaFetched < Interval(cfg.quota.value)
      ensures trace == old(trace) || trace == old(trace) + [Fetched(|cycles| - 1, c.now)]
      ensures !skip ==> QuotaEvidence(cfg, cycles, trace, |cycles| - 1)
    {
      hide TraceOk, SchedsLink, QuotaLink, AcceptLink, FlowsClosed;
      if cfg.quota.None? { return false; }
      var q := cfg.quota.value;
      if !quotaHave || c.now - quotaFetched >= Interval(q) {
        FetchKeepsBooks(cfg, start, cycles, trace, actions, flows, actionCount,
                        quotaHave, quotaFetched, quotaSnap, capacityPromptAnswered);
        quotaHave, quotaSnap, quotaFetched := true, c.reading, c.now;
        trace := trace + [Fetched(|cycles| - 1, c.now)];
      }
      skip := Skips(q, quotaSnap);
      if !skip { LinkedReadingIsEvidence(cfg, cycles, trace, quotaFetched, quotaSnap); }
    }

    /** Sends the input of action i if it is due and nothing holds it back. */
    method MaybeRunAction(c: Cycle, i: nat, idle: bool, skip: bool, n: nat)
      returns (executed: bool, stop: Option<StopReason>)
      requires InOrder() && InCycle(cfg, start, cycles, trace, c, idle, skip)
      requires i < |actions| && (cfg.maxActions > 0 ==> actionCount < cfg.maxActions)
      modifies this`trace, this`actions, this`actionCount
      ensures Safe()
      ensures var wanted := Due(old(actions[i]), c.now) && !skip && (cfg.actions[i].onlyWhenIdle ==> idle);
        && (executed <==> wanted && c.outcome(n).Sent?)
        && (stop.Some? <==> wanted && !executed)
        && (stop.Some? ==> stop == Some(if c.outcome(n).Stopped? then Requested else SendFailed))
        && trace == old(trace) + if wanted && !c.outcome(n).Stopped? then [Started(|cycles| - 1, c.now, ActionId(i))]
                                 else []
      ensures actions == if executed then old(actions)[i := AfterRun(cfg.actions[i], old(actions[i]), c.now)]
                         else old(actions)
      ensures stop.None? ==> InOrder() && InCycle(cfg, start, cycles, trace, c, idle, skip)
    {
      hide TraceOk, SchedsLink, QuotaLink, AcceptLink, FlowsClosed;
      hide IdleEvidence, QuotaEvidence, Monotone;
      var st := actions[i];
      if c.now < st.nextRun || (st.limit > 0 && st.runs >= st.limit) || skip || (cfg.actions[i].onlyWhenIdle && !idle) {
        return false, None;
      }
      if c.outcome(n).Stopped? { return false, Some(Requested); }
      ActionKeepsBooks(cfg, start, cycles, trace, actions, flows, actionCount,
                       quotaHave, quotaFetched, quotaSnap, capacityPromptAnswered, c, i, idle);
      trace := trace + [Started(|cycles| - 1, c.now, ActionId(i))];
      if c.outcome(n).Failed? { return false, Some(SendFailed); }
      actions := actions[i := AfterRun(cfg.actions[i], st, c.now)];
      actionCount := actionCount + 1;
      executed, stop := true, None;
    }

    /** Sends every step of the flow that has just started, in order, until one fails; then ends it. */
    method RunSteps(c: Cycle, i: nat, idle: bool, n: nat, ghost after: seq<Sched>)
      returns (executed: nat, stop: Option<StopReason>)
      requires Books(cfg, start, cycles, trace, actions, after, actionCount,
                     quotaHave, quotaFetched, quotaSnap, capacityPromptAnswered)
      requires InCycle(cfg, start, cycles, trace, c, idle, false) && FlowOpen(cfg, trace, |cycles| - 1, i, 0)
      requires cfg.maxActions > 0 ==> actionCount + cfg.flows[i].steps <= cfg.maxActions
      modifies this`trace
      ensures Safe() && old(trace) <= trace && stop != Some(Exhausted)
      ensures stop.None? <==> forall k | n <= k < n + cfg.flows[i].steps :: c.outcome(k).Sent?
      ensures stop.Some? ==>
        (stop == Some(Requested) && SomeInput(c, Stopped)) || (stop == Some(SendFailed) && SomeInput(c, Failed))
      ensures stop.None? ==>
        && executed == cfg.flows[i].steps && |trace| == |old(trace)| + executed + 1
        && Books(cfg, start, cycles, trace, actions, after, actionCount + executed,
                 quotaHave, quotaFetched, quotaSnap, capacityPromptAnswered)
        && FlowsClosed(cfg, trace, |trace|) && InCycle(cfg, start, cycles, trace, c, idle, false)
    {
      hide TraceOk, SchedsLink, QuotaLink, AcceptLink, FlowsClosed;
      hide IdleEvidence, QuotaEvidence, Monotone;
      executed := 0;
      while executed < cfg.flows[i].steps
        invariant executed <= cfg.flows[i].steps && old(trace) <= trace && |trace| == |old(trace)| + executed
        invariant Books(cfg, start, cycles, trace, actions, after, actionCount + executed,
                        quotaHave, quotaFetched, quotaSnap, capacityPromptAnswered)
        invariant FlowOpen(cfg, trace, |cycles| - 1, i, executed) && InCycle(cfg, start, cycles, trace, c, idle, false)
        invariant forall k | n <= k < n + executed :: c.outcome(k).Sent?
      {
        if c.outcome(n + executed).Stopped? { return executed, Some(Requested); }
        StepKeepsBooks(cfg, start, cycles, trace, actions, after, actionCount + executed,
                            quotaHave, quotaFetched, quotaSnap, capacityPromptAnswered, c, i, executed, idle);
        trace := trace + [Stepped(|cycles| - 1, i, executed)];
        if c.outcome(n + executed).Failed? { return executed, Some(SendFailed); }
        executed := executed + 1;
      }
      EndKeepsBooks(cfg, start, cycles, trace, actions, after, actionCount + executed,
                          quotaHave, quotaFetched, quotaSnap, capacityPromptAnswered, c, i, executed, idle);
      trace := trace + [Ended(|cycles| - 1, i)];
      stop := None;
    }

    /** Runs flow i from its first step to its last if it is due, nothing holds it back and the budget covers it. */
    method MaybeRunFlow(c: Cycle, i: nat, idle: bool, skip: bool, n: nat)
      returns (executed: nat, stop: Option<StopReason>)
      requires InOrder() && InCycle(cfg, start, cycles, trace, c, idle, skip)
      requires i < |flows| && (cfg.maxActions > 0 ==> actionCount < cfg.maxActions)
      modifies this`trace, this`flows, this`actionCount
      ensures Safe() && old(trace) <= trace && stop != Some(Exhausted)
      ensures var wanted := Due(old(flows[i]), c.now) && !skip && (cfg.flows[i].schedule.onlyWhenIdle ==> idle);
        var fits := cfg.maxActions > 0 ==> old(actionCount) + cfg.flows[i].steps <= cfg.maxActions;
        && (stop == Some(MaxActions) <==> wanted && !fits)
        && (stop.None? && wanted ==> executed == cfg.flows[i].steps && |trace| == |old(trace)| + executed + 2)
        && (stop.None? && wanted ==> forall k | n <= k < n + executed :: c.outcome(k).Sent?)
        && (!wanted || !fits ==> executed == 0 && trace == old(trace))
        && flows == if wanted && stop.None? then old(flows)[i := AfterRun(cfg.flows[i].schedule, old(flows[i]), c.now)]
                    else old(flows)
      ensures stop.Some? && stop != Some(MaxActions) ==>
        || (stop == Some(Requested) && SomeInput(c, Stopped))
        || (stop == Some(SendFailed) && SomeInput(c, Failed))
      ensures stop == Some(MaxActions) ==> BudgetSpent(cfg, start, cycles, trace)
      ensures stop.None? ==> InOrder() && InCycle(cfg, start, cycles, trace, c, idle, skip)
    {
      hide TraceOk, SchedsLink, QuotaLink, AcceptLink, FlowsClosed;
      hide IdleEvidence, QuotaEvidence, Monotone, BudgetSpent, SomeInput, FlowOpen, Inputs;
      var st := flows[i];
      if c.now < st.nextRun || (st.limit > 0 && st.runs >= st.limit) || skip
         || (cfg.flows[i].schedule.onlyWhenIdle && !idle)
      {
        return 0, None;
      }
      if cfg.maxActions > 0 && cfg.flows[i].steps > cfg.maxActions - actionCount {
        FlowTooLarge(cfg, start, cycles, trace, actions, flows, actionCount,
                     quotaHave, quotaFetched, quotaSnap, capacityPromptAnswered, c, i, idle);
        return 0, Some(MaxActions);
      }
      FlowStartKeepsBooks(cfg, start, cycles, trace, actions, flows, actionCount,
                          quotaHave, quotaFetched, quotaSnap, capacityPromptAnswered, c, i, idle);
      trace := trace + [Started(|cycles| - 1, c.now, FlowId(i))];
      executed, stop := RunSteps(c, i, idle, n, flows[i := AfterRun(cfg.flows[i].schedule, st, c.now)]);
      if stop.None? {
        flows := flows[i := AfterRun(cfg.flows[i].schedule, st, c.now)];
        actionCount := actionCount + executed;
      }
    }

    /** Presses Enter on the capacity prompt, unless that was done since the last cycle without a prompt. */
    method AnswerCapacityPrompt(c: Cycle) returns (stop: Option<StopReason>)
      requires InOrder() && |cycles| > 0 && cycles[|cycles| - 1] == c && cfg.stopOnPrompt && c.prompt.CapacityRetry?
      modifies this`trace, this`capacityPromptAnswered
      ensures Safe()
      ensures trace == old(trace) + if old(capacityPromptAnswered) then [] else [Accepted(|cycles| - 1)]
      ensures stop.None? || stop == Some(SendFailed)
      ensures stop.Some? <==> !old(capacityPromptAnswered) && !c.acceptSent
      ensures stop.None? ==> InOrder() && capacityPromptAnswered
    {
      hide TraceOk, SchedsLink, QuotaLink, AcceptLink, FlowsClosed;
      if !capacityPromptAnswered {
        AcceptKeepsBooks(cfg, start, cycles, trace, actions, flows, actionCount, quotaHave, quotaFetched, quotaSnap);
        trace := trace + [Accepted(|cycles| - 1)];
        if !c.acceptSent { return Some(SendFailed); }
        capacityPromptAnswered := true;
      }
      stop := None;
    }

    /** Takes every action in turn; afterwards only those waiting for an idle pane are still due. */
    method RunActions(c: Cycle, idle: bool, open: bool, skip: bool) returns (n: nat, stop: Option<StopReason>)
      requires InOrder() && InCycle(cfg, start, cycles, trace, c, idle, !open || skip)
      modifies this`trace, this`actions, this`actionCount
      ensures Safe() && old(trace) <= trace && stop != Some(Exhausted)
      ensures stop.Some? ==>
        || (stop == Some(Requested) && SomeInput(c, Stopped))
        || (stop == Some(SendFailed) && SomeInput(c, Failed))
        || (stop == Some(MaxActions) && BudgetSpent(cfg, start, cycles, trace))
      ensures stop.None? ==> InOrder() && InCycle(cfg, start, cycles, trace, c, idle, !open || skip)
      ensures stop.None? && open && !skip ==> Served(cfg.actions, actions, |actions|, c.now, idle)
      ensures !open || skip ==> trace == old(trace)
    {
      hide TraceOk, SchedsLink, QuotaLink, AcceptLink, FlowsClosed;
      hide IdleEvidence, QuotaEvidence, Monotone;
      n := 0;
      for i := 0 to |cfg.actions|
        invariant old(trace) <= trace
        invariant InOrder() && InCycle(cfg, start, cycles, trace, c, idle, !open || skip)
        invariant open && !skip ==> Served(cfg.actions, actions, i, c.now, idle)
        invariant !open || skip ==> trace == old(trace)
      {
        if cfg.maxActions > 0 && actionCount >= cfg.maxActions { return n, Some(MaxActions); }
        if !open { continue; }
        var executed;
        executed, stop := MaybeRunAction(c, i, idle, skip, n);
        if stop.Some? { return; }
        n := n + if executed then 1 else 0;
      }
      stop := None;
    }

    /** Takes every flow in turn; afterwards only those waiting for an idle pane are still due. */
    method RunFlows(c: Cycle, idle: bool, open: bool, skip: bool, sent: nat) returns (stop: Option<StopReason>)
      requires InOrder() && InCycle(cfg, start, cycles, trace, c, idle, !open || skip)
      modifies this`trace, this`flows, this`actionCount
      ensures Safe() && old(trace) <= trace && stop != Some(Exhausted)
      ensures stop.Some? ==>
        || (stop == Some(Requested) && SomeInput(c, Stopped))
        || (stop == Some(SendFailed) && SomeInput(c, Failed))
        || (stop == Some(MaxActions) && BudgetSpent(cfg, start, cycles, trace))
      ensures stop.None? ==> InOrder() && InCycle(cfg, start, cycles, trace, c, idle, !open || skip)
      ensures stop.None? && open && !skip ==> Served(FlowSchedules(cfg.flows), flows, |flows|, c.now, idle)
      ensures !open || skip ==> trace == old(trace)
    {
      hide TraceOk, SchedsLink, QuotaLink, AcceptLink, FlowsClosed;
      hide IdleEvidence, QuotaEvidence, Monotone;
      var n := sent;
      for i := 0 to |cfg.flows|
        invariant old(trace) <= trace
        invariant InOrder() && InCycle(cfg, start, cycles, trace, c, idle, !open || skip)
        invariant open && !skip ==> Served(FlowSchedules(cfg.flows), flows, i, c.now, idle)
        invariant !open || skip ==> trace == old(trace)
      {
        if cfg.maxActions > 0 && actionCount >= cfg.maxActions { return Some(MaxActions); }
        if !open { continue; }
        var executed;
        executed, stop := MaybeRunFlow(c, i, idle, skip, n);
        if stop.Some? { return; }
        n := n + executed;
      }
      stop := None;
    }

    /** Whether nothing but the idle clock may hold back what is due in this cycle. */
    ghost predicate May(c: Cycle)
      reads this
    {
      && (cfg.stopOnPrompt ==> c.prompt.NoPrompt?)
      && CalendarOpen(cfg, c.now)
      && !(cfg.quota.Some? && Skips(cfg.quota.value, quotaSnap))
    }

    /** The gates, then every action, then every flow. */
    method Work(c: Cycle, idle: bool) returns (stop: Option<StopReason>)
      requires InOrder() && InCycle(cfg, start, cycles, trace, c, idle, true)
      requires cfg.calendar.Some? ==> LoopCalendar.Valid(cfg.calendar.value)
      modifies this`trace, this`actions, this`flows, this`actionCount, this`quotaHave, this`quotaSnap, this`quotaFetched
      ensures Safe() && old(trace) <= trace && stop != Some(Exhausted)
      ensures stop.Some? ==> Explains(cfg, start, cycles, trace, stop)
      ensures stop.None? ==> InOrder()
      ensures stop.None? && May(c) ==>
        && Served(cfg.actions, actions, |actions|, c.now, idle)
        && Served(FlowSchedules(cfg.flows), flows, |flows|, c.now, idle)
      ensures stop.None? && !May(c) ==> forall p | |old(trace)| <= p < |trace| :: trace[p].Fetched?
      ensures CalendarOpen(cfg, c.now) && cfg.quota.Some? ==>
        quotaHave && c.now - quotaFetched < Interval(cfg.quota.value)
    {
      hide TraceOk, SchedsLink, QuotaLink, AcceptLink, FlowsClosed;
      hide IdleEvidence, QuotaEvidence, Monotone;
      var open := true;
      if cfg.calendar.Some? {
        var window := LoopCalendar.OpenWindow(cfg.calendar.value, c.now);
        open := window.Some?;
      }
      var skip := false;
      if open {
        skip := EvaluateQuota(c);
      }
      var n;
      n, stop := RunActions(c, idle, open, skip);
      if stop.Some? { return; }
      stop := RunFlows(c, idle, open, skip, n);
    }

    /** The beginning of a cycle: may it run at all, and what does the pane show. */
    method Look(c: Cycle) returns (stop: Option<StopReason>, idle: bool)
      requires Valid()
      modifies this`cycles, this`lastText, this`lastChangedAt, this`changedAt
      ensures Safe() && cycles == old(cycles) + [c]
      ensures stop.Some? ==> Explains(cfg, start, cycles, trace, stop) && stop != Some(Exhausted)
      ensures stop.None? <==> c.runnable && (cfg.maxRuntime > 0 ==> c.now - start < cfg.maxRuntime) && c.lines.Some?
      ensures stop.None? ==>
        && InOrder() && IdleLink(cfg, start, cycles, lastText, lastChangedAt, changedAt)
        && (idle && Monotone(start, cycles) ==> IdleEvidence(cfg, start, cycles, |cycles| - 1))
        && (c.prompt.NoPrompt? || !cfg.stopOnPrompt ==>
              Books(cfg, start, cycles, trace, actions, flows, actionCount, quotaHave, quotaFetched, quotaSnap, false))
    {
      hide TraceOk, SchedsLink, QuotaLink, AcceptLink, FlowsClosed;
      hide IdleEvidence, Monotone, IdleLink;
      idle := false;
      GrowingCyclesKeepBooks(cfg, start, cycles, trace, actions, flows, actionCount,
                             quotaHave, quotaFetched, quotaSnap, capacityPromptAnswered, c);
      cycles := cycles + [c];
      if !c.runnable { return Some(Requested), idle; }
      if cfg.maxRuntime > 0 && c.now - start >= cfg.maxRuntime { return Some(MaxRuntime), idle; }
      if c.lines.None? { return Some(CaptureFailed), idle; }
      assert cycles[..|cycles| - 1] == old(cycles);
      idle := Observe(c);
      stop := None;
    }

    /** One pass of the loop body. */
    method RunCycle(c: Cycle) returns (stop: Option<StopReason>, idle: bool)
      requires Valid()
      modifies this
      ensures Safe() && cycles == old(cycles) + [c] && old(trace) <= trace
      ensures stop.None? ==> Valid() && !cfg.once && c.runnable && c.lines.Some?
      // What a cycle that may work leaves behind.
      ensures stop.None? && May(c) ==>
        && Served(cfg.actions, actions, |actions|, c.now, idle)
        && Served(FlowSchedules(cfg.flows), flows, |flows|, c.now, idle)
      // What a cycle that may not work must not do.
      ensures stop.None? && !May(c) ==>
        forall p | |old(trace)| <= p < |trace| :: !trace[p].Started? && !trace[p].Stepped?
      ensures Explains(cfg, start, cycles, trace, stop)
      ensures stop.None? && c.prompt.NoPrompt? ==> !AllUsedUp(cfg, trace)
    {
      hide TraceOk, SchedsLink, QuotaLink, AcceptLink, FlowsClosed;
      hide IdleEvidence, QuotaEvidence, Monotone, IdleLink;
      hide AllUsedUp, SchedulesComplete, Served, BudgetSpent, SomeInput, Skips;
      stop, idle := Look(c);
      if stop.Some? { return; }
      if !c.prompt.NoPrompt? && cfg.stopOnPrompt {
        if c.prompt.CapacityRetry? {
          stop := AnswerCapacityPrompt(c);
          if stop.None? && cfg.once { stop := Some(OnceDone); }
          return;
        }
        capacityPromptAnswered := false;
        return Some(PermissionPrompt), idle;
      }
      capacityPromptAnswered := false;
      stop := Work(c, idle);
      if stop.Some? { return; }
      if cfg.once { return Some(OnceDone), idle; }
      assert AllTimesOk(cfg, start, trace) by { RunsAreTimely(cfg, start, cycles, trace); }
      CompleteMeansUsedUp(cfg, start, trace, actions, flows);
      if SchedulesComplete(actions, flows) { return Some(Exhausted), idle; }
    }

    /** The loop, fed any cycles at all, until it stops or they run out. */
    method Run(cs: seq<Cycle>) returns (stop: Option<StopReason>)
      requires Valid() && cycles == [] && trace == []
      modifies this
      ensures TraceOk(cfg, start, cycles, trace) && cycles <= cs
      ensures stop.None? ==> cycles == cs && Valid()
      ensures stop == Some(Exhausted) ==> AllUsedUp(cfg, trace)
      ensures stop.Some? ==> cycles != [] && Explains(cfg, start, cycles, trace, stop)
    {
      hide TraceOk, SchedsLink, QuotaLink, AcceptLink, FlowsClosed;
      for i := 0 to |cs|
        invariant Valid() && cycles == cs[..i]
      {
        var idle;
        stop, idle := RunCycle(cs[i]);
        if stop.Some? { return; }
      }
      stop := None;
    }
  }

  lemma LinkedReadingIsEvidence(cfg: Config, cycles: seq<Cycle>, trace: seq<Event>, fetched: int, snap: Reading)
    requires cfg.quota.Some? && QuotaLink(cfg, cycles, trace, true, fetched, snap) && cycles != []
    requires cycles[|cycles| - 1].now - fetched < Interval(cfg.quota.value) && !Skips(cfg.quota.value, snap)
    ensures QuotaEvidence(cfg, cycles, trace, |cycles| - 1)
  {
    var p :| 0 <= p < |trace| && trace[p].Fetched? && trace[p].now == fetched
      && trace[p].cycle < |cycles| && snap == cycles[trace[p].cycle].reading;
  }
}
