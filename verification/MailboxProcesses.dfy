/**
 The processes that share a question directory, as one interleaved state machine:
 `tmact reply` (Post, then Close when final), `ask --close`, the asker's
 AwaitAnswer, `tmact reply --wait` (Post of a question, then AwaitPrompt for what follows
 it), the asker's follow-up hand-off and the polling asker of the MCP tools.  Any process
 may stop for good at any point.
 */
module MailboxProcesses {
  import opened Common
  import opened MailboxDirectory

  // -------------------------------------------------------------- nextFrom --

  predicate Matches(m: Message, from: Role, after: nat, delivery: Option<Delivery>) {
    m.from == from && m.number > after && (delivery.Some? ==> m.delivery == delivery.value)
  }

  /** The first record of `from` numbered above `after`, by the given delivery if one is named. */
  function NextFrom(records: seq<Message>, from: Role, after: nat, delivery: Option<Delivery>): (r: Option<Message>)
    ensures r.None? ==> forall i | 0 <= i < |records| :: !Matches(records[i], from, after, delivery)
    ensures r.Some? ==> exists i | 0 <= i < |records| ::
              && records[i] == r.value && Matches(r.value, from, after, delivery)
              && forall j | 0 <= j < i :: !Matches(records[j], from, after, delivery)
  {
    if records == [] then None
    else if Matches(records[0], from, after, delivery) then Some(records[0])
    else
      var r := NextFrom(records[1..], from, after, delivery);
      assert r.Some? ==> exists i | 0 <= i < |records| ::
          && records[i] == r.value && Matches(r.value, from, after, delivery)
          && forall j | 0 <= j < i :: !Matches(records[j], from, after, delivery) by {
        if r.Some? {
          var i :| 0 <= i < |records[1..]| && records[1..][i] == r.value
                   && forall j | 0 <= j < i :: !Matches(records[1..][j], from, after, delivery);
          assert records[i + 1] == r.value;
          forall j | 0 <= j < i + 1 ensures !Matches(records[j], from, after, delivery) {
            if j > 0 { assert records[j] == records[1..][j - 1]; }
          }
        }
      }
      assert r.None? ==> forall i | 0 <= i < |records| :: !Matches(records[i], from, after, delivery) by {
        forall i | r.None? && 0 <= i < |records| ensures !Matches(records[i], from, after, delivery) {
          if i > 0 { assert records[i] == records[1..][i - 1]; }
        }
      }
      r
  }

  /** The highest number authored by `from`, or 0. */
  function LastNumber(records: seq<Message>, from: Role): nat {
    if records == [] then 0 else
      var rest := LastNumber(records[..|records| - 1], from);
      var m := records[|records| - 1];
      if m.from == from && m.number > rest then m.number else rest
  }

  function LastKind(records: seq<Message>, from: Role): Option<Kind> {
    if records == [] then None
    else if records[|records| - 1].from == from then Some(records[|records| - 1].kind)
    else LastKind(records[..|records| - 1], from)
  }

  // ----------------------------------------------------------- AwaitAnswer --

  datatype Cause = Lapsed | ContextDone

  datatype AwaitError = ClosedSeen | ClosedByAnswerer | GaveUp(cause: Cause)

  datatype AwaitResult =
    | Answered(message: Message, thread: Thread, afterClose: bool)
    | Failed(error: AwaitError, thread: Thread)

  datatype AwaitState =
    | AwaitStarting
    | AwaitLoading(expiry: int, load: LoadState)
    | AwaitPausing(expiry: int)
    | AwaitClosing(expiry: int, cause: Cause, cs: CloseState)
    | AwaitRechecking(expiry: int, cause: Cause, won: bool, load: LoadState)
    | AwaitDone(result: AwaitResult)

  function GiveUpMarker(cause: Cause): Closed {
    Closed(Asker, if cause == Lapsed then "expired" else "context done")
  }

  /** `flag` at AwaitPausing says that the context ended before the next tick. */
  ghost function AwaitStep(d: Dir, now: int, w: Writer, after: nat, st: AwaitState, flag: bool): (Dir, AwaitState) {
    match st
    case AwaitStarting => (d, AwaitLoading(d.expiresAt, Listing))
    case AwaitLoading(expiry, load) =>
      if !load.Loaded? then (d, AwaitLoading(expiry, LoadStep(d, expiry, load)))
      else
        var t := load.thread;
        (match NextFrom(t.records, Answerer, after, None)
         case Some(m) => (d, AwaitDone(Answered(m, t, false)))
         case None =>
           if t.closed.Some? then (d, AwaitDone(Failed(ClosedSeen, t)))
           else if now >= t.expiresAt then (d, AwaitClosing(expiry, Lapsed, CloseTrying))
           else (d, AwaitPausing(expiry)))
    case AwaitPausing(expiry) =>
      if flag then (d, AwaitClosing(expiry, ContextDone, CloseTrying))
      else (d, AwaitLoading(expiry, Listing))
    case AwaitClosing(expiry, cause, cs) =>
      if cs.CloseDone? then (d, AwaitRechecking(expiry, cause, cs.won, Listing))
      else
        var (d', cs') := CloseStep(d, w, GiveUpMarker(cause), cs);
        (d', AwaitClosing(expiry, cause, cs'))
    case AwaitRechecking(expiry, cause, won, load) =>
      if !load.Loaded? then (d, AwaitRechecking(expiry, cause, won, LoadStep(d, expiry, load)))
      else
        var t := load.thread;
        (match NextFrom(t.records, Answerer, after, None)
         case Some(m) => (d, AwaitDone(Answered(m, t, true)))
         case None =>
           if !won && t.closed.Some? && t.closed.value.ClosedBy? && t.closed.value.closed.author == Answerer
           then (d, AwaitDone(Failed(ClosedByAnswerer, t)))
           else (d, AwaitDone(Failed(GaveUp(cause), t))))
    case AwaitDone(_) => (d, st)
  }

  // ----------------------------------------------------------- AwaitPrompt --

  datatype Leaving = AtDeadline | ByCancel

  datatype ListenOutcome =
    | GotPrompt(message: Message, thread: Thread)
    | FoundClosed(thread: Thread)
    | Left(why: Leaving, thread: Thread)

  datatype ListenState =
    | ListenStarting
    | ListenRegistering(expiry: int)
    | ListenMarking(expiry: int)
    | ListenLoading(expiry: int, leaving: Option<Leaving>, load: LoadState)
    | ListenPausing(expiry: int)
    | ListenAcking(message: Message, thread: Thread)
    | ListenRemoving(outcome: ListenOutcome)
    | ListenDone(outcome: ListenOutcome)

  /** `flag` at ListenPausing says that the context ended; it does so at the deadline or by a cancel. */
  ghost function ListenStep(d: Dir, now: int, p: nat, after: nat, until: int, st: ListenState, flag: bool)
    : (Dir, ListenState)
  {
    match st
    case ListenStarting => (d, ListenRegistering(d.expiresAt))
    case ListenRegistering(expiry) =>
      (d.(waiter := Some(WaiterFile(p, until, false))), ListenMarking(expiry))
    case ListenMarking(expiry) =>
      (d.(waiter := Some(WaiterFile(p, until, true))), ListenLoading(expiry, None, Listing))
    case ListenLoading(expiry, leaving, load) =>
      if !load.Loaded? then (d, ListenLoading(expiry, leaving, LoadStep(d, expiry, load)))
      else
        var t := load.thread;
        (match NextFrom(t.records, Asker, after, Some(ByMailbox))
         case Some(m) => (d, ListenAcking(m, t))
         case None =>
           if leaving.Some? then (d, ListenRemoving(Left(leaving.value, t)))
           else if t.closed.Some? then (d, ListenRemoving(FoundClosed(t)))
           else (d, ListenPausing(expiry)))
    case ListenPausing(expiry) =>
      if !flag then (d, ListenLoading(expiry, None, Listing))
      else (d, ListenLoading(expiry, Some(if now >= until then AtDeadline else ByCancel), Listing))
    case ListenAcking(m, t) =>
      (d.(acks := d.acks + {m.number}), ListenRemoving(GotPrompt(m, t)))
    case ListenRemoving(outcome) => (d.(waiter := None), ListenDone(outcome))
    case ListenDone(_) => (d, st)
  }

  // ---------------------------------------------------- deliverAskFollowUp --

  datatype FollowUpArgs = FollowUpArgs(text: string, target: string, waitUntil: int)

  datatype Recheck = MarkerSeen | MarkerMissing | MarkerStale

  datatype FollowUpReport =
    | NotSent
    | StayedInMailbox(
        first: Thread, number: nat, collisions: nat, recheck: Recheck, acked: bool, current: Option<Thread>)
    | SentByPane(fallback: Option<Fallback>)

  /** A pane delivery that replaces a mailbox delivery, decided on the reload `current`. */
  datatype Fallback = Fallback(first: Thread, number: nat, collisions: nat, recheck: Recheck, current: Thread)

  datatype FollowUpState =
    | FollowUpStarting
    | FollowUpLoading(expiry: int, load: LoadState)
    | FollowUpChecking(first: Thread)
    | FollowUpDropping(first: Thread)
    | FollowUpPosting(first: Thread, post: PostState)
    | FollowUpRechecking(first: Thread, number: nat, collisions: nat)
    | FollowUpDroppingAgain(first: Thread, number: nat, collisions: nat)
    | FollowUpAsking(first: Thread, number: nat, collisions: nat, recheck: Recheck)
    | FollowUpRequest(first: Thread, number: nat, collisions: nat, recheck: Recheck, acked: bool)
    | FollowUpReloading(first: Thread, number: nat, collisions: nat, recheck: Recheck, acked: bool,
                        expiry: int, load: LoadState)
    | FollowUpPane(fallback: Option<Fallback>)
    | FollowUpRecording(fallback: Option<Fallback>, post: PostState)
    | FollowUpDone(report: FollowUpReport)

  function MailboxArgs(a: FollowUpArgs): PostArgs {
    PostArgs(Asker, Prompt, a.text, ByMailbox, "", Some(a.waitUntil))
  }

  function PaneArgs(a: FollowUpArgs): PostArgs {
    PostArgs(Asker, Prompt, "", ByPane, a.target, Some(a.waitUntil))
  }

  /** A marker that HasWaiter believes: half-written, or unexpired and of a live process. */
  ghost predicate Believed(marker: WaiterFile, now: int, live: set<nat>) {
    !marker.complete || (now < marker.until && marker.pid in live)
  }

  /** HasWaiter removes whatever marker is there by now. */
  ghost function DropMarker(d: Dir): Dir {
    if d.waiter.None? then d else d.(waiter := None, dropped := d.dropped + {d.waiter.value.pid})
  }

  /** `flag` at FollowUpPane says whether the pane dispatch succeeded. */
  ghost function FollowUpStep(d: Dir, now: int, live: set<nat>, p: nat, a: FollowUpArgs, st: FollowUpState, flag: bool)
    : (Dir, FollowUpState)
  {
    match st
    case FollowUpStarting => (d, FollowUpLoading(d.expiresAt, Listing))
    case FollowUpLoading(expiry, load) =>
      if !load.Loaded? then (d, FollowUpLoading(expiry, LoadStep(d, expiry, load)))
      else if load.thread.closed.Some? then (d, FollowUpDone(NotSent))
      else (d, FollowUpChecking(load.thread))
    case FollowUpChecking(first) =>
      if d.waiter.None? then (d, FollowUpPane(None))
      else if Believed(d.waiter.value, now, live) then
        (d.(believed := d.believed[p := d.waiter.value.pid]), FollowUpPosting(first, PostStarting))
      else (d, FollowUpDropping(first))
    case FollowUpDropping(first) => (DropMarker(d), FollowUpPane(None))
    case FollowUpPosting(first, post) =>
      if !post.PostDone? then
        var (d', post') := PostStep(d, now, Writer(p, 0), MailboxArgs(a), post);
        (d', FollowUpPosting(first, post'))
      else if post.result.Posted? then
        (d, FollowUpRechecking(first, post.result.number, post.result.collisions))
      else (d, FollowUpDone(NotSent))
    case FollowUpRechecking(first, number, collisions) =>
      if d.waiter.None? then (d, FollowUpAsking(first, number, collisions, MarkerMissing))
      else if Believed(d.waiter.value, now, live) then
        (if collisions < ATTEMPTS then d.(promised := d.promised[number := d.waiter.value.pid]) else d,
         FollowUpDone(StayedInMailbox(first, number, collisions, MarkerSeen, false, None)))
      else (d, FollowUpDroppingAgain(first, number, collisions))
    case FollowUpDroppingAgain(first, number, collisions) =>
      (DropMarker(d), FollowUpAsking(first, number, collisions, MarkerStale))
    case FollowUpAsking(first, number, collisions, recheck) =>
      (d, FollowUpRequest(first, number, collisions, recheck, number in d.acks))
    case FollowUpRequest(first, number, collisions, recheck, acked) =>
      (d, FollowUpReloading(first, number, collisions, recheck, acked, d.expiresAt, Listing))
    case FollowUpReloading(first, number, collisions, recheck, acked, expiry, load) =>
      if !load.Loaded? then
        (d, FollowUpReloading(first, number, collisions, recheck, acked, expiry, LoadStep(d, expiry, load)))
      else
        var current := load.thread;
        if !acked && LastNumber(current.records, Answerer) == LastNumber(first.records, Answerer)
           && current.closed.None?
        then (d, FollowUpPane(Some(Fallback(first, number, collisions, recheck, current))))
        else (d, FollowUpDone(StayedInMailbox(first, number, collisions, recheck, acked, Some(current))))
    case FollowUpPane(fallback) =>
      if flag then (d, FollowUpRecording(fallback, PostStarting)) else (d, FollowUpDone(NotSent))
    case FollowUpRecording(fallback, post) =>
      if !post.PostDone? then
        var (d', post') := PostStep(d, now, Writer(p, 1), PaneArgs(a), post);
        (d', FollowUpRecording(fallback, post'))
      else (d, FollowUpDone(SentByPane(fallback)))
    case FollowUpDone(_) => (d, st)
  }

  // --------------------------------------------------------- pollAskAnswer --

  const ASK_TIMEOUT := 2 * 60 * 60 * 1_000_000_000

  datatype PollStatus = Handed | SaysClosed | SaysExpired | StillPending

  datatype PollState =
    | PollStarting
    | PollLoading(expiry: int, load: LoadState)
    | PollReadingCursor(thread: Thread)
    | PollMarking(message: Message)
    | PollWritingCursor(message: Message)
    | PollHandingOver(message: Message)
    | PollExtending
    | PollWritingRequest(until: int)
    | PollTold(status: PollStatus)

  function CursorOf(d: Dir): nat {
    if d.cursor.Some? then d.cursor.value else 0
  }

  /** `flag` after an empty poll says that the caller's wait has run out. */
  ghost function PollStep(d: Dir, now: int, st: PollState, flag: bool): (Dir, PollState) {
    match st
    case PollStarting => (d, PollLoading(d.expiresAt, Listing))
    case PollLoading(expiry, load) =>
      if !load.Loaded? then (d, PollLoading(expiry, LoadStep(d, expiry, load)))
      else (d, PollReadingCursor(load.thread))
    case PollReadingCursor(t) =>
      (match NextFrom(t.records, Answerer, CursorOf(d), None)
       case Some(m) => (d, PollMarking(m))
       case None =>
         if t.closed.Some? || LastKind(t.records, Answerer) == Some(Final) then (d, PollTold(SaysClosed))
         else if now >= t.expiresAt then (d, PollTold(SaysExpired))
         else if flag then (d, PollExtending)
         else (d, PollStarting))
    case PollMarking(m) =>
      if m.number <= CursorOf(d) then (d, PollHandingOver(m))
      else (d, PollWritingCursor(m))
    case PollWritingCursor(m) => (d.(cursor := Some(m.number)), PollHandingOver(m))
    case PollHandingOver(m) => (d.(handed := d.handed + [m]), PollTold(Handed))
    case PollExtending =>
      if now + ASK_TIMEOUT > d.expiresAt then (d, PollWritingRequest(now + ASK_TIMEOUT))
      else (d, PollTold(StillPending))
    case PollWritingRequest(until) => (d.(expiresAt := until), PollTold(StillPending))
    case PollTold(_) => (d, PollStarting)
  }

  // ------------------------------------------------------------ the system --

  datatype Task =
    | ReplyTask(args: PostArgs, post: PostState, closing: CloseState)
    | CloseTask(closed: Closed, cs: CloseState)
    | AwaitTask(after: nat, await: AwaitState)
    | ListenTask(args: PostArgs, until: int, post: PostState, listen: ListenState)
    | FollowUpTask(fargs: FollowUpArgs, followUp: FollowUpState)
    | PollTask(poll: PollState)

  datatype Proc = Proc(task: Task, alive: bool)

  datatype System = System(dir: Dir, now: int, procs: map<nat, Proc>)

  const FINAL_REPLY := Closed(Answerer, "final reply")

  ghost function TaskStep(d: Dir, now: int, live: set<nat>, p: nat, task: Task, flag: bool): (Dir, Task) {
    match task
    case ReplyTask(args, post, closing) =>
      if !post.PostDone? then
        var (d', post') := PostStep(d, now, Writer(p, 0), args, post);
        (d', ReplyTask(args, post', closing))
      else if post.result.Posted? && args.from == Answerer && args.kind == Final then
        var (d', cs') := CloseStep(d, Writer(p, 1), FINAL_REPLY, closing);
        (d', ReplyTask(args, post, cs'))
      else (d, task)
    case CloseTask(closed, cs) =>
      var (d', cs') := CloseStep(d, Writer(p, 0), closed, cs);
      (d', task.(cs := cs'))
    case AwaitTask(after, await) =>
      var (d', await') := AwaitStep(d, now, Writer(p, 0), after, await, flag);
      (d', task.(await := await'))
    case ListenTask(args, until, post, listen) =>
      if !post.PostDone? then
        var (d', post') := PostStep(d, now, Writer(p, 0), args, post);
        (d', ListenTask(args, until, post', listen))
      else if post.result.Posted? then
        var (d', listen') := ListenStep(d, now, p, post.result.number, until, listen, flag);
        (d', ListenTask(args, until, post, listen'))
      else (d, task)
    case FollowUpTask(fargs, followUp) =>
      var (d', followUp') := FollowUpStep(d, now, live, p, fargs, followUp, flag);
      (d', task.(followUp := followUp'))
    case PollTask(poll) =>
      var (d', poll') := PollStep(d, now, poll, flag);
      (d', PollTask(poll'))
  }

  ghost predicate Initial(task: Task) {
    match task
    case ReplyTask(_, post, closing) => post.PostStarting? && closing.CloseTrying?
    case CloseTask(_, cs) => cs.CloseTrying?
    case AwaitTask(_, await) => await.AwaitStarting?
    case ListenTask(args, _, post, listen) =>
      args.from == Answerer && args.kind == Question && post.PostStarting? && listen.ListenStarting?
    case FollowUpTask(_, followUp) => followUp.FollowUpStarting?
    case PollTask(poll) => poll.PollStarting?
  }

  datatype Action =
    | Start(p: nat, task: Task)
    | Run(p: nat, flag: bool)
    | Crash(p: nat)
    | Advance(time: int)

  ghost predicate Enabled(s: System, a: Action) {
    match a
    case Start(p, task) => p !in s.procs && Initial(task)
    case Run(p, _) => p in s.procs && s.procs[p].alive
    case Crash(p) => p in s.procs
    case Advance(time) => time >= s.now
  }

  ghost function Live(s: System): set<nat> {
    set p | p in s.procs && s.procs[p].alive
  }

  ghost function Next(s: System, a: Action): System
    requires Enabled(s, a)
  {
    match a
    case Start(p, task) => s.(procs := s.procs[p := Proc(task, true)])
    case Run(p, flag) =>
      var (d', task') := TaskStep(s.dir, s.now, Live(s), p, s.procs[p].task, flag);
      s.(dir := d', procs := s.procs[p := Proc(task', true)])
    case Crash(p) => s.(procs := s.procs[p := s.procs[p].(alive := false)])
    case Advance(time) => s.(now := time)
  }

  /** A fresh question: no message, no marker, no process. */
  ghost predicate Fresh(s: System) {
    && s.dir == EMPTY.(expiresAt := s.dir.expiresAt)
    && s.procs == map[]
  }

  /** `states` is a run: it starts fresh and every step is an enabled action. */
  ghost predicate IsRun(states: seq<System>, actions: seq<Action>) {
    && |states| == |actions| + 1
    && Fresh(states[0])
    && forall i | 0 <= i < |actions| :: Enabled(states[i], actions[i]) && states[i + 1] == Next(states[i], actions[i])
  }
}
