/**
 What every reachable state of a question directory satisfies, for any number of
 processes of every kind.  The proof is by rely and guarantee: each process's
 claim survives its own steps and every other process's.
 */
module MailboxInvariant {
  import opened Common
  import opened MailboxDirectory
  import opened MailboxProcesses

  // ------------------------------------------------- claims of one process --

  ghost function StoppedAt(load: LoadState): Option<nat> {
    match load
    case CheckingClosed(_, _, stopped) => stopped
    case Loaded(t) => t.stopped
    case _ => None
  }

  /** Every accepted answer was listed, and none was half-written when it was read. */
  ghost predicate SawAccepted(d: Dir, snapshot: set<nat>, stopped: Option<nat>) {
    d.accepted <= snapshot && (stopped.Some? ==> stopped.value !in d.accepted)
  }

  ghost predicate ResultInv(d: Dir, after: nat, r: AwaitResult) {
    && ThreadInv(d, r.thread)
    && match r
       case Answered(m, t, afterClose) =>
         && NextFrom(t.records, Answerer, after, None) == Some(m)
         && (afterClose ==> d.closed.Some? && SawAccepted(d, t.snapshot, t.stopped))
       case Failed(error, t) =>
         && NextFrom(t.records, Answerer, after, None) == None
         && d.closed.Some?
         && (error != ClosedSeen ==> SawAccepted(d, t.snapshot, t.stopped))
  }

  /** Once the recheck has listed the directory, no accepted answer is missing from the listing. */
  ghost predicate AwaitInv(d: Dir, w: Writer, after: nat, st: AwaitState) {
    match st
    case AwaitStarting => true
    case AwaitPausing(_) => true
    case AwaitLoading(_, load) => LoadInv(d, load)
    case AwaitClosing(_, cause, cs) => CloseInv(d, w, GiveUpMarker(cause), cs)
    case AwaitRechecking(_, _, _, load) =>
      && d.closed.Some? && LoadInv(d, load)
      && (ListedBy(load).Some? ==> SawAccepted(d, ListedBy(load).value, StoppedAt(load)))
    case AwaitDone(r) => ResultInv(d, after, r)
  }

  ghost predicate FirstPrompt(d: Dir, after: nat, m: Message, t: Thread) {
    ThreadInv(d, t) && NextFrom(t.records, Asker, after, Some(ByMailbox)) == Some(m)
  }

  ghost predicate OutcomeInv(d: Dir, after: nat, outcome: ListenOutcome) {
    match outcome
    case GotPrompt(m, t) => FirstPrompt(d, after, m, t) && m.number in d.acks
    case FoundClosed(t) => ThreadInv(d, t) && d.closed.Some?
    case Left(_, t) => ThreadInv(d, t) && NextFrom(t.records, Asker, after, Some(ByMailbox)) == None
  }

  ghost predicate ListenInv(d: Dir, after: nat, st: ListenState) {
    && after in d.messages
    && match st
       case ListenLoading(_, _, load) => LoadInv(d, load)
       case ListenAcking(m, t) => FirstPrompt(d, after, m, t)
       case ListenRemoving(outcome) => OutcomeInv(d, after, outcome)
       case ListenDone(outcome) => OutcomeInv(d, after, outcome)
       case _ => true
  }

  /** A later load reads at least as far as `first` did. */
  ghost predicate NotShorter(first: Thread, load: LoadState) {
    match load
    case Listing => true
    case Reading(snapshot, _, _) => UsedUpTo(snapshot, |first.records|)
    case CheckingClosed(_, records, _) => |first.records| <= |records|
    case Loaded(t) => |first.records| <= |t.records|
  }

  ghost predicate ReportInv(d: Dir, p: nat, a: FollowUpArgs, r: FollowUpReport) {
    match r
    case NotSent => true
    case StayedInMailbox(first, number, collisions, recheck, acked, current) =>
      && ThreadInv(d, first)
      && Written(d, Writer(p, 0), MailboxArgs(a), number, collisions)
      && (acked ==> number in d.acks)
      && (recheck == MarkerSeen <==> current.None?)
      && (recheck == MarkerSeen ==> !acked)
      && (current.Some? ==>
            && ThreadInv(d, current.value)
            && |first.records| <= |current.value.records|
            && (acked || current.value.closed.Some?
                || LastNumber(current.value.records, Answerer) != LastNumber(first.records, Answerer)))
    case SentByPane(fallback) => fallback.Some? ==> FallbackInv(d, p, a, fallback.value)
  }

  /** The reload on which a sender chose the pane came after its post and showed nothing new from the answerer. */
  ghost predicate FallbackInv(d: Dir, p: nat, a: FollowUpArgs, fb: Fallback) {
    && ThreadInv(d, fb.first) && ThreadInv(d, fb.current) && fb.number in fb.current.snapshot
    && Written(d, Writer(p, 0), MailboxArgs(a), fb.number, fb.collisions)
    && LastNumber(fb.current.records, Answerer) == LastNumber(fb.first.records, Answerer)
  }

  ghost predicate FollowUpInv(d: Dir, p: nat, a: FollowUpArgs, st: FollowUpState) {
    match st
    case FollowUpStarting => NeverWrote(d, Writer(p, 0)) && NeverWrote(d, Writer(p, 1))
    case FollowUpLoading(_, load) =>
      NeverWrote(d, Writer(p, 0)) && NeverWrote(d, Writer(p, 1)) && LoadInv(d, load)
    case FollowUpChecking(first) =>
      NeverWrote(d, Writer(p, 0)) && NeverWrote(d, Writer(p, 1)) && ThreadInv(d, first)
    case FollowUpDropping(first) =>
      NeverWrote(d, Writer(p, 0)) && NeverWrote(d, Writer(p, 1)) && ThreadInv(d, first)
    case FollowUpPosting(first, post) =>
      NeverWrote(d, Writer(p, 1)) && ThreadInv(d, first) && PostInv(d, Writer(p, 0), MailboxArgs(a), post)
    case FollowUpPane(fallback) =>
      NeverWrote(d, Writer(p, 1)) && (fallback.Some? ==> FallbackInv(d, p, a, fallback.value))
    case FollowUpRecording(fallback, post) =>
      PostInv(d, Writer(p, 1), PaneArgs(a), post) && (fallback.Some? ==> FallbackInv(d, p, a, fallback.value))
    case FollowUpDone(r) => ReportInv(d, p, a, r)
    case FollowUpRechecking(first, n, c) => MailedInv(d, p, a, first, n, c)
    case FollowUpDroppingAgain(first, n, c) => MailedInv(d, p, a, first, n, c)
    case FollowUpAsking(first, n, c, recheck) => MailedInv(d, p, a, first, n, c) && recheck != MarkerSeen
    case FollowUpRequest(first, n, c, recheck, acked) =>
      MailedInv(d, p, a, first, n, c) && recheck != MarkerSeen && (acked ==> n in d.acks)
    case FollowUpReloading(first, n, c, recheck, acked, _, load) =>
      && MailedInv(d, p, a, first, n, c) && recheck != MarkerSeen && (acked ==> n in d.acks)
      && LoadInv(d, load) && NotShorter(first, load)
      && (ListedBy(load).Some? ==> n in ListedBy(load).value)
  }

  /** The follow-up was written to the mailbox and nothing has been recorded of a pane delivery. */
  ghost predicate MailedInv(d: Dir, p: nat, a: FollowUpArgs, first: Thread, number: nat, collisions: nat) {
    NeverWrote(d, Writer(p, 1)) && ThreadInv(d, first) && Written(d, Writer(p, 0), MailboxArgs(a), number, collisions)
  }

  ghost predicate PollInv(d: Dir, st: PollState) {
    match st
    case PollLoading(_, load) => LoadInv(d, load)
    case PollReadingCursor(t) => ThreadInv(d, t)
    case _ => true
  }

  ghost predicate TaskInv(d: Dir, p: nat, task: Task) {
    match task
    case ReplyTask(args, post, closing) =>
      && PostInv(d, Writer(p, 0), args, post) && CloseInv(d, Writer(p, 1), FINAL_REPLY, closing)
      && (!post.PostDone? ==> closing.CloseTrying?)
    case CloseTask(closed, cs) => CloseInv(d, Writer(p, 0), closed, cs)
    case AwaitTask(after, await) => AwaitInv(d, Writer(p, 0), after, await)
    case ListenTask(args, _, post, listen) =>
      && PostInv(d, Writer(p, 0), args, post) && args.from == Answerer
      && (if post.PostDone? && post.result.Posted? then ListenInv(d, post.result.number, listen)
          else listen.ListenStarting?)
    case FollowUpTask(fargs, followUp) => FollowUpInv(d, p, fargs, followUp)
    case PollTask(poll) => PollInv(d, poll)
  }

  ghost predicate Inv(s: System) {
    && DirInv(s.dir)
    && (forall k | k in s.dir.messages :: s.dir.messages[k].writer.process in s.procs)
    && (forall p | p in s.procs :: TaskInv(s.dir, p, s.procs[p].task))
  }

  // -------------------------------------------------------- own steps keep --

  lemma AwaitStepKeepsInv(d: Dir, now: int, w: Writer, after: nat, st: AwaitState, flag: bool)
    requires DirInv(d) && AwaitInv(d, w, after, st)
    ensures var (d', st') := AwaitStep(d, now, w, after, st, flag);
            DirInv(d') && AwaitInv(d', w, after, st') && Guarantee(w.process, d, d')
  {
    match st
    case AwaitLoading(expiry, load) => LoadStepKeepsInv(d, expiry, load);
    case AwaitClosing(_, cause, cs) => CloseStepKeepsInv(d, w, GiveUpMarker(cause), cs);
    case AwaitRechecking(expiry, _, _, load) => LoadStepKeepsInv(d, expiry, load);
    case _ =>
  }

  lemma ListenStepKeepsInv(d: Dir, now: int, p: nat, after: nat, until: int, st: ListenState, flag: bool)
    requires DirInv(d) && ListenInv(d, after, st)
    ensures var (d', st') := ListenStep(d, now, p, after, until, st, flag);
            DirInv(d') && ListenInv(d', after, st') && Guarantee(p, d, d')
  {
    match st
    case ListenLoading(expiry, _, load) => LoadStepKeepsInv(d, expiry, load);
    case _ =>
  }

  lemma NotShorterStep(d: Dir, expiry: int, first: Thread, load: LoadState)
    requires DirInv(d) && ThreadInv(d, first) && LoadInv(d, load) && NotShorter(first, load)
    ensures NotShorter(first, LoadStep(d, expiry, load))
  {
    if load.Reading? {
      var snapshot, pos := load.snapshot, load.pos;
      if exists k :: k in snapshot && k > pos {
        assert pos + 1 in snapshot;
        assert NextListed(snapshot, pos) == pos + 1;
      } else {
        assert pos + 1 !in snapshot;
      }
    }
  }

  lemma FollowUpReloadingKeepsInv(
    d: Dir, now: int, live: set<nat>, p: nat, a: FollowUpArgs, st: FollowUpState, flag: bool)
    requires DirInv(d) && FollowUpInv(d, p, a, st) && st.FollowUpReloading?
    ensures var (d', st') := FollowUpStep(d, now, live, p, a, st, flag); d' == d && FollowUpInv(d, p, a, st')
  {
    LoadStepKeepsInv(d, st.expiry, st.load);
    NotShorterStep(d, st.expiry, st.first, st.load);
  }

  /** The steps that neither load nor post: at most a marker or a history variable changes. */
  lemma FollowUpMarkerStepKeepsInv(
    d: Dir, now: int, live: set<nat>, p: nat, a: FollowUpArgs, st: FollowUpState, flag: bool)
    requires DirInv(d) && FollowUpInv(d, p, a, st)
    requires !st.FollowUpLoading? && !st.FollowUpPosting? && !st.FollowUpRecording? && !st.FollowUpReloading?
    ensures var (d', st') := FollowUpStep(d, now, live, p, a, st, flag);
      && d' == d.(waiter := d'.waiter, believed := d'.believed, promised := d'.promised, dropped := d'.dropped)
      && FollowUpInv(d', p, a, st')
  {
    hide PostStep, LoadStep;
  }

  lemma FollowUpRecordingKeepsInv(
    d: Dir, now: int, live: set<nat>, p: nat, a: FollowUpArgs, fallback: Option<Fallback>, post: PostState, flag: bool)
    requires DirInv(d) && FollowUpInv(d, p, a, FollowUpRecording(fallback, post))
    ensures var (d', st') := FollowUpStep(d, now, live, p, a, FollowUpRecording(fallback, post), flag);
            DirInv(d') && FollowUpInv(d', p, a, st') && Guarantee(p, d, d')
  {
    hide PostStep, LoadStep, ThreadInv, DirInv;
    if !post.PostDone? {
      PostStepKeepsInv(d, now, Writer(p, 1), PaneArgs(a), post);
      PostWritesOwnFiles(d, now, Writer(p, 1), PaneArgs(a), post);
      var (d', _) := PostStep(d, now, Writer(p, 1), PaneArgs(a), post);
      if fallback.Some? {
        ThreadStaysRead(p, d, d', fallback.value.first);
        ThreadStaysRead(p, d, d', fallback.value.current);
      }
    }
  }

  lemma FollowUpStepKeepsInv(d: Dir, now: int, live: set<nat>, p: nat, a: FollowUpArgs, st: FollowUpState, flag: bool)
    requires DirInv(d) && FollowUpInv(d, p, a, st)
    ensures var (d', st') := FollowUpStep(d, now, live, p, a, st, flag);
            DirInv(d') && FollowUpInv(d', p, a, st') && Guarantee(p, d, d')
  {
    match st
    case FollowUpLoading(expiry, load) =>
      hide PostStep;
      LoadStepKeepsInv(d, expiry, load);
    case FollowUpPosting(first, post) => FollowUpPostingKeepsInv(d, now, live, p, a, first, post, flag);
    case FollowUpRecording(fallback, post) => FollowUpRecordingKeepsInv(d, now, live, p, a, fallback, post, flag);
    case FollowUpReloading(_, _, _, _, _, _, _) =>
      hide FollowUpInv, LoadStep;
      FollowUpReloadingKeepsInv(d, now, live, p, a, st, flag);
    case _ =>
      hide FollowUpInv, FollowUpStep;
      FollowUpMarkerStepKeepsInv(d, now, live, p, a, st, flag);
  }

  lemma FollowUpPostingKeepsInv(d: Dir, now: int, live: set<nat>, p: nat, a: FollowUpArgs, first: Thread,
                                post: PostState, flag: bool)
    requires DirInv(d) && FollowUpInv(d, p, a, FollowUpPosting(first, post))
    ensures var (d', st') := FollowUpStep(d, now, live, p, a, FollowUpPosting(first, post), flag);
            DirInv(d') && FollowUpInv(d', p, a, st') && Guarantee(p, d, d')
  {
    hide PostStep, LoadStep, ThreadInv, DirInv;
    if !post.PostDone? {
      hide PostInv, Guarantee;
      PostStepKeepsInv(d, now, Writer(p, 0), MailboxArgs(a), post);
      var (d', post') := PostStep(d, now, Writer(p, 0), MailboxArgs(a), post);
      PostWritesOwnFiles(d, now, Writer(p, 0), MailboxArgs(a), post);
      ThreadStaysRead(p, d, d', first);
    }
  }

  lemma ThreadStaysRead(p: nat, d: Dir, d': Dir, t: Thread)
    requires ThreadInv(d, t) && Guarantee(p, d, d')
    ensures ThreadInv(d', t)
  {
    LoadInvStable(d, d', Loaded(t));
  }

  /** Post touches messages, the close marker and the record of what was accepted, and nothing else. */
  lemma PostTouchesOnly(d: Dir, now: int, w: Writer, a: PostArgs, ps: PostState)
    ensures var d' := PostStep(d, now, w, a, ps).0;
      d' == d.(messages := d'.messages, closed := d'.closed, accepted := d'.accepted)
  {
    hide LoadStep;
  }

  ghost predicate IsPosting(task: Task) {
    match task
    case ReplyTask(_, post, _) => !post.PostDone?
    case ListenTask(_, _, post, _) => !post.PostDone?
    case FollowUpTask(_, FollowUpPosting(_, post)) => !post.PostDone?
    case FollowUpTask(_, FollowUpRecording(_, post)) => !post.PostDone?
    case _ => false
  }

  /** The same for a process that is posting. */
  lemma PostingTouchesOnly(d: Dir, now: int, live: set<nat>, p: nat, task: Task, flag: bool)
    requires IsPosting(task)
    ensures var d' := TaskStep(d, now, live, p, task, flag).0;
      d' == d.(messages := d'.messages, closed := d'.closed, accepted := d'.accepted)
  {
    hide PostStep, LoadStep;
    match task
    case ReplyTask(args, post, _) => PostTouchesOnly(d, now, Writer(p, 0), args, post);
    case ListenTask(args, _, post, _) => PostTouchesOnly(d, now, Writer(p, 0), args, post);
    case FollowUpTask(fargs, FollowUpPosting(_, post)) =>
      PostTouchesOnly(d, now, Writer(p, 0), MailboxArgs(fargs), post);
    case FollowUpTask(fargs, FollowUpRecording(_, post)) =>
      PostTouchesOnly(d, now, Writer(p, 1), PaneArgs(fargs), post);
  }

  /** Post never touches a file that another post, even of the same process, created. */
  lemma PostWritesOwnFiles(d: Dir, now: int, w: Writer, a: PostArgs, ps: PostState)
    requires PostInv(d, w, a, ps)
    ensures var (d', _) := PostStep(d, now, w, a, ps);
            forall k | k in d'.messages ::
              d'.messages[k].writer == w || (k in d.messages && d'.messages[k] == d.messages[k])
  {
  }

  lemma PollStepKeepsInv(d: Dir, now: int, st: PollState, flag: bool)
    requires DirInv(d) && PollInv(d, st)
    ensures var (d', st') := PollStep(d, now, st, flag);
            DirInv(d') && PollInv(d', st') && forall q: nat :: Guarantee(q, d, d')
  {
    if st.PollLoading? { LoadStepKeepsInv(d, st.expiry, st.load); }
  }

  lemma TaskStepKeepsInv(d: Dir, now: int, live: set<nat>, p: nat, task: Task, flag: bool)
    requires DirInv(d) && TaskInv(d, p, task)
    ensures var (d', task') := TaskStep(d, now, live, p, task, flag);
            DirInv(d') && TaskInv(d', p, task') && Guarantee(p, d, d')
  {
    match task
    case ReplyTask(args, post, closing) =>
      if post.PostDone? {
        CloseStepKeepsInv(d, Writer(p, 1), FINAL_REPLY, closing);
      } else {
        PostStepKeepsInv(d, now, Writer(p, 0), args, post);
      }
    case CloseTask(closed, cs) => CloseStepKeepsInv(d, Writer(p, 0), closed, cs);
    case AwaitTask(after, await) => AwaitStepKeepsInv(d, now, Writer(p, 0), after, await, flag);
    case ListenTask(args, until, post, listen) =>
      if !post.PostDone? {
        PostStepKeepsInv(d, now, Writer(p, 0), args, post);
      } else if post.result.Posted? {
        ListenStepKeepsInv(d, now, p, post.result.number, until, listen, flag);
      }
    case FollowUpTask(fargs, followUp) => FollowUpStepKeepsInv(d, now, live, p, fargs, followUp, flag);
    case PollTask(poll) => PollStepKeepsInv(d, now, poll, flag);
  }

  // ------------------------------------------------- other processes' steps --

  lemma MailedStable(d: Dir, d': Dir, q: nat, p: nat, a: FollowUpArgs, first: Thread, n: nat, c: nat)
    requires MailedInv(d, p, a, first, n, c) && Guarantee(q, d, d') && q != p
    ensures MailedInv(d', p, a, first, n, c)
  {
    LoadInvStable(d, d', Loaded(first));
  }

  lemma FallbackStable(d: Dir, d': Dir, q: nat, p: nat, a: FollowUpArgs, fb: Fallback)
    requires FallbackInv(d, p, a, fb) && Guarantee(q, d, d') && q != p
    ensures FallbackInv(d', p, a, fb)
  {
    LoadInvStable(d, d', Loaded(fb.first));
    LoadInvStable(d, d', Loaded(fb.current));
  }

  lemma ReportStable(d: Dir, d': Dir, q: nat, p: nat, a: FollowUpArgs, r: FollowUpReport)
    requires ReportInv(d, p, a, r) && Guarantee(q, d, d') && q != p
    ensures ReportInv(d', p, a, r)
  {
    match r
    case NotSent =>
    case StayedInMailbox(first, _, _, _, _, current) =>
      LoadInvStable(d, d', Loaded(first));
      if current.Some? { LoadInvStable(d, d', Loaded(current.value)); }
    case SentByPane(fallback) =>
      if fallback.Some? { FallbackStable(d, d', q, p, a, fallback.value); }
  }

  lemma FollowUpInvStable(d: Dir, d': Dir, q: nat, p: nat, a: FollowUpArgs, st: FollowUpState)
    requires FollowUpInv(d, p, a, st) && Guarantee(q, d, d') && q != p
    ensures FollowUpInv(d', p, a, st)
  {
    hide LoadInv, ThreadInv, PostInv, ReportInv, MailedInv, NotShorter;
    match st
    case FollowUpLoading(_, load) => LoadInvStable(d, d', load);
    case FollowUpChecking(first) => ThreadStaysRead(q, d, d', first);
    case FollowUpDropping(first) => ThreadStaysRead(q, d, d', first);
    case FollowUpPosting(first, post) =>
      ThreadStaysRead(q, d, d', first);
      PostInvStable(d, d', q, Writer(p, 0), MailboxArgs(a), post);
    case FollowUpRecording(fallback, post) =>
      PostInvStable(d, d', q, Writer(p, 1), PaneArgs(a), post);
      if fallback.Some? { FallbackStable(d, d', q, p, a, fallback.value); }
    case FollowUpStarting =>
    case FollowUpPane(fallback) =>
      if fallback.Some? { FallbackStable(d, d', q, p, a, fallback.value); }
    case FollowUpDone(r) => ReportStable(d, d', q, p, a, r);
    case FollowUpRechecking(first, n, c) => MailedStable(d, d', q, p, a, first, n, c);
    case FollowUpDroppingAgain(first, n, c) => MailedStable(d, d', q, p, a, first, n, c);
    case FollowUpAsking(first, n, c, _) => MailedStable(d, d', q, p, a, first, n, c);
    case FollowUpRequest(first, n, c, _, _) => MailedStable(d, d', q, p, a, first, n, c);
    case FollowUpReloading(first, n, c, _, _, _, load) =>
      MailedStable(d, d', q, p, a, first, n, c);
      LoadInvStable(d, d', load);
  }

  lemma TaskInvStable(d: Dir, d': Dir, q: nat, p: nat, task: Task)
    requires TaskInv(d, p, task) && Guarantee(q, d, d') && q != p
    ensures TaskInv(d', p, task)
  {
    match task
    case ReplyTask(args, post, closing) => PostInvStable(d, d', q, Writer(p, 0), args, post);
    case ListenTask(args, until, post, listen) => PostInvStable(d, d', q, Writer(p, 0), args, post);
    case FollowUpTask(fargs, followUp) => FollowUpInvStable(d, d', q, p, fargs, followUp);
    case _ =>
  }

  lemma NextKeepsInv(s: System, a: Action)
    requires Inv(s) && Enabled(s, a)
    ensures Inv(Next(s, a))
  {
    var s' := Next(s, a);
    match a
    case Run(p, flag) =>
      var task := s.procs[p].task;
      TaskStepKeepsInv(s.dir, s.now, Live(s), p, task, flag);
      forall q | q in s'.procs ensures TaskInv(s'.dir, q, s'.procs[q].task) {
        if q != p { TaskInvStable(s.dir, s'.dir, p, q, s.procs[q].task); }
      }
    case Start(p, task) => assert NeverWrote(s.dir, Writer(p, 0)) && NeverWrote(s.dir, Writer(p, 1));
    case _ =>
  }

  /** Every state of every run satisfies the invariant. */
  lemma {:induction false} RunsKeepInv(states: seq<System>, actions: seq<Action>, i: nat)
    requires IsRun(states, actions) && i < |states|
    ensures Inv(states[i])
  {
    if i > 0 {
      RunsKeepInv(states, actions, i - 1);
      NextKeepsInv(states[i - 1], actions[i - 1]);
      assert states[i - 1 + 1] == states[i];
    }
  }
}
