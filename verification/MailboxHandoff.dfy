/**
 The hand-off of follow-ups from askers (deliverAskFollowUp) to waiting answerers
 (reply --wait): any number of senders and of successive waiters, amid any number of other
 repliers, closers and pollers, any of which may stop anywhere.
 */
module MailboxHandoff {
  import opened Common
  import opened MailboxDirectory
  import opened MailboxProcesses
  import opened MailboxInvariant
  import opened MailboxAnswers

  // ---------------------------------------------------------------- waiters --

  ghost predicate IsWaiter(s: System, w: nat) {
    w in s.procs && s.procs[w].task.ListenTask?
  }

  ghost predicate IsSender(s: System, f: nat) {
    f in s.procs && s.procs[f].task.FollowUpTask?
  }

  /** Its marker is complete, unless somebody removed it. */
  ghost predicate Marked(st: ListenState) {
    st.ListenLoading? || st.ListenPausing? || st.ListenAcking? || st.ListenRemoving?
  }

  ghost predicate Registered(st: ListenState) {
    st.ListenMarking? || Marked(st)
  }

  /** The number of the waiter's question once its file exists; None for good if the retries ran out. */
  ghost function QuestionOf(post: PostState): Option<nat> {
    match post
    case PostWriting(n, _) => Some(n)
    case PostVerifying(n, c) => if c < ATTEMPTS then Some(n) else None
    case PostDone(Posted(n, c)) => if c < ATTEMPTS then Some(n) else None
    case _ => None
  }

  /** Still under way, from its first step to its last. */
  ghost predicate Waiting(s: System, w: nat) {
    && IsWaiter(s, w) && s.procs[w].alive
    && !s.procs[w].task.listen.ListenDone?
    && (s.procs[w].task.post.PostDone? ==> s.procs[w].task.post.result.Posted?)
  }

  /** Waiters follow one another: at most one is under way. */
  ghost predicate OneWaiter(s: System) {
    forall v, w | Waiting(s, v) && Waiting(s, w) :: v == w
  }

  ghost predicate OneWaiterAtATime(states: seq<System>, i: nat)
    requires i < |states|
  {
    forall j | 0 <= j <= i :: OneWaiter(states[j])
  }

  ghost function OutcomeOf(st: ListenState): Option<ListenOutcome> {
    match st
    case ListenRemoving(o) => Some(o)
    case ListenDone(o) => Some(o)
    case _ => None
  }

  ghost predicate Takes(o: ListenOutcome, k: nat) {
    o.GotPrompt? && o.message.number == k
  }

  /** Waiter w has taken follow-up k and acknowledged it. */
  ghost predicate Took(s: System, w: nat, k: nat) {
    IsWaiter(s, w) && OutcomeOf(s.procs[w].task.listen).Some? && Takes(OutcomeOf(s.procs[w].task.listen).value, k)
  }

  ghost predicate LeftAtDeadline(o: ListenOutcome) {
    o.Left? && o.why == AtDeadline
  }

  // ---------------------------------------------------------------- senders --

  /** The first look, the number and the verdict of the recheck of a follow-up that found no live marker again. */
  datatype Verdict = Verdict(first: Thread, number: nat, recheck: Recheck, unacked: bool)

  ghost function VerdictOf(st: FollowUpState): Option<Verdict> {
    match st
    case FollowUpAsking(first, n, _, r) => Some(Verdict(first, n, r, false))
    case FollowUpRequest(first, n, _, r, acked) => Some(Verdict(first, n, r, !acked))
    case FollowUpReloading(first, n, _, r, acked, _, _) => Some(Verdict(first, n, r, !acked))
    case FollowUpPane(Some(fb)) => Some(Verdict(fb.first, fb.number, fb.recheck, true))
    case FollowUpRecording(Some(fb), _) => Some(Verdict(fb.first, fb.number, fb.recheck, true))
    case FollowUpDone(SentByPane(Some(fb))) => Some(Verdict(fb.first, fb.number, fb.recheck, true))
    case _ => None
  }

  /** The first look of a sender that believed a marker and has not rechecked yet. */
  ghost function PendingOf(st: FollowUpState): Option<Thread> {
    match st
    case FollowUpPosting(first, _) => Some(first)
    case FollowUpRechecking(first, _, _) => Some(first)
    case _ => None
  }

  // ------------------------------------------------------------- invariants --

  /** A marker belongs to a waiter that has not finished, and is complete once that waiter reads. */
  ghost predicate MarkerInv(s: System) {
    s.dir.waiter.Some? ==>
      var m := s.dir.waiter.value;
      && IsWaiter(s, m.pid)
      && var t := s.procs[m.pid].task;
      && m == WaiterFile(m.pid, t.until, Marked(t.listen)) && Registered(t.listen)
  }

  /** A registered waiter has its marker, unless a sender removed it. */
  ghost predicate OwnMarkerInv(s: System) {
    forall w | Waiting(s, w) && Registered(s.procs[w].task.listen) && w !in s.dir.dropped ::
      s.dir.waiter.Some? && s.dir.waiter.value.pid == w
  }

  /** Message k is a complete mailbox prompt that was promised before this waiter began its last look. */
  ghost predicate PromiseHeld(d: Dir, now: int, k: nat, t: Task)
    requires t.ListenTask?
  {
    && k in d.messages && d.messages[k].complete
    && d.messages[k].message.from == Asker && d.messages[k].message.delivery == ByMailbox
    && !t.listen.ListenStarting? && !t.listen.ListenRegistering?
    && match t.listen
       case ListenLoading(_, Some(AtDeadline), load) =>
         && t.until <= now
         && (ListedBy(load).Some? ==> k in ListedBy(load).value && StoppedAt(load) != Some(k))
       case ListenRemoving(o) =>
         LeftAtDeadline(o) ==> t.until <= now && k in o.thread.snapshot && o.thread.stopped != Some(k)
       case ListenDone(o) => LeftAtDeadline(o) ==> k in o.thread.snapshot && o.thread.stopped != Some(k)
       case _ => true
  }

  ghost predicate LeavesInTime(now: int, t: Task)
    requires t.ListenTask?
  {
    match t.listen
    case ListenLoading(_, Some(AtDeadline), _) => t.until <= now
    case ListenRemoving(o) => LeftAtDeadline(o) ==> t.until <= now
    case _ => true
  }

  ghost predicate PromiseInv(s: System) {
    && (forall w | IsWaiter(s, w) :: LeavesInTime(s.now, s.procs[w].task))
    && (forall k | k in s.dir.promised ::
          IsWaiter(s, s.dir.promised[k]) && PromiseHeld(s.dir, s.now, k, s.procs[s.dir.promised[k]].task))
  }

  /** A sender that stays in the mailbox because it saw the marker again has its promise. */
  ghost predicate Promised(d: Dir, st: FollowUpState) {
    st.FollowUpDone? && st.report.StayedInMailbox? && st.report.recheck == MarkerSeen ==>
      (st.report.collisions < ATTEMPTS ==> st.report.number in d.promised)
  }

  /** Every acknowledged number was taken by some waiter. */
  ghost predicate AckInv(s: System) {
    forall k | k in s.dir.acks :: exists w :: Took(s, w, k)
  }

  /** The marker the sender saw first, or that of waiter w, was removed as stale by a sender. */
  ghost predicate MarkerLost(d: Dir, f: nat, w: nat) {
    f in d.believed && (d.believed[f] in d.dropped || w in d.dropped)
  }

  /** The question of w came after what the sender had read first. */
  ghost predicate AskedAfter(t: Task, first: Thread)
    requires t.ListenTask?
  {
    QuestionOf(t.post).Some? ==> QuestionOf(t.post).value > |first.records|
  }

  /** A follow-up is numbered above everything its sender had read first. */
  ghost predicate AboveFirst(st: FollowUpState) {
    match st
    case FollowUpPosting(first, post) => QuestionOf(post).Some? ==> QuestionOf(post).value > |first.records|
    case FollowUpRechecking(first, n, c) => c < ATTEMPTS ==> n > |first.records|
    case FollowUpDroppingAgain(first, n, c) => c < ATTEMPTS ==> n > |first.records|
    case FollowUpAsking(first, n, c, _) => c < ATTEMPTS ==> n > |first.records|
    case FollowUpRequest(first, n, c, _, _) => c < ATTEMPTS ==> n > |first.records|
    case FollowUpReloading(first, n, c, _, _, _, _) => c < ATTEMPTS ==> n > |first.records|
    case FollowUpDone(StayedInMailbox(first, n, c, _, _, _)) => c < ATTEMPTS ==> n > |first.records|
    case _ => true
  }

  /** A sender past its first check has believed somebody's marker, and keeps the promise it was given. */
  ghost predicate SenderInv(d: Dir, f: nat, st: FollowUpState) {
    && (PendingOf(st).Some? || st.FollowUpDroppingAgain? || VerdictOf(st).Some? ==> f in d.believed)
    && Promised(d, st) && AboveFirst(st)
  }

  /** Until the recheck a waiter with an older question that has not registered yet leaves the believed marker alone. */
  ghost predicate PendingInv(s: System, f: nat, w: nat)
    requires IsSender(s, f) && IsWaiter(s, w)
  {
    var first, t := PendingOf(s.procs[f].task.followUp), s.procs[w].task;
    first.Some? && Waiting(s, w) && !Registered(t.listen) && !AskedAfter(t, first.value) && f in s.dir.believed ==>
      || s.dir.believed[f] in s.dir.dropped
      || (s.dir.waiter.Some? && s.dir.waiter.value.pid == s.dir.believed[f])
  }

  /** After a recheck without a marker: who may still take the follow-up, or has taken it. */
  ghost predicate VerdictInv(s: System, f: nat, w: nat)
    requires IsSender(s, f) && IsWaiter(s, w)
  {
    var v, t := VerdictOf(s.procs[f].task.followUp), s.procs[w].task;
    && v.Some? && v.value.recheck == MarkerMissing
    && (Waiting(s, w) || (v.value.unacked && Took(s, w, v.value.number))) ==>
      MarkerLost(s.dir, f, w) || AskedAfter(t, v.value.first)
  }

  /** What needs no assumption about how many waiters there are. */
  ghost predicate HandoffInv(s: System) {
    && MarkerInv(s) && PromiseInv(s) && AckInv(s)
    && forall f | IsSender(s, f) :: SenderInv(s.dir, f, s.procs[f].task.followUp)
  }

  /** What holds besides when waiters follow one another. */
  ghost predicate SuccessionInv(s: System) {
    && OwnMarkerInv(s)
    && forall f, w | IsSender(s, f) && IsWaiter(s, w) :: PendingInv(s, f, w) && VerdictInv(s, f, w)
  }

  // ------------------------------------------------- steps of other processes --

  lemma OthersKeepMarkers(d: Dir, now: int, live: set<nat>, p: nat, task: Task, flag: bool)
    requires !task.ListenTask? && !task.FollowUpTask?
    ensures var (d', task') := TaskStep(d, now, live, p, task, flag);
      && d'.waiter == d.waiter && d'.acks == d.acks && d'.promised == d.promised
      && d'.believed == d.believed && d'.dropped == d.dropped
      && !task'.ListenTask? && !task'.FollowUpTask?
  {
    hide PostStep, LoadStep, NextFrom;
    if IsPosting(task) { PostingTouchesOnly(d, now, live, p, task, flag); }
  }

  /** Nothing about the hand-off has changed but, at most, that messages were added and time has passed. */
  ghost predicate SameHandoff(s: System, s': System) {
    && Grows(s.dir, s'.dir) && s.now <= s'.now
    && s'.dir.waiter == s.dir.waiter && s'.dir.acks == s.dir.acks && s'.dir.promised == s.dir.promised
    && s'.dir.believed == s.dir.believed && s'.dir.dropped == s.dir.dropped
    && (forall p :: IsWaiter(s, p) ==> IsWaiter(s', p) && s'.procs[p].task == s.procs[p].task)
    && (forall p :: IsWaiter(s', p) ==>
          || (IsWaiter(s, p) && (s'.procs[p].alive ==> s.procs[p].alive))
          || (s'.procs[p].task.post.PostStarting? && s'.procs[p].task.listen.ListenStarting? && s'.dir == s.dir))
    && (forall p :: IsSender(s', p) ==>
          (IsSender(s, p) && s'.procs[p].task == s.procs[p].task) || s'.procs[p].task.followUp.FollowUpStarting?)
  }

  lemma OtherActionsChangeNothing(s: System, a: Action)
    requires Inv(s) && Enabled(s, a) && (a.Run? ==> !IsWaiter(s, a.p) && !IsSender(s, a.p))
    ensures SameHandoff(s, Next(s, a))
  {
    hide Inv, TaskStep;
    NextGrows(s, a);
    if a.Run? { OthersKeepMarkers(s.dir, s.now, Live(s), a.p, s.procs[a.p].task, a.flag); }
  }

  lemma SameHandoffKeepsInv(s: System, s': System)
    requires HandoffInv(s) && SameHandoff(s, s')
    ensures HandoffInv(s')
  {
    forall k | k in s'.dir.acks ensures exists w :: Took(s', w, k) {
      var w :| Took(s, w, k);
      assert Took(s', w, k);
    }
    forall k | k in s'.dir.promised
      ensures IsWaiter(s', s'.dir.promised[k]) && PromiseHeld(s'.dir, s'.now, k, s'.procs[s'.dir.promised[k]].task)
    {
      assert IsWaiter(s, s.dir.promised[k]) && PromiseHeld(s.dir, s.now, k, s.procs[s.dir.promised[k]].task);
    }
    forall f | IsSender(s', f) ensures SenderInv(s'.dir, f, s'.procs[f].task.followUp) {
      if !s'.procs[f].task.followUp.FollowUpStarting? { assert SenderInv(s.dir, f, s.procs[f].task.followUp); }
    }
  }

  lemma SameHandoffKeepsSuccession(s: System, s': System)
    requires SuccessionInv(s) && SameHandoff(s, s')
    ensures SuccessionInv(s')
  {
    forall f, w | IsSender(s', f) && IsWaiter(s', w) ensures PendingInv(s', f, w) && VerdictInv(s', f, w) {
      if !s'.procs[f].task.followUp.FollowUpStarting? && IsWaiter(s, w) {
        assert PendingInv(s, f, w) && VerdictInv(s, f, w);
      }
    }
  }

  // ---------------------------------------------------------- a waiter's step --

  /** What a waiter's step does to the shared markers and to itself. */
  lemma WaiterStepEffects(d: Dir, now: int, live: set<nat>, p: nat, t: Task, flag: bool)
    requires t.ListenTask? && TaskInv(d, p, t)
    ensures var (d', t') := TaskStep(d, now, live, p, t, flag);
      && t'.ListenTask? && t'.until == t.until
      && d'.promised == d.promised && d'.believed == d.believed && d'.dropped == d.dropped
      && (d'.waiter == d.waiter || Registered(t.listen) || t.listen.ListenRegistering?)
      && (t.listen.ListenRegistering? ==> t'.listen.ListenMarking? && d'.waiter == Some(WaiterFile(p, t.until, false)))
      && (Registered(t'.listen) ==> Registered(t.listen) || t.listen.ListenRegistering?)
      && (t.listen.ListenMarking? ==> Marked(t'.listen) && d'.waiter == Some(WaiterFile(p, t.until, true)))
      && (Marked(t.listen) ==>
            (d'.waiter == d.waiter && Marked(t'.listen)) || (d'.waiter.None? && t'.listen.ListenDone?))
      && (t.listen.ListenDone? ==> t'.listen == t.listen && d' == d)
      && (t.post.PostDone? ==> t'.post == t.post)
  {
    hide PostStep, LoadStep, NextFrom;
    if !t.post.PostDone? { PostTouchesOnly(d, now, Writer(p, 0), t.args, t.post); }
  }

  lemma WaiterKeepsMarker(s: System, p: nat, flag: bool)
    requires Inv(s) && Enabled(s, Run(p, flag)) && IsWaiter(s, p) && MarkerInv(s)
    ensures MarkerInv(Next(s, Run(p, flag)))
  {
    hide Inv, TaskInv, TaskStep;
    var t := s.procs[p].task;
    assert TaskInv(s.dir, p, t) by { TaskInvOf(s, p); }
    WaiterStepEffects(s.dir, s.now, Live(s), p, t, flag);
  }

  lemma TaskInvOf(s: System, p: nat)
    requires Inv(s) && p in s.procs
    ensures TaskInv(s.dir, p, s.procs[p].task) && DirInv(s.dir)
  {
  }

  lemma LoadingKeepsPromise(d: Dir, now: int, p: nat, t: Task, flag: bool, k: nat)
    requires DirInv(d) && t.ListenTask? && t.post.PostDone? && t.post.result.Posted? && TaskInv(d, p, t)
    requires t.listen.ListenLoading? && PromiseHeld(d, now, k, t) && LeavesInTime(now, t)
    ensures var (_, listen') := ListenStep(d, now, p, t.post.result.number, t.until, t.listen, flag);
      PromiseHeld(d, now, k, ListenTask(t.args, t.until, t.post, listen'))
      && LeavesInTime(now, ListenTask(t.args, t.until, t.post, listen'))
  {
    hide PostInv, NextFrom;
    LoadStepKeepsInv(d, t.listen.expiry, t.listen.load);
  }

  lemma WaiterKeepsPromise(d: Dir, now: int, live: set<nat>, p: nat, t: Task, flag: bool, k: nat)
    requires DirInv(d) && t.ListenTask? && TaskInv(d, p, t) && PromiseHeld(d, now, k, t) && LeavesInTime(now, t)
    ensures var (d', t') := TaskStep(d, now, live, p, t, flag);
      t'.ListenTask? && PromiseHeld(d', now, k, t')
  {
    hide PostStep, LoadStep, NextFrom, PostInv;
    if t.post.PostDone? && t.post.result.Posted? && t.listen.ListenLoading? {
      LoadingKeepsPromise(d, now, p, t, flag, k);
    }
  }

  lemma WaiterLeavesInTime(d: Dir, now: int, live: set<nat>, p: nat, t: Task, flag: bool)
    requires t.ListenTask? && TaskInv(d, p, t) && LeavesInTime(now, t)
    ensures var (d', t') := TaskStep(d, now, live, p, t, flag); t'.ListenTask? && LeavesInTime(now, t')
  {
    hide PostStep, LoadStep, NextFrom, PostInv;
  }

  lemma PromiseStays(d: Dir, d': Dir, now: int, k: nat, t: Task)
    requires t.ListenTask? && PromiseHeld(d, now, k, t) && Grows(d, d')
    ensures PromiseHeld(d', now, k, t)
  {
  }

  lemma WaiterKeepsPromises(s: System, p: nat, flag: bool)
    requires Inv(s) && Enabled(s, Run(p, flag)) && IsWaiter(s, p) && PromiseInv(s)
    ensures PromiseInv(Next(s, Run(p, flag)))
  {
    hide Inv, TaskInv, TaskStep, PromiseHeld, LeavesInTime;
    var s', t := Next(s, Run(p, flag)), s.procs[p].task;
    TaskInvOf(s, p);
    NextGrows(s, Run(p, flag));
    WaiterStepEffects(s.dir, s.now, Live(s), p, t, flag);
    WaiterLeavesInTime(s.dir, s.now, Live(s), p, t, flag);
    forall k | k in s'.dir.promised
      ensures IsWaiter(s', s'.dir.promised[k]) && PromiseHeld(s'.dir, s'.now, k, s'.procs[s'.dir.promised[k]].task)
    {
      var w := s.dir.promised[k];
      if w == p {
        WaiterKeepsPromise(s.dir, s.now, Live(s), p, t, flag, k);
      } else {
        PromiseStays(s.dir, s'.dir, s.now, k, s.procs[w].task);
      }
    }
  }

  /** A waiter's step acknowledges at most what it has just taken. */
  lemma WaiterStepTakes(d: Dir, now: int, live: set<nat>, p: nat, t: Task, flag: bool)
    requires t.ListenTask? && TaskInv(d, p, t)
    ensures var (d', t') := TaskStep(d, now, live, p, t, flag);
      && t'.ListenTask?
      && (forall k | k in d'.acks && k !in d.acks ::
            OutcomeOf(t'.listen).Some? && Takes(OutcomeOf(t'.listen).value, k))
      && (OutcomeOf(t.listen).Some? ==> OutcomeOf(t'.listen) == OutcomeOf(t.listen))
  {
    hide PostStep, LoadStep, NextFrom, PostInv;
    if !t.post.PostDone? { PostTouchesOnly(d, now, Writer(p, 0), t.args, t.post); }
  }

  lemma WaiterKeepsAcks(s: System, p: nat, flag: bool)
    requires Inv(s) && Enabled(s, Run(p, flag)) && IsWaiter(s, p) && AckInv(s)
    ensures AckInv(Next(s, Run(p, flag)))
  {
    hide Inv, TaskInv, TaskStep;
    var s' := Next(s, Run(p, flag));
    TaskInvOf(s, p);
    WaiterStepTakes(s.dir, s.now, Live(s), p, s.procs[p].task, flag);
    forall k | k in s'.dir.acks ensures exists w :: Took(s', w, k) {
      if k in s.dir.acks {
        var w :| Took(s, w, k);
        assert Took(s', w, k);
      } else {
        assert Took(s', p, k);
      }
    }
  }

  lemma WaiterKeepsHandoff(s: System, p: nat, flag: bool)
    requires Inv(s) && Enabled(s, Run(p, flag)) && IsWaiter(s, p) && HandoffInv(s)
    ensures HandoffInv(Next(s, Run(p, flag)))
  {
    hide Inv, TaskInv, TaskStep, MarkerInv, PromiseInv, AckInv;
    WaiterKeepsMarker(s, p, flag);
    WaiterKeepsPromises(s, p, flag);
    WaiterKeepsAcks(s, p, flag);
    TaskInvOf(s, p);
    WaiterStepEffects(s.dir, s.now, Live(s), p, s.procs[p].task, flag);
  }

  lemma WaiterKeepsOwnMarker(s: System, p: nat, flag: bool)
    requires Inv(s) && Enabled(s, Run(p, flag)) && IsWaiter(s, p) && OwnMarkerInv(s) && OneWaiter(s)
    ensures OwnMarkerInv(Next(s, Run(p, flag)))
  {
    hide Inv, TaskInv, TaskStep;
    var s', t := Next(s, Run(p, flag)), s.procs[p].task;
    TaskInvOf(s, p);
    WaiterStepEffects(s.dir, s.now, Live(s), p, t, flag);
    if !Waiting(s, p) { RefusedWaiterStops(s.dir, s.now, Live(s), p, t, flag); }
    forall w | Waiting(s', w) && Registered(s'.procs[w].task.listen) && w !in s'.dir.dropped
      ensures s'.dir.waiter.Some? && s'.dir.waiter.value.pid == w
    {
      if w != p {
        assert Waiting(s, w);
        assert !Waiting(s, p);
      }
    }
  }

  /** A waiter whose question was refused does nothing any more. */
  lemma RefusedWaiterStops(d: Dir, now: int, live: set<nat>, p: nat, t: Task, flag: bool)
    requires t.ListenTask? && ((t.post.PostDone? && !t.post.result.Posted?) || t.listen.ListenDone?) && TaskInv(d, p, t)
    ensures TaskStep(d, now, live, p, t, flag) == (d, t)
  {
    hide PostStep, PostInv;
  }

  /** A new question is numbered above everything that had been read before. */
  lemma QuestionIsNew(d: Dir, now: int, w: Writer, a: PostArgs, ps: PostState, first: Thread)
    requires DirInv(d) && ThreadInv(d, first) && PostInv(d, w, a, ps)
    requires QuestionOf(ps).Some? ==> QuestionOf(ps).value > |first.records|
    ensures var q := QuestionOf(PostStep(d, now, w, a, ps).1); q.Some? ==> q.value > |first.records|
  {
    hide LoadStep;
    if ps.PostAllocating? && ps.collisions < ATTEMPTS && ps.last + 1 !in d.messages {
      assert UsedUpTo(d.messages.Keys, |first.records|);
    }
  }

  /** Once a question was asked after some first look, or not asked at all, that stays so. */
  lemma AskedAfterStays(d: Dir, now: int, live: set<nat>, p: nat, t: Task, flag: bool, first: Thread)
    requires DirInv(d) && ThreadInv(d, first) && t.ListenTask? && TaskInv(d, p, t) && AskedAfter(t, first)
    ensures var t' := TaskStep(d, now, live, p, t, flag).1; t'.ListenTask? && AskedAfter(t', first)
  {
    hide PostStep, LoadStep, NextFrom, PostInv, ThreadInv, DirInv;
    if !t.post.PostDone? {
      QuestionIsNew(d, now, Writer(p, 0), t.args, t.post, first);
    }
  }

  /** The first look of a sender was a good read. */
  lemma FirstLookHolds(d: Dir, f: nat, a: FollowUpArgs, st: FollowUpState)
    requires FollowUpInv(d, f, a, st)
    ensures PendingOf(st).Some? ==> ThreadInv(d, PendingOf(st).value)
    ensures VerdictOf(st).Some? ==> ThreadInv(d, VerdictOf(st).value.first)
  {
    hide PostInv, LoadInv, ThreadInv, Written;
  }

  lemma WaiterKeepsPending(s: System, p: nat, flag: bool, f: nat, w: nat)
    requires Inv(s) && Enabled(s, Run(p, flag)) && IsWaiter(s, p) && SuccessionInv(s) && OneWaiter(s)
    requires IsSender(s, f) && IsWaiter(s, w)
    ensures var s' := Next(s, Run(p, flag)); IsSender(s', f) && IsWaiter(s', w) && PendingInv(s', f, w)
  {
    hide Inv, TaskInv, TaskStep, VerdictInv, OwnMarkerInv, AskedAfter, ThreadInv, FollowUpInv;
    var t, st := s.procs[p].task, s.procs[f].task.followUp;
    TaskInvOf(s, p);
    TaskInvOf(s, f);
    FollowUpInvOf(s, f);
    FirstLookHolds(s.dir, f, s.procs[f].task.fargs, st);
    WaiterStepEffects(s.dir, s.now, Live(s), p, t, flag);
    if !Waiting(s, p) { RefusedWaiterStops(s.dir, s.now, Live(s), p, t, flag); }
    assert PendingInv(s, f, w);
    assert Waiting(Next(s, Run(p, flag)), w) ==> Waiting(s, w);
    assert w != p && Waiting(s, w) ==> !Waiting(s, p);
    if w == p && PendingOf(st).Some? && AskedAfter(t, PendingOf(st).value) {
      AskedAfterStays(s.dir, s.now, Live(s), p, t, flag, PendingOf(st).value);
    }
  }

  lemma FollowUpInvOf(s: System, f: nat)
    requires Inv(s) && IsSender(s, f)
    ensures FollowUpInv(s.dir, f, s.procs[f].task.fargs, s.procs[f].task.followUp)
  {
    assert TaskInv(s.dir, f, s.procs[f].task);
  }

  lemma WaiterKeepsVerdict(s: System, p: nat, flag: bool, f: nat, w: nat)
    requires Inv(s) && Enabled(s, Run(p, flag)) && IsWaiter(s, p) && SuccessionInv(s)
    requires IsSender(s, f) && IsWaiter(s, w)
    ensures var s' := Next(s, Run(p, flag)); IsSender(s', f) && IsWaiter(s', w) && VerdictInv(s', f, w)
  {
    hide Inv, TaskInv, TaskStep, PendingInv, OwnMarkerInv, AskedAfter, ThreadInv, FollowUpInv;
    var t, st := s.procs[p].task, s.procs[f].task.followUp;
    TaskInvOf(s, p);
    FollowUpInvOf(s, f);
    FirstLookHolds(s.dir, f, s.procs[f].task.fargs, st);
    WaiterStepEffects(s.dir, s.now, Live(s), p, t, flag);
    WaiterStepTakes(s.dir, s.now, Live(s), p, t, flag);
    if !Waiting(s, p) { RefusedWaiterStops(s.dir, s.now, Live(s), p, t, flag); }
    assert VerdictInv(s, f, w);
    if w == p && VerdictOf(st).Some? && AskedAfter(t, VerdictOf(st).value.first) {
      AskedAfterStays(s.dir, s.now, Live(s), p, t, flag, VerdictOf(st).value.first);
    }
  }

  lemma WaiterKeepsSuccession(s: System, p: nat, flag: bool)
    requires Inv(s) && Enabled(s, Run(p, flag)) && IsWaiter(s, p) && SuccessionInv(s) && OneWaiter(s)
    ensures SuccessionInv(Next(s, Run(p, flag)))
  {
    hide Inv, TaskStep, OwnMarkerInv, PendingInv, VerdictInv;
    var s' := Next(s, Run(p, flag));
    WaiterKeepsOwnMarker(s, p, flag);
    StaysWaiter(s.dir, s.now, Live(s), p, s.procs[p].task, flag);
    forall f, w | IsSender(s', f) && IsWaiter(s', w) ensures PendingInv(s', f, w) && VerdictInv(s', f, w) {
      assert IsSender(s, f) && IsWaiter(s, w);
      WaiterKeepsPending(s, p, flag, f, w);
      WaiterKeepsVerdict(s, p, flag, f, w);
    }
  }

  lemma StaysWaiter(d: Dir, now: int, live: set<nat>, p: nat, t: Task, flag: bool)
    ensures TaskStep(d, now, live, p, t, flag).1.ListenTask? <==> t.ListenTask?
    ensures TaskStep(d, now, live, p, t, flag).1.FollowUpTask? <==> t.FollowUpTask?
  {
  }

  // ---------------------------------------------------------- a sender's step --

  /** What a sender's step does to the shared markers. */
  lemma SenderStepEffects(d: Dir, now: int, live: set<nat>, f: nat, a: FollowUpArgs, st: FollowUpState, flag: bool)
    requires FollowUpInv(d, f, a, st)
    ensures var (d', st') := FollowUpStep(d, now, live, f, a, st, flag);
      && d'.acks == d.acks
      && ((d'.waiter == d.waiter && d'.dropped == d.dropped)
          || (d'.waiter.None? && d.waiter.Some? && d'.dropped == d.dropped + {d.waiter.value.pid}))
      && (d'.promised == d.promised
          || (st.FollowUpRechecking? && st.collisions < ATTEMPTS && d.waiter.Some?
              && Believed(d.waiter.value, now, live)
              && d' == d.(promised := d.promised[st.number := d.waiter.value.pid])))
      && (d'.believed == d.believed
          || (st.FollowUpChecking? && d.waiter.Some? && d' == d.(believed := d.believed[f := d.waiter.value.pid])))
  {
    hide LoadStep, NextFrom, LoadInv, ThreadInv, ValidArgs, MaxNumber, PostStep;
    if st.FollowUpPosting? && !st.post.PostDone? { PostTouchesOnly(d, now, Writer(f, 0), MailboxArgs(a), st.post); }
    if st.FollowUpRecording? && !st.post.PostDone? { PostTouchesOnly(d, now, Writer(f, 1), PaneArgs(a), st.post); }
  }

  lemma SenderStaysAbove(d: Dir, now: int, live: set<nat>, f: nat, a: FollowUpArgs, st: FollowUpState, flag: bool)
    requires DirInv(d) && FollowUpInv(d, f, a, st) && AboveFirst(st)
    ensures AboveFirst(FollowUpStep(d, now, live, f, a, st, flag).1)
  {
    hide LoadStep, PostStep, NextFrom, ThreadInv, DirInv, LoadInv, Written;
    if st.FollowUpPosting? && !st.post.PostDone? {
      QuestionIsNew(d, now, Writer(f, 0), MailboxArgs(a), st.post, st.first);
    }
  }

  lemma SenderStepProgress(d: Dir, now: int, live: set<nat>, f: nat, a: FollowUpArgs, st: FollowUpState, flag: bool)
    requires DirInv(d) && SenderInv(d, f, st) && FollowUpInv(d, f, a, st)
    ensures var (d', st') := FollowUpStep(d, now, live, f, a, st, flag);
      && (PendingOf(st').Some? ==>
            PendingOf(st') == PendingOf(st) || (d.waiter.Some? && d'.waiter == d.waiter && f in d'.believed
                                                && d'.believed[f] == d.waiter.value.pid))
      && (VerdictOf(st').Some? ==>
            var v' := VerdictOf(st').value;
            || (VerdictOf(st).Some?
                && v' == VerdictOf(st).value.(unacked := v'.unacked)
                && (v'.unacked ==> VerdictOf(st).value.unacked || v'.number !in d.acks))
            || (PendingOf(st) == Some(v'.first) && d.waiter.None? && d' == d
                && v'.recheck == MarkerMissing && !v'.unacked)
            || v'.recheck == MarkerStale)
      && SenderInv(d', f, st')
  {
    hide LoadStep, PostStep, AboveFirst, LoadInv, ThreadInv, DirInv;
    SenderStaysAbove(d, now, live, f, a, st, flag);
    if st.FollowUpPosting? && !st.post.PostDone? { PostTouchesOnly(d, now, Writer(f, 0), MailboxArgs(a), st.post); }
    if st.FollowUpRecording? && !st.post.PostDone? { PostTouchesOnly(d, now, Writer(f, 1), PaneArgs(a), st.post); }
  }

  /** Only a waiter that has not begun its last look has a marker that is believed. */
  lemma BelievedWaiterIsInTime(s: System, f: nat, k: nat)
    requires MarkerInv(s) && PromiseInv(s) && s.dir.waiter.Some? && Believed(s.dir.waiter.value, s.now, Live(s))
    requires IsSender(s, f) && k in s.dir.messages && s.dir.messages[k].complete
    requires s.dir.messages[k].message == Stamp(MailboxArgs(s.procs[f].task.fargs), k)
    ensures PromiseHeld(s.dir, s.now, k, s.procs[s.dir.waiter.value.pid].task)
  {
  }

  lemma SenderKeepsPromises(s: System, f: nat, flag: bool)
    requires Inv(s) && Enabled(s, Run(f, flag)) && IsSender(s, f) && MarkerInv(s) && PromiseInv(s)
    ensures PromiseInv(Next(s, Run(f, flag)))
  {
    hide Inv, FollowUpStep, PromiseHeld, LeavesInTime;
    var s', t := Next(s, Run(f, flag)), s.procs[f].task;
    FollowUpInvOf(s, f);
    NextGrows(s, Run(f, flag));
    SenderStepEffects(s.dir, s.now, Live(s), f, t.fargs, t.followUp, flag);
    forall k | k in s'.dir.promised
      ensures IsWaiter(s', s'.dir.promised[k]) && PromiseHeld(s'.dir, s'.now, k, s'.procs[s'.dir.promised[k]].task)
    {
      var w := s'.dir.promised[k];
      if k in s.dir.promised && s.dir.promised[k] == w {
        PromiseStays(s.dir, s'.dir, s.now, k, s.procs[w].task);
      } else {
        BelievedWaiterIsInTime(s, f, k);
        PromiseStays(s.dir, s'.dir, s.now, k, s.procs[w].task);
      }
    }
  }

  lemma SenderKeepsHandoff(s: System, f: nat, flag: bool)
    requires Inv(s) && Enabled(s, Run(f, flag)) && IsSender(s, f) && HandoffInv(s)
    ensures HandoffInv(Next(s, Run(f, flag)))
  {
    hide Inv, FollowUpStep, PromiseInv, FollowUpInv;
    var s', t := Next(s, Run(f, flag)), s.procs[f].task;
    TaskInvOf(s, f);
    FollowUpInvOf(s, f);
    SenderStepEffects(s.dir, s.now, Live(s), f, t.fargs, t.followUp, flag);
    SenderStepProgress(s.dir, s.now, Live(s), f, t.fargs, t.followUp, flag);
    SenderKeepsPromises(s, f, flag);
    forall k | k in s'.dir.acks ensures exists w :: Took(s', w, k) {
      var w :| Took(s, w, k);
      assert Took(s', w, k);
    }
    forall g | IsSender(s', g) ensures SenderInv(s'.dir, g, s'.procs[g].task.followUp) {
      assert IsSender(s, g) && SenderInv(s.dir, g, s.procs[g].task.followUp);
    }
  }

  lemma SenderKeepsPending(s: System, p: nat, flag: bool, f: nat, w: nat)
    requires Inv(s) && Enabled(s, Run(p, flag)) && IsSender(s, p) && HandoffInv(s) && SuccessionInv(s)
    requires IsSender(s, f) && IsWaiter(s, w)
    ensures var s' := Next(s, Run(p, flag)); IsSender(s', f) && IsWaiter(s', w) && PendingInv(s', f, w)
  {
    hide Inv, FollowUpStep, PromiseInv, FollowUpInv, MarkerInv, AckInv, OwnMarkerInv, VerdictInv;
    var t := s.procs[p].task;
    TaskInvOf(s, p);
    FollowUpInvOf(s, p);
    assert SenderInv(s.dir, p, t.followUp) && SenderInv(s.dir, f, s.procs[f].task.followUp);
    SenderStepEffects(s.dir, s.now, Live(s), p, t.fargs, t.followUp, flag);
    SenderStepProgress(s.dir, s.now, Live(s), p, t.fargs, t.followUp, flag);
    assert PendingInv(s, f, w);
  }

  lemma SenderKeepsVerdict(s: System, p: nat, flag: bool, f: nat, w: nat)
    requires Inv(s) && Enabled(s, Run(p, flag)) && IsSender(s, p) && HandoffInv(s) && SuccessionInv(s)
    requires IsSender(s, f) && IsWaiter(s, w)
    ensures var s' := Next(s, Run(p, flag)); IsSender(s', f) && IsWaiter(s', w) && VerdictInv(s', f, w)
  {
    hide Inv, FollowUpStep, PromiseInv, FollowUpInv, MarkerInv, AckInv, AskedAfter;
    var t := s.procs[p].task;
    TaskInvOf(s, p);
    FollowUpInvOf(s, p);
    assert SenderInv(s.dir, p, t.followUp) && SenderInv(s.dir, f, s.procs[f].task.followUp);
    SenderStepEffects(s.dir, s.now, Live(s), p, t.fargs, t.followUp, flag);
    SenderStepProgress(s.dir, s.now, Live(s), p, t.fargs, t.followUp, flag);
    assert PendingInv(s, f, w) && VerdictInv(s, f, w);
    if VerdictOf(t.followUp).Some? && Took(s, w, VerdictOf(t.followUp).value.number) {
      TakenIsAcked(s, w, VerdictOf(t.followUp).value.number);
    }
  }

  lemma TakenIsAcked(s: System, w: nat, k: nat)
    requires Inv(s) && Took(s, w, k)
    ensures k in s.dir.acks
  {
    assert TaskInv(s.dir, w, s.procs[w].task);
  }

  lemma SenderKeepsSuccession(s: System, p: nat, flag: bool)
    requires Inv(s) && Enabled(s, Run(p, flag)) && IsSender(s, p) && HandoffInv(s) && SuccessionInv(s)
    ensures SuccessionInv(Next(s, Run(p, flag)))
  {
    hide Inv, FollowUpStep, PendingInv, VerdictInv, FollowUpInv;
    var s', t := Next(s, Run(p, flag)), s.procs[p].task;
    FollowUpInvOf(s, p);
    SenderStepEffects(s.dir, s.now, Live(s), p, t.fargs, t.followUp, flag);
    assert OwnMarkerInv(s') by {
      forall w | Waiting(s', w) && Registered(s'.procs[w].task.listen) && w !in s'.dir.dropped
        ensures s'.dir.waiter.Some? && s'.dir.waiter.value.pid == w
      {
        assert Waiting(s, w);
      }
    }
    forall f, w | IsSender(s', f) && IsWaiter(s', w) ensures PendingInv(s', f, w) && VerdictInv(s', f, w) {
      assert IsSender(s, f) && IsWaiter(s, w);
      SenderKeepsPending(s, p, flag, f, w);
      SenderKeepsVerdict(s, p, flag, f, w);
    }
  }

  // ------------------------------------------------------------------- runs --

  lemma NextKeepsHandoff(s: System, a: Action)
    requires Inv(s) && Enabled(s, a) && HandoffInv(s)
    ensures HandoffInv(Next(s, a))
  {
    hide Inv, HandoffInv;
    if a.Run? && IsWaiter(s, a.p) {
      WaiterKeepsHandoff(s, a.p, a.flag);
    } else if a.Run? && IsSender(s, a.p) {
      SenderKeepsHandoff(s, a.p, a.flag);
    } else {
      OtherActionsChangeNothing(s, a);
      SameHandoffKeepsInv(s, Next(s, a));
    }
  }

  lemma NextKeepsSuccession(s: System, a: Action)
    requires Inv(s) && Enabled(s, a) && HandoffInv(s) && SuccessionInv(s) && OneWaiter(s)
    ensures SuccessionInv(Next(s, a))
  {
    hide Inv, HandoffInv, SuccessionInv;
    if a.Run? && IsWaiter(s, a.p) {
      WaiterKeepsSuccession(s, a.p, a.flag);
    } else if a.Run? && IsSender(s, a.p) {
      SenderKeepsSuccession(s, a.p, a.flag);
    } else {
      OtherActionsChangeNothing(s, a);
      SameHandoffKeepsSuccession(s, Next(s, a));
    }
  }

  /** Markers, promises and acknowledgements fit together in every state of every run. */
  lemma {:induction false} RunsKeepHandoff(states: seq<System>, actions: seq<Action>, i: nat)
    requires IsRun(states, actions) && i < |states|
    ensures HandoffInv(states[i])
  {
    if i > 0 {
      RunsKeepInv(states, actions, i - 1);
      assert states[i - 1 + 1] == states[i] == Next(states[i - 1], actions[i - 1]);
      RunsKeepHandoff(states, actions, i - 1);
      NextKeepsHandoff(states[i - 1], actions[i - 1]);
    }
  }

  lemma {:induction false} RunsKeepSuccession(states: seq<System>, actions: seq<Action>, i: nat)
    requires IsRun(states, actions) && i < |states| && OneWaiterAtATime(states, i)
    ensures SuccessionInv(states[i])
  {
    if i > 0 {
      RunsKeepInv(states, actions, i - 1);
      RunsKeepHandoff(states, actions, i - 1);
      assert states[i - 1 + 1] == states[i] == Next(states[i - 1], actions[i - 1]);
      RunsKeepSuccession(states, actions, i - 1);
      assert OneWaiter(states[i - 1]);
      NextKeepsSuccession(states[i - 1], actions[i - 1]);
    }
  }

  // --------------------------------------------------------------- theorems --

  ghost predicate IsMailboxPrompt(d: Dir, k: nat, after: nat) {
    k in d.messages && Matches(d.messages[k].message, Asker, after, Some(ByMailbox))
  }

  lemma {:induction false} LastNumberUnchanged(d: Dir, short: seq<Message>, long: seq<Message>, from: Role)
    requires DirInv(d) && PrefixRead(d, short) && PrefixRead(d, long) && |short| <= |long|
    requires forall k | |short| < k <= |long| :: d.messages[k].message.from != from
    ensures LastNumber(long, from) == LastNumber(short, from) <= |short|
    decreases |long|
  {
    if |short| < |long| {
      var front := long[..|long| - 1];
      assert d.messages[|long|].message == long[|long| - 1];
      assert PrefixRead(d, front);
      LastNumberUnchanged(d, short, front, from);
    } else {
      assert short == long by {
        forall i | 0 <= i < |short| ensures short[i] == long[i] {
          assert d.messages[i + 1].message == short[i];
        }
      }
      if short != [] {
        var front := short[..|short| - 1];
        assert PrefixRead(d, front);
        LastNumberUnchanged(d, front, front, from);
        assert d.messages[|short|].message == short[|short| - 1];
      }
    }
  }

  ghost predicate IsCompleteAnswer(d: Dir, k: nat, after: nat) {
    IsAnswer(d, k, after) && d.messages[k].complete
  }

  /** Two reads that disagree about the last answer prove that the answerer posted in between. */
  lemma AnsweredBetween(d: Dir, first: Thread, current: Thread)
    requires DirInv(d) && ThreadInv(d, first) && ThreadInv(d, current)
    requires |first.records| <= |current.records|
    requires LastNumber(current.records, Answerer) != LastNumber(first.records, Answerer)
    ensures exists j :: IsCompleteAnswer(d, j, |first.records|)
  {
    if forall k | |first.records| < k <= |current.records| :: d.messages[k].message.from != Answerer {
      LastNumberUnchanged(d, first.records, current.records, Answerer);
    } else {
      var k :| |first.records| < k <= |current.records| && d.messages[k].message.from == Answerer;
      assert IsCompleteAnswer(d, k, |first.records|);
    }
  }

  ghost predicate Sent(s: System, f: nat, report: FollowUpReport) {
    IsSender(s, f) && s.procs[f].task.followUp == FollowUpDone(report)
  }

  ghost predicate Listened(s: System, w: nat, outcome: ListenOutcome) {
    IsWaiter(s, w) && s.procs[w].task.listen == ListenDone(outcome)
  }

  ghost predicate Cancelled(o: ListenOutcome) {
    o.Left? && o.why == ByCancel
  }

  /** The number of the question after which w listens. */
  ghost function QuestionNumber(s: System, w: nat): nat
    requires IsWaiter(s, w)
  {
    var post := s.procs[w].task.post;
    if post.PostDone? && post.result.Posted? then post.result.number else 0
  }

  /** An older follow-up stands before k. */
  ghost predicate OlderPrompt(d: Dir, after: nat, k: nat) {
    exists j | after < j < k :: IsMailboxPrompt(d, j, after)
  }

  /** The read stopped at a half-written file below k before any follow-up above `after`. */
  ghost predicate PromptBlockedBelow(d: Dir, t: Thread, after: nat, k: nat) {
    && t.stopped.Some? && t.stopped.value < k
    && forall j | after < j < t.stopped.value :: !IsMailboxPrompt(d, j, after)
  }

  /**
   The waiter whose marker the sender saw again, and which has left without a cancel: it
   has taken the follow-up if and only if its question is older, the thread was not closed,
   no older follow-up stands before it, and its last read was not blocked by a half-written
   file below it.
   */
  lemma SeenWaiterTakesItExactly(
    states: seq<System>, actions: seq<Action>, i: nat, k: nat, w: nat, outcome: ListenOutcome)
    requires IsRun(states, actions) && i < |states|
    requires k in states[i].dir.promised && states[i].dir.promised[k] == w
    requires Listened(states[i], w, outcome) && !Cancelled(outcome)
    ensures IsWaiter(states[i], w)
    ensures var d, after := states[i].dir, QuestionNumber(states[i], w);
      Takes(outcome, k) <==>
        && after < k && !outcome.FoundClosed?
        && !OlderPrompt(d, after, k) && !PromptBlockedBelow(d, outcome.thread, after, k)
    ensures var d, after := states[i].dir, QuestionNumber(states[i], w);
      after < k && !outcome.FoundClosed? ==> (outcome.Left? <==> PromptBlockedBelow(d, outcome.thread, after, k))
  {
    RunsKeepInv(states, actions, i);
    RunsKeepHandoff(states, actions, i);
    var s := states[i];
    TaskInvOf(s, w);
    PromisedOutcome(s.dir, s.now, k, s.procs[w].task, QuestionNumber(s, w), outcome);
  }

  lemma PromisedOutcome(d: Dir, now: int, k: nat, t: Task, after: nat, outcome: ListenOutcome)
    requires DirInv(d) && t.ListenTask? && PromiseHeld(d, now, k, t) && t.listen == ListenDone(outcome)
    requires OutcomeInv(d, after, outcome) && !Cancelled(outcome)
    ensures Takes(outcome, k) <==>
        && after < k && !outcome.FoundClosed?
        && !OlderPrompt(d, after, k) && !PromptBlockedBelow(d, outcome.thread, after, k)
    ensures after < k && !outcome.FoundClosed? ==> (outcome.Left? <==> PromptBlockedBelow(d, outcome.thread, after, k))
  {
    if !outcome.FoundClosed? {
      var n := |outcome.thread.records|;
      NextFromReadsInOrder(d, outcome.thread, Asker, after, Some(ByMailbox));
      assert k > after ==> IsMailboxPrompt(d, k, after);
      if outcome.Left? {
        if k > n { assert n + 1 in outcome.thread.snapshot; }
      } else {
        var m := outcome.message;
        assert IsMailboxPrompt(d, m.number, after);
        forall j | after < j < m.number ensures !IsMailboxPrompt(d, j, after) {
        }
      }
    }
  }

  /**
   A follow-up is never stranded in the mailbox, whoever else sends and waits.  When a
   sender reports success, the follow-up went through the pane, or is acknowledged, or the
   answerer has posted past what the sender had read first, or the thread is closed; or the
   sender saw the marker of a waiter that is still under way, was stopped or cancelled, took
   an older follow-up instead, was blocked by a half-written file below, or whose own
   question was never written.
   */
  lemma FollowUpIsNeverStranded(states: seq<System>, actions: seq<Action>, i: nat, f: nat, report: FollowUpReport)
    requires IsRun(states, actions) && i < |states|
    requires Sent(states[i], f, report) && report != NotSent
    requires report.StayedInMailbox? ==> report.collisions < ATTEMPTS
    ensures var s, d := states[i], states[i].dir;
      || report.SentByPane?
      || report.number in d.acks
      || (exists j :: IsCompleteAnswer(d, j, |report.first.records|))
      || d.closed.Some?
      || (report.recheck == MarkerSeen && report.number in d.promised && StillOwed(s, report.number))
  {
    var s := states[i];
    RunsKeepInv(states, actions, i);
    RunsKeepHandoff(states, actions, i);
    FollowUpInvOf(s, f);
    assert SenderInv(s.dir, f, s.procs[f].task.followUp);
    hide HandoffInv, Inv, ThreadInv, Written;
    if report.StayedInMailbox? {
      if report.recheck == MarkerSeen {
        SeenFollowUpIsNotStranded(states, actions, i, report);
      } else if !report.acked && report.current.value.closed.None? {
        AnsweredBetween(s.dir, report.first, report.current.value);
      }
    }
  }

  /** Follow-up k was promised a waiter, and why that waiter has not settled it. */
  ghost predicate StillOwed(s: System, k: nat)
    requires k in s.dir.promised
  {
    var w := s.dir.promised[k];
    && IsWaiter(s, w)
    && var t, after := s.procs[w].task, QuestionNumber(s, w);
       || !t.listen.ListenDone?
       || QuestionOf(t.post).None?
       || Cancelled(t.listen.outcome)
       || (t.listen.outcome.GotPrompt? && OlderPrompt(s.dir, after, k))
       || (LeftAtDeadline(t.listen.outcome) && PromptBlockedBelow(s.dir, t.listen.outcome.thread, after, k))
  }

  lemma SeenFollowUpIsNotStranded(states: seq<System>, actions: seq<Action>, i: nat, report: FollowUpReport)
    requires IsRun(states, actions) && i < |states| && Inv(states[i]) && HandoffInv(states[i])
    requires report.StayedInMailbox? && report.number in states[i].dir.promised
    requires ThreadInv(states[i].dir, report.first) && report.number > |report.first.records|
    ensures var d := states[i].dir;
      || report.number in d.acks
      || (exists j :: IsCompleteAnswer(d, j, |report.first.records|))
      || d.closed.Some?
      || StillOwed(states[i], report.number)
  {
    hide PromiseHeld, MarkerInv, AckInv, SenderInv, LeavesInTime, LoadInv, ThreadInv, DirInv;
    var s, k := states[i], report.number;
    var w := s.dir.promised[k];
    var t := s.procs[w].task;
    TaskInvOf(s, w);
    if t.listen.ListenDone? && !Cancelled(t.listen.outcome) {
      SeenWaiterTakesItExactly(states, actions, i, k, w, t.listen.outcome);
      if QuestionOf(t.post).Some? && k <= QuestionNumber(s, w) {
        assert IsCompleteAnswer(s.dir, QuestionNumber(s, w), |report.first.records|);
      }
    }
  }

  // ------------------------------------------------------- an absent marker --

  lemma {:induction false} LastNumberCovers(d: Dir, records: seq<Message>, from: Role, j: nat)
    requires DirInv(d) && PrefixRead(d, records) && 1 <= j <= |records| && d.messages[j].message.from == from
    ensures LastNumber(records, from) >= j
  {
    var front, last := records[..|records| - 1], records[|records| - 1];
    assert d.messages[|records|].message == last;
    if j < |records| {
      assert PrefixRead(d, front);
      LastNumberCovers(d, front, from, j);
    }
  }

  lemma {:induction false} LastNumberBound(d: Dir, records: seq<Message>, from: Role)
    requires DirInv(d) && PrefixRead(d, records)
    ensures LastNumber(records, from) <= |records|
  {
    if records != [] {
      var front := records[..|records| - 1];
      assert d.messages[|records|].message == records[|records| - 1];
      assert PrefixRead(d, front);
      LastNumberBound(d, front, from);
    }
  }

  /** The reload that decided for the pane was blocked by a half-written file below the follow-up. */
  ghost predicate ReloadBlocked(fb: Fallback) {
    fb.current.stopped.Some? && fb.current.stopped.value < fb.number
  }

  ghost predicate ChosePane(s: System, f: nat, fb: Fallback) {
    && IsSender(s, f)
    && var st := s.procs[f].task.followUp;
       || st == FollowUpPane(Some(fb)) || st == FollowUpDone(SentByPane(Some(fb)))
       || (st.FollowUpRecording? && st.fallback == Some(fb))
  }

  /**
   With successive waiters and any number of senders: when the recheck found no marker and
   the sender chose the pane, the follow-up is never acknowledged as well, unless a sender
   had removed as stale the marker it saw first or the marker of the waiter that took it, or
   the reload was blocked by a half-written file below it, or that waiter's own question was
   never written.
   */
  lemma AbsentMarkerMeansOneDelivery(states: seq<System>, actions: seq<Action>, i: nat, f: nat, fb: Fallback)
    requires IsRun(states, actions) && i < |states| && OneWaiterAtATime(states, i)
    requires ChosePane(states[i], f, fb) && fb.recheck == MarkerMissing
    ensures fb.number in states[i].dir.acks ==>
      exists w :: Took(states[i], w, fb.number)
        && (MarkerLost(states[i].dir, f, w) || ReloadBlocked(fb) || QuestionOf(states[i].procs[w].task.post).None?)
  {
    hide Inv, HandoffInv, SuccessionInv, MarkerLost, ReloadBlocked, OneWaiterAtATime;
    RunsKeepInv(states, actions, i);
    RunsKeepHandoff(states, actions, i);
    RunsKeepSuccession(states, actions, i);
    var s := states[i];
    if fb.number in s.dir.acks {
      var w := TakerOf(s, fb.number);
      assert VerdictInv(s, f, w) by { VerdictOn(s, f, w); }
      if !MarkerLost(s.dir, f, w) && QuestionOf(s.procs[w].task.post).Some? {
        LaterQuestionBlocksReload(s, f, fb, w);
      }
    }
  }

  lemma TakerOf(s: System, k: nat) returns (w: nat)
    requires HandoffInv(s) && k in s.dir.acks
    ensures Took(s, w, k)
  {
    w :| Took(s, w, k);
  }

  lemma VerdictOn(s: System, f: nat, w: nat)
    requires SuccessionInv(s) && IsSender(s, f) && IsWaiter(s, w)
    ensures VerdictInv(s, f, w)
  {
  }

  lemma LaterQuestionBlocksReload(s: System, f: nat, fb: Fallback, w: nat)
    requires Inv(s) && ChosePane(s, f, fb) && Took(s, w, fb.number)
    requires QuestionOf(s.procs[w].task.post).Some? && AskedAfter(s.procs[w].task, fb.first)
    ensures ReloadBlocked(fb)
  {
    hide PostInv, LoadInv;
    var d, j := s.dir, QuestionOf(s.procs[w].task.post).value;
    FollowUpInvOf(s, f);
    QuestionPrecedes(s, w, fb.number);
    if |fb.current.records| >= j {
      LastNumberCovers(d, fb.current.records, Answerer, j);
      LastNumberBound(d, fb.first.records, Answerer);
    }
    assert |fb.current.records| + 1 in fb.current.snapshot;
  }

  lemma QuestionPrecedes(s: System, w: nat, k: nat)
    requires Inv(s) && Took(s, w, k) && QuestionOf(s.procs[w].task.post).Some?
    ensures var j := QuestionOf(s.procs[w].task.post).value;
      1 <= j < k && j in s.dir.messages && s.dir.messages[j].message.from == Answerer
  {
    TaskInvOf(s, w);
  }
}
