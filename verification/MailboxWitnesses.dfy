/**
 Runs that show the exceptions named by the mailbox theorems to be real.
 */
module MailboxWitnesses {
  import opened Common
  import opened MailboxDirectory
  import opened MailboxProcesses
  import opened MailboxInvariant
  import opened MailboxAnswers
  import opened MailboxHandoff
  import opened MailboxRuns

  /** The thread is open, has exactly the files 1..size, and time has not run out. */
  ghost predicate Open(s: System, size: nat) {
    s.dir.closed.None? && s.dir.expiresAt == 100 && s.now <= UNTIL && Used(s.dir, size)
  }

  // ------------------------------------------- a half-written lower number --

  lemma AwaitingLoads(p: nat, after: nat, e: int, cause: Cause, won: bool)
    ensures Loads(p, e, (load: LoadState) => AwaitTask(after, AwaitLoading(e, load)))
    ensures Loads(p, e, (load: LoadState) => AwaitTask(after, AwaitRechecking(e, cause, won, load)))
  {
    hide LoadStep;
  }

  lemma GoAwait(s: System, p: nat, st: AwaitState, flag: bool, d: Dir, st': AwaitState) returns (s': System)
    requires Reachable(s) && At(s, p, AwaitTask(0, st))
    requires AwaitStep(s.dir, s.now, Writer(p, 0), 0, st, flag) == (d, st')
    ensures Reachable(s') && s' == With(s.(dir := d), p, AwaitTask(0, st'))
  {
    hide Reachable, AwaitStep;
    s' := Go(s, p, flag, d, AwaitTask(0, st), AwaitTask(0, st'));
  }

  lemma StartAwait(s: System, p: nat) returns (s': System)
    requires Reachable(s) && p !in s.procs
    ensures Reachable(s') && s' == With(s, p, AwaitTask(0, AwaitLoading(s.dir.expiresAt, Listing)))
  {
    hide Reachable;
    var s1 := Begin(s, p, AwaitTask(0, AwaitStarting));
    s' := GoAwait(s1, p, AwaitStarting, false, s.dir, AwaitLoading(s.dir.expiresAt, Listing));
    Overridden(s, p, AwaitTask(0, AwaitStarting), AwaitTask(0, AwaitLoading(s.dir.expiresAt, Listing)));
  }

  /** Replier 0 dies inside its write of file 1; replier 1 then has answer 2 accepted. */
  lemma AcceptedBehindHalfWrittenFile() returns (s: System)
    ensures Reachable(s) && Open(s, 2) && s.procs.Keys == {0, 1}
    ensures At(s, 1, ReplyTask(REPLY, PostDone(Posted(2, 1)), CloseTrying)) && !s.procs[0].alive
    ensures Readable(s.dir, 0)
  {
    hide Reachable, Posts, ValidArgs;
    NewIsReachable(100);
    PostingsAreValid();
    PostingsPost(0, ReadTo(EMPTY, 0, 100));
    PostingsPost(1, ReadTo(EMPTY, 0, 100));
    var s1 := Begin(New(100), 0, Replying(REPLY)(PostStarting));
    var s2 := HalfPost(s1, 0, Writer(0, 0), REPLY, Replying(REPLY), 0, 0);
    var s3 := Die(s2, 0);
    var s4 := Begin(s3, 1, Replying(REPLY)(PostStarting));
    s := Post(s4, 1, Writer(1, 0), REPLY, Replying(REPLY), 0, 1);
  }

  /** The asker's context ends, it closes the thread and looks again, still without reading anything. */
  lemma GiveUp(s: System, p: nat) returns (s': System, t: Thread)
    requires Reachable(s) && At(s, p, AwaitTask(0, AwaitPausing(100))) && s.dir.closed.None? && Readable(s.dir, 0)
    ensures Reachable(s') && s' == With(s.(dir := s'.dir), p, AwaitTask(0, AwaitDone(Failed(GaveUp(ContextDone), t))))
  {
    hide Reachable, Loads;
    var w, mine := Writer(p, 0), GiveUpMarker(ContextDone);
    var d1 := s.dir.(closed := Some(ClosedFile(mine, w, false)));
    var d := s.dir.(closed := Some(ClosedFile(mine, w, true)));
    var closing := (cs: CloseState) => AwaitClosing(100, ContextDone, cs);
    var rechecking := (load: LoadState) => AwaitTask(0, AwaitRechecking(100, ContextDone, true, load));
    AwaitingLoads(p, 0, 100, ContextDone, true);
    var s1 := GoAwait(s, p, AwaitPausing(100), true, s.dir, closing(CloseTrying));
    var s2 := GoAwait(s1, p, closing(CloseTrying), false, d1, closing(CloseWriting));
    var s3 := GoAwait(s2, p, closing(CloseWriting), false, d, closing(CloseDone(true)));
    var s4 := GoAwait(s3, p, closing(CloseDone(true)), false, d, AwaitRechecking(100, ContextDone, true, Listing));
    var s5 := Read(s4, p, 0, 100, rechecking);
    t := ReadTo(d, 0, 100);
    s' := GoAwait(s5, p, AwaitRechecking(100, ContextDone, true, Loaded(t)), false, d,
                  AwaitDone(Failed(GaveUp(ContextDone), t)));
    assert s'.procs == s.procs[p := s'.procs[p]];
  }

  /** An accepted answer can be lost to a timeout when a lower number is half-written for good. */
  lemma HalfWrittenFileLosesAnAnswer() returns (s: System, t: Thread)
    ensures Reachable(s)
    ensures At(s, 1, ReplyTask(REPLY, PostDone(Posted(2, 1)), CloseTrying))
    ensures At(s, 2, AwaitTask(0, AwaitDone(Failed(GaveUp(ContextDone), t))))
  {
    hide Reachable, Loads;
    var s0 := AcceptedBehindHalfWrittenFile();
    var s1 := StartAwait(s0, 2);
    AwaitingLoads(2, 0, 100, ContextDone, true);
    var s2 := Read(s1, 2, 0, 100, (load: LoadState) => AwaitTask(0, AwaitLoading(100, load)));
    var s3 := GoAwait(s2, 2, AwaitLoading(100, Loaded(ReadTo(s0.dir, 0, 100))), false, s0.dir, AwaitPausing(100));
    s, t := GiveUp(s3, 2);
  }

  // ------------------------------------------------- the direct closed exit --

  lemma GoFinalClose(s: System, p: nat, post: PostState, cs: CloseState, d: Dir, cs': CloseState) returns (s': System)
    requires Reachable(s) && At(s, p, ReplyTask(LAST_REPLY, post, cs)) && post.PostDone? && post.result.Posted?
    requires CloseStep(s.dir, Writer(p, 1), FINAL_REPLY, cs) == (d, cs')
    ensures Reachable(s') && s' == With(s.(dir := d), p, ReplyTask(LAST_REPLY, post, cs'))
  {
    s' := Go(s, p, false, d, ReplyTask(LAST_REPLY, post, cs), ReplyTask(LAST_REPLY, post, cs'));
  }

  /** A whole final reply to an empty thread. */
  lemma FinalReply(s: System, p: nat) returns (s': System)
    requires Reachable(s) && p !in s.procs && Open(s, 0)
    ensures Reachable(s') && s'.now == s.now
    ensures s'.procs == s.procs[p := Proc(ReplyTask(LAST_REPLY, PostDone(Posted(1, 0)), CloseDone(true)), true)]
    ensures s'.dir.closed == Some(ClosedFile(FINAL_REPLY, Writer(p, 1), true))
  {
    hide Reachable, Posts, ValidArgs, Stamp;
    PostingsAreValid();
    PostingsPost(p, ReadTo(EMPTY, 0, 100));
    var done := PostDone(Posted(1, 0));
    var s1 := Begin(s, p, Replying(LAST_REPLY)(PostStarting));
    var s2 := Post(s1, p, Writer(p, 0), LAST_REPLY, Replying(LAST_REPLY), 0, 0);
    var d1 := s2.dir.(closed := Some(ClosedFile(FINAL_REPLY, Writer(p, 1), false)));
    var d2 := s2.dir.(closed := Some(ClosedFile(FINAL_REPLY, Writer(p, 1), true)));
    var s3 := GoFinalClose(s2, p, done, CloseTrying, d1, CloseWriting);
    s' := GoFinalClose(s3, p, done, CloseWriting, d2, CloseDone(true));
    assert s'.procs == s.procs[p := s'.procs[p]];
  }

  /**
   A final reply that lands between the asker's directory listing and its look at the
   close marker is missed: the wait ends "closed" although answer 1 was accepted.
   */
  lemma FinalReplyMissedByClosedExit() returns (s: System, t: Thread)
    ensures Reachable(s)
    ensures At(s, 1, ReplyTask(LAST_REPLY, PostDone(Posted(1, 0)), CloseDone(true)))
    ensures At(s, 0, AwaitTask(0, AwaitDone(Failed(ClosedSeen, t))))
  {
    hide Reachable, Loads;
    NewIsReachable(100);
    AwaitingLoads(0, 0, 100, ContextDone, true);
    var at := (load: LoadState) => AwaitTask(0, AwaitLoading(100, load));
    var s1 := StartAwait(New(100), 0);
    var s2 := ReadRecords(s1, 0, 0, 100, at);
    var listed := CheckingClosed({}, [], None);
    assert s1.dir.messages.Keys == {};
    var s3 := FinalReply(s2, 1);
    t := Thread({}, [], None, Some(ClosedBy(FINAL_REPLY)), 100);
    var s4 := GoLoad(s3, 0, 100, at, listed);
    s := GoAwait(s4, 0, AwaitLoading(100, Loaded(t)), false, s3.dir, AwaitDone(Failed(ClosedSeen, t)));
  }

  // ---------------------------------------------- one waiter and its senders --

  /** Waiter 1 has asked question 1, waits until time 10 and has found nothing yet. */
  lemma WaiterWaits() returns (s: System)
    ensures Reachable(s) && Open(s, 1) && s.now == 0 && s.procs.Keys == {1}
    ensures At(s, 1, Listening(1, 0, ListenPausing(100)))
    ensures HasFile(s.dir, 1, Writer(1, 0), QUESTION, true)
    ensures s.dir.waiter == Some(WaiterFile(1, UNTIL, true)) && s.dir.acks == {} && s.dir.dropped == {}
    ensures s.dir.promised == map[]
  {
    hide Reachable;
    NewIsReachable(100);
    var s1 := Ask(New(100), 1, 0, 0);
    var s2 := Register(s1, 1, 1, 0);
    s := LookInVain(s2, 1, 1, 0, 100, 1);
  }

  /** Sender 2 has seen the marker of waiter 1 and written follow-up 2. */
  lemma SenderSends() returns (s: System, first: Thread)
    ensures Reachable(s) && Open(s, 2) && s.now == 0 && s.procs.Keys == {1, 2}
    ensures At(s, 1, Listening(1, 0, ListenPausing(100)))
    ensures At(s, 2, Sending(FollowUpRechecking(first, 2, 0)))
    ensures HasFile(s.dir, 1, Writer(1, 0), QUESTION, true)
    ensures HasFile(s.dir, 2, Writer(2, 0), MailboxArgs(FOLLOW_UP), true)
    ensures s.dir.waiter == Some(WaiterFile(1, UNTIL, true)) && s.dir.acks == {} && s.dir.dropped == {}
    ensures s.dir.believed == map[2 := 1] || (2 in s.dir.believed && s.dir.believed[2] == 1)
    ensures |first.records| == 1 && LastNumber(first.records, Answerer) == 1
  {
    hide Reachable;
    var s1 := WaiterWaits();
    first := ReadTo(s1.dir, 1, 100);
    assert DirInv(s1.dir) by { ReachableIsSound(s1); }
    LastAnswer(s1.dir, 1, 1);
    var s2 := SeeMarker(s1, 2, 1, 1);
    s := Send(s2, 2, first, 1, 1);
  }

  /** After the recheck: the waiter's last look takes message 2, and the sender resends it through the pane. */
  lemma BothDeliver(s: System, first: Thread, recheck: Recheck) returns (s': System, fb: Fallback)
    requires Reachable(s) && Open(s, 2) && s.now == UNTIL
    requires At(s, 1, Listening(1, 0, ListenPausing(100)))
    requires At(s, 2, Sending(FollowUpReloading(first, 2, 0, recheck, false, 100, Listing)))
    requires HasFile(s.dir, 1, Writer(1, 0), QUESTION, true)
    requires HasFile(s.dir, 2, Writer(2, 0), MailboxArgs(FOLLOW_UP), true)
    requires LastNumber(first.records, Answerer) == 1
    ensures Reachable(s') && fb.number == 2 && fb.recheck == recheck && fb.current.stopped.None?
    ensures At(s', 2, Sending(FollowUpRecording(Some(fb), PostStarting))) && Took(s', 1, 2) && 2 in s'.dir.acks
    ensures s'.dir.believed == s.dir.believed && s'.dir.dropped == s.dir.dropped
  {
    hide Reachable, LastNumber;
    var s1 := StopPausing(s, 1, 1, 0, 100);
    var s2 := LookAndTake(s1, 1, 1, 0, 100, Some(AtDeadline), 2, 2);
    assert DirInv(s2.dir) by { ReachableIsSound(s2); }
    LastAnswer(s2.dir, 2, 1);
    s' := ResendByPane(s2, 2, first, 2, 0, recheck, 100, 2);
    fb := Fallback(first, 2, 0, recheck, ReadTo(s2.dir, 2, 100));
  }

  /**
   A stale marker: the waiter takes and acknowledges message 2 in its last look, and the
   sender, whose recheck removed the marker as stale, has the same follow-up dispatched to
   the pane.
   */
  lemma StaleMarkerDeliversTwice() returns (s: System, fb: Fallback)
    ensures Reachable(s) && ChosePane(s, 2, fb) && fb.recheck == MarkerStale
    ensures Took(s, 1, fb.number) && fb.number in s.dir.acks
  {
    hide Reachable, LastNumber;
    var s1, first := SenderSends();
    var s2 := Wait(s1, UNTIL);
    var s3 := MissMarker(s2, 2, first, 2, 0, MarkerStale);
    s, fb := BothDeliver(s3, first, MarkerStale);
  }

  /**
   The same with a marker that is absent at the recheck, because a second sender removed it
   as stale in between.
   */
  lemma SecondSenderMakesMarkerAbsent() returns (s: System, fb: Fallback)
    ensures Reachable(s) && ChosePane(s, 2, fb) && fb.recheck == MarkerMissing && !ReloadBlocked(fb)
    ensures Took(s, 1, fb.number) && fb.number in s.dir.acks && MarkerLost(s.dir, 2, 1)
  {
    hide Reachable, LastNumber;
    var s1, first := SenderSends();
    var s2 := Wait(s1, UNTIL);
    var s3 := DropMarkerOf(s2, 3, 2, 1);
    var s4 := MissMarker(s3, 2, first, 2, 0, MarkerMissing);
    s, fb := BothDeliver(s4, first, MarkerMissing);
  }

  /** Follow-up k is still in the mailbox: unacknowledged, the thread open, and no answer since the first look. */
  ghost predicate Stranded(s: System, f: nat, k: nat) {
    && IsSender(s, f) && s.procs[f].task.followUp.FollowUpDone?
    && var report := s.procs[f].task.followUp.report;
    && report.StayedInMailbox? && report.number == k && report.recheck == MarkerSeen
    && k !in s.dir.acks && s.dir.closed.None?
    && forall j :: !IsCompleteAnswer(s.dir, j, |report.first.records|)
  }

  /** Sender 3 has seen the marker of waiter 1 twice, before and after it wrote follow-up 3. */
  lemma ThirdFollowUp(s: System, n: nat) returns (s': System)
    requires Reachable(s) && Open(s, 2) && s.now == 0 && 3 !in s.procs && At(s, 1, Listening(1, 0, ListenPausing(100)))
    requires Readable(s.dir, n) && 1 <= n <= 2 && s.dir.waiter == Some(WaiterFile(1, UNTIL, true))
    ensures Reachable(s') && s'.now == 0
    ensures forall p | p in s.procs :: p in s'.procs && s'.procs[p] == s.procs[p]
    ensures At(s', 3, Sending(FollowUpDone(
              StayedInMailbox(ReadTo(s.dir, n, 100), 3, 2 - n, MarkerSeen, false, None))))
    ensures s'.dir.messages == s.dir.messages[3 := MessageFile(Stamp(MailboxArgs(FOLLOW_UP), 3), Writer(3, 0), true)]
    ensures s'.dir.closed.None? && s'.dir.acks == s.dir.acks && s'.dir.waiter == s.dir.waiter
    ensures s'.dir.promised == s.dir.promised[3 := 1]
  {
    hide Reachable, Records, Stamp;
    var first := ReadTo(s.dir, n, 100);
    var s1 := SeeMarker(s, 3, n, 1);
    var s2 := Send(s1, 3, first, n, 2);
    s' := SeeMarkerAgain(s2, 3, first, 3, 2 - n, 1);
  }

  /** The waiter's next look finds follow-ups 2 and 3. */
  lemma TakesTheOlder(s: System) returns (s': System)
    requires Reachable(s) && At(s, 1, Listening(1, 0, ListenPausing(100))) && Readable(s.dir, 3)
    requires HasFile(s.dir, 1, Writer(1, 0), QUESTION, true)
    requires HasFile(s.dir, 2, Writer(2, 0), MailboxArgs(FOLLOW_UP), true)
    ensures Reachable(s') && s'.dir == s.dir.(acks := s.dir.acks + {2}, waiter := None)
    ensures Took(s', 1, 2) && s'.procs[1].task.listen.ListenDone?
    ensures forall p | p in s.procs && p != 1 :: p in s'.procs && s'.procs[p] == s.procs[p]
  {
    hide Reachable, Records;
    var s1 := GoListen(s, 1, 1, 0, ListenPausing(100), false, s.dir, ListenLoading(100, None, Listing));
    s' := LookAndTake(s1, 1, 1, 0, 100, None, 3, 2);
  }

  /** Two senders see the same marker; the waiter takes the older follow-up and is gone. */
  lemma OlderFollowUpIsTaken() returns (s: System)
    ensures Reachable(s) && Stranded(s, 3, 3)
    ensures 3 in s.dir.promised && s.dir.promised[3] == 1 && Took(s, 1, 2) && s.procs[1].task.listen.ListenDone?
  {
    hide Reachable, LastNumber, Records, Took, Readable;
    var s1, first := SenderSends();
    var s2 := SeeMarkerAgain(s1, 2, first, 2, 0, 1);
    assert Readable(s2.dir, 2) by { TwoFiles(s2.dir); }
    var s3 := ThirdFollowUp(s2, 2);
    assert Readable(s3.dir, 3) by { ThreeFiles(s2.dir, s3.dir); }
    s := TakesTheOlder(s3);
  }

  lemma TwoFiles(d: Dir)
    requires Used(d, 2) && d.messages[1].complete && d.messages[2].complete
    ensures Readable(d, 2)
  {
  }

  lemma ThreeFiles(d: Dir, d': Dir)
    requires Used(d, 2) && Readable(d, 2) && 3 in d'.messages && d'.messages[3].complete
    requires d'.messages == d.messages[3 := d'.messages[3]]
    ensures Readable(d', 3)
  {
  }

  /** Replier 2 dies inside its write of file 2. */
  lemma HalfWrittenReply() returns (s: System)
    ensures Reachable(s) && Open(s, 2) && s.now == 0 && s.procs.Keys == {1, 2}
    ensures At(s, 1, Listening(1, 0, ListenPausing(100)))
    ensures HasFile(s.dir, 1, Writer(1, 0), QUESTION, true) && HasFile(s.dir, 2, Writer(2, 0), REPLY, false)
    ensures s.dir.waiter == Some(WaiterFile(1, UNTIL, true)) && s.dir.acks == {}
  {
    hide Reachable, Posts, ValidArgs;
    var s1 := WaiterWaits();
    PostingsAreValid();
    PostingsPost(2, ReadTo(s1.dir, 1, 100));
    var s2 := Begin(s1, 2, Replying(REPLY)(PostStarting));
    var s3 := HalfPost(s2, 2, Writer(2, 0), REPLY, Replying(REPLY), 1, 1);
    s := Die(s3, 2);
  }

  /** The waiter never reads follow-up 3 behind the half-written file 2. */
  lemma HalfWrittenFileHidesFollowUp() returns (s: System, t: Thread)
    ensures Reachable(s) && Stranded(s, 3, 3)
    ensures 3 in s.dir.promised && s.dir.promised[3] == 1
    ensures Listened(s, 1, Left(AtDeadline, t)) && PromptBlockedBelow(s.dir, t, 1, 3)
  {
    hide Reachable, Records;
    var s1 := HalfWrittenReply();
    var s2 := ThirdFollowUp(s1, 1);
    s, t := LeavesBehind(s2);
  }

  lemma LeavesBehind(s: System) returns (s': System, t: Thread)
    requires Reachable(s) && At(s, 1, Listening(1, 0, ListenPausing(100))) && Readable(s.dir, 1) && s.now <= UNTIL
    requires HasFile(s.dir, 1, Writer(1, 0), QUESTION, true) && 2 in s.dir.messages
    ensures Reachable(s') && t.stopped == Some(2) && s'.dir == s.dir.(waiter := None)
    ensures s'.procs == s.procs[1 := Proc(Listening(1, 0, ListenDone(Left(AtDeadline, t))), true)]
  {
    hide Reachable;
    var s1 := Wait(s, UNTIL);
    var s2 := StopPausing(s1, 1, 1, 0, 100);
    s' := LookAndLeave(s2, 1, 1, 0, 100, AtDeadline, 1);
    t := ReadTo(s2.dir, 1, 100);
    assert s'.procs == s.procs[1 := s'.procs[1]];
  }

  /** A waiter that was cancelled listed the messages before follow-up 2 was written, and still shows its marker. */
  lemma CancelledWaiterMissesFollowUp() returns (s: System, t: Thread)
    ensures Reachable(s) && Stranded(s, 2, 2)
    ensures 2 in s.dir.promised && s.dir.promised[2] == 1 && Listened(s, 1, Left(ByCancel, t))
  {
    hide Reachable, Loads, Records;
    var s1 := WaiterWaits();
    var s2 := StopPausing(s1, 1, 1, 0, 100);
    var at := (load: LoadState) => Listening(1, 0, ListenLoading(100, Some(ByCancel), load));
    ListeningLoads(1, 1, 0, 100, Some(ByCancel));
    var s3 := ReadRecords(s2, 1, 1, 100, at);
    var records, first := Records(s1.dir, 1), ReadTo(s1.dir, 1, 100);
    NoMatch(s1.dir, 1, Asker, 1, Some(ByMailbox));
    var s4 := FollowsUpOnce(s3, first);
    t := Thread(s1.dir.messages.Keys, records, None, None, EffectiveDeadline(records, 100));
    var s5 := GoLoad(s4, 1, 100, at, CheckingClosed(s1.dir.messages.Keys, records, None));
    s := LeavesWith(s5, t);
    StaysStranded(s4, s, 2, 2);
  }

  lemma StaysStranded(s: System, s': System, f: nat, k: nat)
    requires Stranded(s, f, k) && f in s'.procs && s'.procs[f] == s.procs[f] && s'.dir == s.dir.(waiter := None)
    ensures Stranded(s', f, k)
  {
    var n := |s.procs[f].task.followUp.report.first.records|;
    forall j ensures !IsCompleteAnswer(s'.dir, j, n) {
      assert !IsCompleteAnswer(s.dir, j, n);
    }
  }

  /** Sender 2 sees the marker of waiter 1 before and after it writes follow-up 2. */
  lemma FollowsUpOnce(s: System, first: Thread) returns (s': System)
    requires Reachable(s) && Open(s, 1) && s.now == 0 && s.procs.Keys == {1} && s.procs[1].alive
    requires HasFile(s.dir, 1, Writer(1, 0), QUESTION, true) && s.dir.waiter == Some(WaiterFile(1, UNTIL, true))
    requires Readable(s.dir, 1) && first == ReadTo(s.dir, 1, 100) && s.dir.acks == {}
    ensures Reachable(s') && Stranded(s', 2, 2) && s'.procs.Keys == {1, 2} && s'.procs[1] == s.procs[1]
    ensures 2 in s'.dir.promised && s'.dir.promised[2] == 1
  {
    hide Reachable, Records;
    var s1 := SeeMarker(s, 2, 1, 1);
    var s2 := Send(s1, 2, first, 1, 1);
    s' := SeeMarkerAgain(s2, 2, first, 2, 0, 1);
  }

  lemma LeavesWith(s: System, t: Thread) returns (s': System)
    requires Reachable(s) && At(s, 1, Listening(1, 0, ListenLoading(100, Some(ByCancel), Loaded(t))))
    requires NextFrom(t.records, Asker, 1, Some(ByMailbox)).None?
    ensures Reachable(s') && Listened(s', 1, Left(ByCancel, t)) && s'.dir == s.dir.(waiter := None)
    ensures forall p | p in s.procs && p != 1 :: p in s'.procs && s'.procs[p] == s.procs[p]
  {
    hide Reachable, NextFrom;
    var s1 := GoListen(s, 1, 1, 0, ListenLoading(100, Some(ByCancel), Loaded(t)), false, s.dir,
                       ListenRemoving(Left(ByCancel, t)));
    s' := GoListen(s1, 1, 1, 0, ListenRemoving(Left(ByCancel, t)), false, s.dir.(waiter := None),
                   ListenDone(Left(ByCancel, t)));
  }

  // -------------------------------------------- a reload that reads too little --

  /** Waiter 1 is cancelled and removes its marker. */
  lemma WaiterIsCancelled(s: System) returns (s': System, t: Thread)
    requires Reachable(s) && At(s, 1, Listening(1, 0, ListenPausing(100))) && Readable(s.dir, 1) && s.now < UNTIL
    requires HasFile(s.dir, 1, Writer(1, 0), QUESTION, true)
    ensures Reachable(s')
    ensures s' == With(s.(dir := s.dir.(waiter := None)), 1, Listening(1, 0, ListenDone(Left(ByCancel, t))))
  {
    hide Reachable;
    var s1 := StopPausing(s, 1, 1, 0, 100);
    s' := LookAndLeave(s1, 1, 1, 0, 100, ByCancel, 1);
    t := ReadTo(s1.dir, 1, 100);
    Overridden(s.(dir := s.dir.(waiter := None)), 1, Listening(1, 0, ListenLoading(100, Some(ByCancel), Listing)),
               Listening(1, 0, ListenDone(Left(ByCancel, t))));
  }

  /** Sender 2 has seen the marker of waiter 1, which was then cancelled. */
  lemma WaiterComesAndGoes() returns (s: System, first: Thread)
    ensures Reachable(s) && Open(s, 1) && s.now == 0 && s.procs.Keys == {1, 2}
    ensures IsWaiter(s, 1) && !Waiting(s, 1)
    ensures At(s, 2, Sending(FollowUpPosting(first, PostStarting)))
    ensures HasFile(s.dir, 1, Writer(1, 0), QUESTION, true)
    ensures s.dir.waiter.None? && s.dir.acks == {} && s.dir.dropped == {}
    ensures first.records == Records(s.dir, 1)
  {
    hide Reachable, Records;
    var s1 := WaiterWaits();
    first := ReadTo(s1.dir, 1, 100);
    var s2 := SeeMarker(s1, 2, 1, 1);
    var t;
    s, t := WaiterIsCancelled(s2);
    SameRecords(s1.dir, s.dir, 1);
  }

  /** Replier 3 is inside its write of file 2, and waiter 4 has asked question 3 but not registered yet. */
  lemma NextWaiterAsks() returns (s: System, first: Thread)
    ensures Reachable(s) && Open(s, 3) && s.now == 0
    ensures At(s, 2, Sending(FollowUpPosting(first, PostStarting)))
    ensures At(s, 3, Replying(REPLY)(PostWriting(2, 0))) && At(s, 4, Listening(3, 1, ListenStarting))
    ensures HasFile(s.dir, 1, Writer(1, 0), QUESTION, true) && HasFile(s.dir, 2, Writer(3, 0), REPLY, false)
    ensures HasFile(s.dir, 3, Writer(4, 0), QUESTION, true)
    ensures s.dir.waiter.None? && s.dir.acks == {} && s.dir.dropped == {}
    ensures first.records == Records(s.dir, 1)
  {
    hide Reachable, Posts, ValidArgs, Stamp, Records;
    var s1;
    s1, first := WaiterComesAndGoes();
    PostingsAreValid();
    PostingsPost(3, first);
    var s2 := Begin(s1, 3, Replying(REPLY)(PostStarting));
    var s3 := HalfPost(s2, 3, Writer(3, 0), REPLY, Replying(REPLY), 1, 1);
    s := Ask(s3, 4, 1, 2);
    SameRecords(s1.dir, s.dir, 1);
  }

  /** Sender 2 reads up to the half-written file 2 only, misses question 3 and resends follow-up 4 by pane. */
  lemma ReloadMissesQuestion() returns (s: System, fb: Fallback)
    ensures Reachable(s) && Open(s, 4) && s.now == 0 && s.dir.dropped == {}
    ensures At(s, 2, Sending(FollowUpRecording(Some(fb), PostStarting)))
    ensures fb.number == 4 && fb.recheck == MarkerMissing && fb.current.stopped == Some(2)
    ensures At(s, 3, Replying(REPLY)(PostWriting(2, 0))) && At(s, 4, Listening(3, 1, ListenStarting))
    ensures HasFile(s.dir, 1, Writer(1, 0), QUESTION, true) && HasFile(s.dir, 2, Writer(3, 0), REPLY, false)
    ensures HasFile(s.dir, 3, Writer(4, 0), QUESTION, true)
    ensures HasFile(s.dir, 4, Writer(2, 0), MailboxArgs(FOLLOW_UP), true)
  {
    hide Reachable, LastNumber, Posts, ValidArgs, Records, Stamp;
    var s1, first := NextWaiterAsks();
    var s2 := Send(s1, 2, first, 1, 3);
    var s3 := MissMarker(s2, 2, first, 4, 2, MarkerMissing);
    SameRecords(s1.dir, s3.dir, 1);
    s := ResendByPane(s3, 2, first, 4, 2, MarkerMissing, 100, 1);
    fb := Fallback(first, 4, 2, MarkerMissing, ReadTo(s3.dir, 1, 100));
  }

  /** A later waiter, whose question the sender's reload does not show, takes the follow-up as well. */
  lemma BlockedReloadDeliversTwice() returns (s: System, fb: Fallback)
    ensures Reachable(s) && ChosePane(s, 2, fb) && fb.recheck == MarkerMissing && s.dir.dropped == {}
    ensures Took(s, 4, fb.number) && fb.number in s.dir.acks && ReloadBlocked(fb)
  {
    hide Reachable, LastNumber, Posts, ValidArgs, Records;
    var s1;
    s1, fb := ReloadMissesQuestion();
    PostingsPost(3, fb.first);
    var s2 := FinishPost(s1, 3, Writer(3, 0), REPLY, Replying(REPLY), 2, 0);
    var s3 := Register(s2, 4, 3, 1);
    s := LookAndTake(s3, 4, 3, 1, 100, None, 4, 4);
  }

  // ------------------------------------------------------- exhausted retries --

  /** Sender k has written follow-up k, having read question 1 only, and is about to recheck. */
  ghost predicate Rechecks(s: System, k: nat) {
    && IsSender(s, k) && s.procs[k].alive
    && var st := s.procs[k].task.followUp;
    && s.procs[k].task.fargs == FOLLOW_UP && st.FollowUpRechecking? && st.number == k
    && st.collisions < ATTEMPTS && |st.first.records| == 1
  }

  /**
   Senders 2..m have seen the marker of waiter 1 and written follow-ups 2..m; the first of
   them is still inside its write, so nobody reads past question 1.
   */
  ghost predicate Crowded(s: System, first: Thread, m: nat) {
    && Open(s, m) && s.now == 0
    && At(s, 1, Listening(1, 0, ListenPausing(100)))
    && At(s, 2, Sending(FollowUpPosting(first, PostWriting(2, 0))))
    && (forall p | p in s.procs :: 1 <= p <= m && (p == 1 || IsSender(s, p)))
    && (forall k | 3 <= k <= m :: Rechecks(s, k))
    && HasFile(s.dir, 1, Writer(1, 0), QUESTION, true)
    && HasFile(s.dir, 2, Writer(2, 0), MailboxArgs(FOLLOW_UP), false)
    && (forall k | 3 <= k <= m :: HasFile(s.dir, k, Writer(k, 0), MailboxArgs(FOLLOW_UP), true))
    && s.dir.waiter == Some(WaiterFile(1, UNTIL, true)) && s.dir.acks == {} && s.dir.dropped == {}
  }

  lemma CrowdStarts() returns (s: System, first: Thread)
    ensures Reachable(s) && Crowded(s, first, 2)
  {
    hide Reachable, Posts, ValidArgs;
    var s1 := WaiterWaits();
    first := ReadTo(s1.dir, 1, 100);
    PostingsAreValid();
    PostingsPost(2, first);
    var s2 := SeeMarker(s1, 2, 1, 1);
    s := HalfPost(s2, 2, Writer(2, 0), MailboxArgs(FOLLOW_UP), FollowingUp(first), 1, 1);
  }

  lemma CrowdGrows(s: System, first: Thread, m: nat) returns (s': System)
    requires Reachable(s) && Crowded(s, first, m) && 2 <= m <= ATTEMPTS
    ensures Reachable(s') && Crowded(s', first, m + 1)
  {
    hide Reachable, Stamp, Records;
    var s1 := SeeMarker(s, m + 1, 1, 1);
    s' := Send(s1, m + 1, ReadTo(s.dir, 1, 100), 1, m);
    forall k | 3 <= k <= m + 1 ensures Rechecks(s', k) {
      assert k == m + 1 || Rechecks(s, k);
    }
  }

  lemma {:induction false} Crowd(m: nat) returns (s: System, first: Thread)
    requires 2 <= m <= ATTEMPTS + 1
    ensures Reachable(s) && Crowded(s, first, m)
    decreases m
  {
    hide Reachable, Crowded;
    if m == 2 {
      s, first := CrowdStarts();
    } else {
      var s0;
      s0, first := Crowd(m - 1);
      s := CrowdGrows(s0, first, m - 1);
    }
  }

  /** A reply that finds its next 100 numbers taken reports success for another writer's message. */
  lemma ReplyVanishes() returns (s: System)
    ensures Reachable(s) && s.dir.closed.None?
    ensures At(s, 200, ReplyTask(REPLY, PostDone(Posted(101, ATTEMPTS)), CloseTrying))
    ensures NeverWrote(s.dir, Writer(200, 0)) && HasFile(s.dir, 101, Writer(101, 0), MailboxArgs(FOLLOW_UP), true)
  {
    hide Reachable, Posts, ValidArgs, Stamp;
    var s1, first := Crowd(101);
    PostingsAreValid();
    PostingsPost(200, first);
    var s2 := Begin(s1, 200, Replying(REPLY)(PostStarting));
    s := ExhaustedPost(s2, 200, Writer(200, 0), REPLY, Replying(REPLY), 1);
    forall k | k in s.dir.messages ensures s.dir.messages[k].writer.process <= 101 {
      assert k <= 2 || HasFile(s.dir, k, Writer(k, 0), MailboxArgs(FOLLOW_UP), true);
    }
  }

  /** Of the first n messages only the first is an answer. */
  lemma OneAnswer(s: System, n: nat)
    requires Reachable(s) && 1 <= n && HasFile(s.dir, 1, Writer(1, 0), QUESTION, true)
    requires forall k | 2 <= k <= n :: k in s.dir.messages && s.dir.messages[k].complete
    requires forall k | 2 <= k <= n :: s.dir.messages[k].message == Stamp(MailboxArgs(FOLLOW_UP), k)
    ensures LastNumber(Records(s.dir, n), Answerer) == 1
  {
    hide Reachable, LastNumber, Records;
    assert DirInv(s.dir) by { ReachableIsSound(s); }
    LastAnswer(s.dir, n, 1);
  }

  /** Sender 200 has seen the marker of waiter 1, which was then cancelled. */
  lemma CrowdedWaiterIsCancelled() returns (s: System, first: Thread, other: Thread)
    ensures Reachable(s) && Open(s, 101) && s.now == 0 && (forall v :: !Waiting(s, v)) && 201 !in s.procs
    ensures At(s, 200, Sending(FollowUpPosting(first, PostStarting)))
    ensures At(s, 2, Sending(FollowUpPosting(other, PostWriting(2, 0)))) && Rechecks(s, 101)
    ensures HasFile(s.dir, 1, Writer(1, 0), QUESTION, true)
    ensures HasFile(s.dir, 2, Writer(2, 0), MailboxArgs(FOLLOW_UP), false)
    ensures forall k | 3 <= k <= 101 :: HasFile(s.dir, k, Writer(k, 0), MailboxArgs(FOLLOW_UP), true)
    ensures s.dir.waiter.None? && s.dir.acks == {} && s.dir.dropped == {}
    ensures LastNumber(first.records, Answerer) == 1
  {
    hide Reachable, Stamp, LastNumber, Records;
    var s1;
    s1, other := Crowd(101);
    first := ReadTo(s1.dir, 1, 100);
    assert LastNumber(first.records, Answerer) == 1 by { OneAnswer(s1, 1); }
    assert Rechecks(s1, 101);
    var s2 := SeeMarker(s1, 200, 1, 1);
    var t;
    s, t := WaiterIsCancelled(s2);
    forall k | 3 <= k <= 101 ensures HasFile(s.dir, k, Writer(k, 0), MailboxArgs(FOLLOW_UP), true) {
      assert HasFile(s1.dir, k, Writer(k, 0), MailboxArgs(FOLLOW_UP), true);
    }
  }

  /** All of 1..n are complete: a question and follow-ups 2..n. */
  ghost predicate AllFollowUps(d: Dir, n: nat) {
    && Used(d, n) && HasFile(d, 1, Writer(1, 0), QUESTION, true)
    && forall k | 2 <= k <= n :: k in d.messages && d.messages[k].complete
         && d.messages[k].message == Stamp(MailboxArgs(FOLLOW_UP), k)
  }

  lemma AllReadable(d: Dir, n: nat)
    requires AllFollowUps(d, n) && n >= 1
    ensures Readable(d, n)
  {
    hide Stamp;
    forall k | 1 <= k <= n ensures k in d.messages && d.messages[k].complete {
    }
    assert n + 1 !in d.messages;
  }

  /** Waiter 201 asked, but its question was never written, and it waits for what follows message 101. */
  lemma WaiterWithoutQuestion() returns (s: System, first: Thread)
    ensures Reachable(s) && Open(s, 101) && s.now == 0
    ensures At(s, 200, Sending(FollowUpPosting(first, PostStarting))) && Rechecks(s, 101)
    ensures At(s, 201, Listening(101, ATTEMPTS, ListenStarting)) && AllFollowUps(s.dir, 101)
    ensures s.dir.waiter.None? && s.dir.acks == {} && s.dir.dropped == {}
    ensures LastNumber(first.records, Answerer) == 1
  {
    hide Reachable, Posts, ValidArgs, Stamp, LastNumber, Waiting;
    var s1, other;
    s1, first, other := CrowdedWaiterIsCancelled();
    PostingsAreValid();
    PostingsPost(201, first);
    PostingsPost(2, other);
    var s2 := Begin(s1, 201, Asking()(PostStarting));
    var s3 := ExhaustedPost(s2, 201, Writer(201, 0), QUESTION, Asking(), 1);
    s := FinishPost(s3, 2, Writer(2, 0), MailboxArgs(FOLLOW_UP), FollowingUp(other), 2, 0);
    forall k | 2 <= k <= 101
      ensures k in s.dir.messages && s.dir.messages[k].complete
      ensures s.dir.messages[k].message == Stamp(MailboxArgs(FOLLOW_UP), k)
    {
      assert k == 2 || HasFile(s1.dir, k, Writer(k, 0), MailboxArgs(FOLLOW_UP), true);
    }
  }

  /** Sender 200 reads everything, finds no answer and no marker, and resends follow-up 102 by pane. */
  lemma NothingShowsTheWaiter() returns (s: System, fb: Fallback)
    ensures Reachable(s) && Open(s, 102) && s.now == 0 && AllFollowUps(s.dir, 102) && s.dir.dropped == {}
    ensures At(s, 200, Sending(FollowUpRecording(Some(fb), PostStarting)))
    ensures fb.number == 102 && fb.recheck == MarkerMissing && fb.current.stopped.None?
    ensures At(s, 201, Listening(101, ATTEMPTS, ListenStarting))
  {
    hide Reachable, LastNumber, Records, Readable, Stamp;
    var s1, first := WaiterWithoutQuestion();
    AllReadable(s1.dir, 101);
    var s2 := Send(s1, 200, first, 101, 101);
    var s3 := MissMarker(s2, 200, first, 102, 0, MarkerMissing);
    AllReadable(s3.dir, 102);
    OneAnswer(s3, 102);
    s := ResendByPane(s3, 200, first, 102, 0, MarkerMissing, 100, 102);
    fb := Fallback(first, 102, 0, MarkerMissing, ReadTo(s3.dir, 102, 100));
  }

  /** A waiter that has left no question behind takes the follow-up as well. */
  lemma UnwrittenQuestionDeliversTwice() returns (s: System, fb: Fallback)
    ensures Reachable(s) && ChosePane(s, 200, fb) && fb.recheck == MarkerMissing && s.dir.dropped == {}
    ensures Took(s, 201, fb.number) && fb.number in s.dir.acks && !ReloadBlocked(fb)
    ensures QuestionOf(s.procs[201].task.post).None?
  {
    hide Reachable, LastNumber, Records, Readable;
    var s1;
    s1, fb := NothingShowsTheWaiter();
    var s2 := Register(s1, 201, 101, ATTEMPTS);
    AllReadable(s2.dir, 102);
    s := LookAndTake(s2, 201, 101, ATTEMPTS, 100, None, 102, 102);
  }

  /** Sender 101 sees the marker of a waiter that listens only for what follows message 101. */
  lemma PromisedByLaterWaiter() returns (s: System)
    ensures Reachable(s) && s.now == 0 && AllFollowUps(s.dir, 101) && Stranded(s, 101, 101)
    ensures 101 in s.dir.promised && s.dir.promised[101] == 201
    ensures At(s, 201, Listening(101, ATTEMPTS, ListenPausing(100)))
  {
    hide Reachable, LastNumber, Records, Readable, Stamp;
    var s1, other := WaiterWithoutQuestion();
    var st := s1.procs[101].task.followUp;
    var s2 := Register(s1, 201, 101, ATTEMPTS);
    var s3 := SeeMarkerAgain(s2, 101, st.first, 101, st.collisions, 201);
    AllReadable(s3.dir, 101);
    NothingAbove(s3.dir, 101);
    s := LookInVain(s3, 201, 101, ATTEMPTS, 100, 101);
  }

  /** Nothing among them is addressed to a waiter behind them, and only the question is an answerer's. */
  lemma NothingAbove(d: Dir, n: nat)
    requires AllFollowUps(d, n)
    ensures forall j | 1 <= j <= n && j in d.messages :: !Matches(d.messages[j].message, Asker, n, Some(ByMailbox))
    ensures forall j :: !IsCompleteAnswer(d, j, 1)
  {
  }

  /** A waiter whose question was never written is promised follow-up 101, never looks at it and leaves. */
  lemma UnwrittenQuestionStrandsFollowUp() returns (s: System, t: Thread)
    ensures Reachable(s) && Stranded(s, 101, 101)
    ensures 101 in s.dir.promised && s.dir.promised[101] == 201
    ensures Listened(s, 201, Left(AtDeadline, t)) && t.stopped.None? && QuestionOf(s.procs[201].task.post).None?
  {
    hide Reachable, Records, Readable, Stamp;
    var s1 := PromisedByLaterWaiter();
    var s2 := Wait(s1, UNTIL);
    var s3 := StopPausing(s2, 201, 101, ATTEMPTS, 100);
    AllReadable(s3.dir, 101);
    NothingAbove(s3.dir, 101);
    s := LookAndLeave(s3, 201, 101, ATTEMPTS, 100, AtDeadline, 101);
    t := ReadTo(s3.dir, 101, 100);
    StaysStranded(s3, s, 101, 101);
  }
}
