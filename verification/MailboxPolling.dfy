/**
 The polling asker (pollAskAnswer): polls with the stored read cursor, one poller after
 the other, each of which may stop anywhere, while any number of other processes post,
 wait, close and crash.
 */
module MailboxPolling {
  import opened Common
  import opened MailboxDirectory
  import opened MailboxProcesses
  import opened MailboxInvariant
  import opened MailboxAnswers

  ghost predicate CompleteUpTo(d: Dir, n: nat) {
    forall k | 1 <= k <= n :: k in d.messages && d.messages[k].complete
  }

  /** m is the first answer above the cursor, and everything up to it is complete. */
  ghost predicate NextAnswer(d: Dir, cursor: nat, m: Message) {
    && cursor < m.number && CompleteUpTo(d, m.number)
    && d.messages[m.number].message == m && m.from == Answerer
    && forall k | cursor < k < m.number :: d.messages[k].message.from != Answerer
  }

  ghost predicate Polling(s: System, p: nat) {
    p in s.procs && s.procs[p].task.PollTask? && s.procs[p].alive
  }

  /** At most one polling asker is alive; earlier ones have stopped, wherever they were. */
  ghost predicate OnePoller(s: System) {
    forall p, q | Polling(s, p) && Polling(s, q) :: p == q
  }

  ghost predicate OnePollerAtATime(states: seq<System>, i: nat)
    requires i < |states|
  {
    forall j | 0 <= j <= i :: OnePoller(states[j])
  }

  /** p has moved the cursor to k and holds that answer without having returned it. */
  ghost predicate Holds(s: System, p: nat, k: nat) {
    p in s.procs && s.procs[p].task.PollTask? && s.procs[p].task.poll.PollHandingOver?
    && s.procs[p].task.poll.message.number == k
  }

  /** What was handed over: answers, in number order, each once, none above the cursor. */
  ghost predicate HandedInv(d: Dir) {
    && (forall j | 0 <= j < |d.handed| ::
          && d.handed[j].number in d.messages && d.messages[d.handed[j].number].message == d.handed[j]
          && d.handed[j].from == Answerer && 1 <= d.handed[j].number <= CursorOf(d))
    && (forall j, l | 0 <= j < l < |d.handed| :: d.handed[j].number < d.handed[l].number)
  }

  ghost predicate WasHanded(d: Dir, k: nat) {
    exists j | 0 <= j < |d.handed| :: d.handed[j].number == k
  }

  /** Every answer up to the cursor was handed over or is held by the poller that moved the cursor to it. */
  ghost predicate NoneSkipped(s: System) {
    && CompleteUpTo(s.dir, CursorOf(s.dir))
    && forall k | 1 <= k <= CursorOf(s.dir) && s.dir.messages[k].message.from == Answerer ::
         WasHanded(s.dir, k) || exists p :: Holds(s, p, k)
  }

  /** What the poller that is alive knows between its steps. */
  ghost predicate PollerInv(d: Dir, st: PollState) {
    match st
    case PollMarking(m) => NextAnswer(d, CursorOf(d), m)
    case PollWritingCursor(m) => NextAnswer(d, CursorOf(d), m)
    case PollHandingOver(m) =>
      && m.number == CursorOf(d) && m.number in d.messages && d.messages[m.number].message == m && m.from == Answerer
      && forall j | 0 <= j < |d.handed| :: d.handed[j].number < m.number
    case _ => true
  }

  ghost predicate CursorInv(s: System) {
    && HandedInv(s.dir) && NoneSkipped(s)
    && forall p | Polling(s, p) :: PollerInv(s.dir, s.procs[p].task.poll)
  }

  lemma NonPollersKeepCursor(d: Dir, now: int, live: set<nat>, p: nat, task: Task, flag: bool)
    requires !task.PollTask?
    ensures var (d', task') := TaskStep(d, now, live, p, task, flag);
            d'.cursor == d.cursor && d'.handed == d.handed && !task'.PollTask?
  {
    hide PostStep, LoadStep, NextFrom;
    if IsPosting(task) { PostingTouchesOnly(d, now, live, p, task, flag); }
  }

  lemma PollerInvStable(d: Dir, d': Dir, st: PollState)
    requires PollerInv(d, st) && Grows(d, d') && d'.cursor == d.cursor && d'.handed == d.handed
    ensures PollerInv(d', st)
  {
  }

  lemma HandedInvStable(d: Dir, d': Dir)
    requires HandedInv(d) && Grows(d, d') && d'.cursor == d.cursor && d'.handed == d.handed
    ensures HandedInv(d')
  {
  }

  lemma ReadingCursorKeepsInv(d: Dir, now: int, t: Thread, flag: bool)
    requires DirInv(d) && ThreadInv(d, t)
    ensures var (d', st') := PollStep(d, now, PollReadingCursor(t), flag); d' == d && PollerInv(d, st')
  {
    NextFromReadsInOrder(d, t, Answerer, CursorOf(d), None);
    var r := NextFrom(t.records, Answerer, CursorOf(d), None);
    if r.Some? {
      forall k | CursorOf(d) < k < r.value.number ensures d.messages[k].message.from != Answerer {
        assert !Matches(d.messages[k].message, Answerer, CursorOf(d), None);
      }
      assert NextAnswer(d, CursorOf(d), r.value);
    }
  }

  lemma PollStepKeepsHanded(d: Dir, now: int, st: PollState, flag: bool)
    requires DirInv(d) && PollInv(d, st) && HandedInv(d) && PollerInv(d, st)
    ensures var (d', st') := PollStep(d, now, st, flag); HandedInv(d') && PollerInv(d', st')
  {
    if st.PollReadingCursor? { ReadingCursorKeepsInv(d, now, st.thread, flag); }
  }

  /** The poller's step: an answer the cursor passes is held by it, and what it held it has handed over. */
  lemma PollStepSkipsNone(s: System, p: nat, flag: bool)
    requires Inv(s) && Enabled(s, Run(p, flag)) && CursorInv(s) && Polling(s, p)
    ensures NoneSkipped(Next(s, Run(p, flag)))
  {
    hide NextFrom, LoadStep, HandedInv, Inv;
    var s', d, st := Next(s, Run(p, flag)), s.dir, s.procs[p].task.poll;
    assert PollerInv(d, st);
    var d' := s'.dir;
    assert d'.messages == d.messages;
    forall k | 1 <= k <= CursorOf(d') && d'.messages[k].message.from == Answerer
      ensures WasHanded(d', k) || exists q :: Holds(s', q, k)
    {
      if k > CursorOf(d) {
        assert Holds(s', p, k);
      } else if WasHanded(d, k) {
        var j :| 0 <= j < |d.handed| && d.handed[j].number == k;
        assert d'.handed[j].number == k;
      } else {
        var q :| Holds(s, q, k);
        if q != p { assert Holds(s', q, k); } else { assert d'.handed[|d.handed|].number == k; }
      }
    }
  }

  lemma OtherStepSkipsNone(s: System, a: Action)
    requires Inv(s) && Enabled(s, a) && NoneSkipped(s) && (a.Run? ==> !s.procs[a.p].task.PollTask?)
    ensures NoneSkipped(Next(s, a)) && Next(s, a).dir.cursor == s.dir.cursor && Next(s, a).dir.handed == s.dir.handed
  {
    hide Inv;
    var s' := Next(s, a);
    NextGrows(s, a);
    if a.Run? { NonPollersKeepCursor(s.dir, s.now, Live(s), a.p, s.procs[a.p].task, a.flag); }
    forall k | 1 <= k <= CursorOf(s'.dir) && s'.dir.messages[k].message.from == Answerer
      ensures WasHanded(s'.dir, k) || exists q :: Holds(s', q, k)
    {
      if !WasHanded(s.dir, k) {
        var q :| Holds(s, q, k);
        assert Holds(s', q, k);
      }
    }
  }

  lemma NextKeepsCursorInv(s: System, a: Action)
    requires Inv(s) && Enabled(s, a) && OnePoller(s) && CursorInv(s)
    ensures CursorInv(Next(s, a))
  {
    hide NoneSkipped, HandedInv, TaskStep;
    var s' := Next(s, a);
    if a.Run? && s.procs[a.p].task.PollTask? {
      assert Polling(s, a.p) && TaskInv(s.dir, a.p, s.procs[a.p].task);
      PollStepSkipsNone(s, a.p, a.flag);
      PollStepKeeps(s, a.p, a.flag);
    } else {
      OtherStepSkipsNone(s, a);
      NextGrows(s, a);
      HandedInvStable(s.dir, s'.dir);
      forall p | Polling(s', p) ensures PollerInv(s'.dir, s'.procs[p].task.poll) {
        OtherStepKeepsPoller(s, a, p);
      }
    }
  }

  lemma PollStepKeeps(s: System, p: nat, flag: bool)
    requires Inv(s) && Enabled(s, Run(p, flag)) && OnePoller(s) && CursorInv(s) && Polling(s, p)
    ensures var s' := Next(s, Run(p, flag));
      HandedInv(s'.dir) && forall q | Polling(s', q) :: PollerInv(s'.dir, s'.procs[q].task.poll)
  {
    assert TaskInv(s.dir, p, s.procs[p].task);
    PollStepKeepsHanded(s.dir, s.now, s.procs[p].task.poll, flag);
    forall q | Polling(Next(s, Run(p, flag)), q) ensures q == p { assert Polling(s, q); }
  }

  lemma OtherStepKeepsPoller(s: System, a: Action, p: nat)
    requires Inv(s) && Enabled(s, a) && CursorInv(s) && (a.Run? ==> !s.procs[a.p].task.PollTask?)
    requires Polling(Next(s, a), p)
    ensures PollerInv(Next(s, a).dir, Next(s, a).procs[p].task.poll)
  {
    hide NoneSkipped, HandedInv;
    NextGrows(s, a);
    if a.Run? { NonPollersKeepCursor(s.dir, s.now, Live(s), a.p, s.procs[a.p].task, a.flag); }
    if !(a.Start? && a.p == p) {
      assert Polling(s, p);
      PollerInvStable(s.dir, Next(s, a).dir, s.procs[p].task.poll);
    }
  }

  lemma {:induction false} RunsKeepCursorInv(states: seq<System>, actions: seq<Action>, i: nat)
    requires IsRun(states, actions) && i < |states| && OnePollerAtATime(states, i)
    ensures CursorInv(states[i])
  {
    if i > 0 {
      RunsKeepInv(states, actions, i - 1);
      assert states[i - 1 + 1] == states[i] == Next(states[i - 1], actions[i - 1]);
      RunsKeepCursorInv(states, actions, i - 1);
      assert OnePoller(states[i - 1]);
      NextKeepsCursorInv(states[i - 1], actions[i - 1]);
    }
  }

  /**
   Pollers that follow one another hand over the answers in number order, each once and
   none skipped, whatever is posted meanwhile: every answer up to the cursor was handed
   over, or is the one that the poller which moved the cursor to it still holds, so that
   a poller that stops loses at most that one.
   */
  lemma PollingHandsOverEveryAnswerOnce(states: seq<System>, actions: seq<Action>, i: nat)
    requires IsRun(states, actions) && i < |states| && OnePollerAtATime(states, i)
    ensures var d := states[i].dir;
      && (forall k | 1 <= k <= CursorOf(d) :: k in d.messages && d.messages[k].complete)
      && (forall k | 1 <= k <= CursorOf(d) && d.messages[k].message.from == Answerer ::
            WasHanded(d, k) || exists p :: Holds(states[i], p, k))
      && (forall j | 0 <= j < |d.handed| ::
            && d.handed[j].number in d.messages && d.messages[d.handed[j].number].message == d.handed[j]
            && d.handed[j].from == Answerer && d.handed[j].number <= CursorOf(d))
      && (forall j, l | 0 <= j < l < |d.handed| :: d.handed[j].number < d.handed[l].number)
  {
    RunsKeepCursorInv(states, actions, i);
  }
}
