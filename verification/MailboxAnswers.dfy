/**
 Message numbers, write-once messages, and the central promise of the mailbox: an
 accepted answer is not lost to a timeout.  Every statement is about every state
 of every run, with any number of concurrent processes.
 */
module MailboxAnswers {
  import opened Common
  import opened MailboxDirectory
  import opened MailboxProcesses
  import opened MailboxInvariant

  // -------------------------------------------------------------- numbering --

  ghost function OneTo(n: nat): (r: set<nat>)
    ensures forall k: nat :: k in r <==> 1 <= k <= n
    ensures |r| == n
  {
    if n == 0 then {} else OneTo(n - 1) + {n}
  }

  lemma LastOfGapless(s: set<nat>, n: nat) returns (last: nat)
    requires Gapless(s) && UsedUpTo(s, n) && n <= |s|
    ensures UsedUpTo(s, last) && last + 1 !in s
    decreases |s| - n
  {
    if n + 1 !in s {
      last := n;
    } else {
      SubsetSize(OneTo(n + 1), s);
      last := LastOfGapless(s, n + 1);
    }
  }

  lemma {:induction false} SubsetSize(a: set<nat>, b: set<nat>)
    requires a <= b
    ensures |a| <= |b|
  {
    if a != {} {
      var x :| x in a;
      SubsetSize(a - {x}, b - {x});
    }
  }

  /** The message files of every reachable directory are exactly 1..n. */
  lemma MessagesAreNumberedOneToN(states: seq<System>, actions: seq<Action>, i: nat)
    requires IsRun(states, actions) && i < |states|
    ensures var numbers := states[i].dir.messages.Keys;
            numbers == OneTo(|numbers|)
    ensures forall k | k in states[i].dir.messages :: states[i].dir.messages[k].message.number == k
  {
    RunsKeepInv(states, actions, i);
    var numbers := states[i].dir.messages.Keys;
    var last := LastOfGapless(numbers, 0);
    assert numbers == OneTo(last) by {
      assert forall k | k in numbers :: k <= last;
    }
  }

  lemma NextGrows(s: System, a: Action)
    requires Inv(s) && Enabled(s, a)
    ensures Grows(s.dir, Next(s, a).dir)
  {
    if a.Run? {
      TaskStepKeepsInv(s.dir, s.now, Live(s), a.p, s.procs[a.p].task, a.flag);
    }
  }

  /** A message file is never removed or rewritten, and a complete one stays complete. */
  lemma {:induction false} MessagesAreWriteOnce(states: seq<System>, actions: seq<Action>, i: nat, j: nat, k: nat)
    requires IsRun(states, actions) && i <= j < |states|
    requires k in states[i].dir.messages
    ensures k in states[j].dir.messages
    ensures states[j].dir.messages[k].message == states[i].dir.messages[k].message
    ensures states[j].dir.messages[k].writer == states[i].dir.messages[k].writer
    ensures states[i].dir.messages[k].complete ==> states[j].dir.messages[k].complete
  {
    if i < j {
      MessagesAreWriteOnce(states, actions, i, j - 1, k);
      RunsKeepInv(states, actions, j - 1);
      NextGrows(states[j - 1], actions[j - 1]);
      assert states[j - 1 + 1] == states[j];
    }
  }

  // ------------------------------------------------------- successful posts --

  ghost predicate Replied(s: System, p: nat, number: nat, collisions: nat) {
    && p in s.procs && s.procs[p].task.ReplyTask?
    && s.procs[p].task.post == PostDone(Posted(number, collisions))
  }

  /**
   A Post that reports success holds file `number` with exactly its message if and
   only if fewer than 100 exclusive creates collided.
   */
  lemma PostSucceedsExactlyBelowTheRetryLimit(
    states: seq<System>, actions: seq<Action>, i: nat, p: nat, number: nat, collisions: nat)
    requires IsRun(states, actions) && i < |states|
    requires Replied(states[i], p, number, collisions)
    ensures var args := states[i].procs[p].task.args;
            && number in states[i].dir.messages
            && (states[i].dir.messages[number] == MessageFile(Stamp(args, number), Writer(p, 0), true)
                <==> collisions < ATTEMPTS)
  {
    RunsKeepInv(states, actions, i);
    assert TaskInv(states[i].dir, p, states[i].procs[p].task);
  }

  /** Two successful posts never share a number. */
  lemma SuccessfulPostsHaveDistinctNumbers(
    states: seq<System>, actions: seq<Action>, i: nat, p: nat, q: nat, n: nat, m: nat, c: nat, e: nat)
    requires IsRun(states, actions) && i < |states|
    requires Replied(states[i], p, n, c) && Replied(states[i], q, m, e)
    requires c < ATTEMPTS && e < ATTEMPTS && p != q
    ensures n != m
  {
    RunsKeepInv(states, actions, i);
    assert TaskInv(states[i].dir, p, states[i].procs[p].task);
    assert TaskInv(states[i].dir, q, states[i].procs[q].task);
  }

  ghost function PostSteps(d: Dir, now: int, w: Writer, a: PostArgs, ps: PostState, n: nat): (Dir, PostState)
    decreases n
  {
    if n == 0 then (d, ps)
    else var (d', ps') := PostStep(d, now, w, a, ps); PostSteps(d', now, w, a, ps', n - 1)
  }

  lemma {:induction false} RetriesCollide(d: Dir, now: int, w: Writer, a: PostArgs, last: nat, collisions: nat, n: nat)
    requires UsedUpTo(d.messages.Keys, last + n) && collisions + n <= ATTEMPTS
    ensures PostSteps(d, now, w, a, PostAllocating(last, collisions), n)
            == (d, PostAllocating(last + n, collisions + n))
    decreases n
  {
    if n > 0 {
      RetriesCollide(d, now, w, a, last + 1, collisions + 1, n - 1);
    }
  }

  lemma {:induction false} PostStepsSplit(d: Dir, now: int, w: Writer, a: PostArgs, ps: PostState, n: nat, m: nat)
    ensures var (d', ps') := PostSteps(d, now, w, a, ps, n);
            PostSteps(d, now, w, a, ps, n + m) == PostSteps(d', now, w, a, ps', m)
    decreases n
  {
    if n > 0 {
      var (d', ps') := PostStep(d, now, w, a, ps);
      PostStepsSplit(d', now, w, a, ps', n - 1, m);
    }
  }

  /**
   The failing family: a post that finds its next 100 numbers taken reports
   success on an open thread although the directory is unchanged.
   */
  lemma ExhaustedRetriesReportSuccess(d: Dir, now: int, w: Writer, a: PostArgs, last: nat)
    requires UsedUpTo(d.messages.Keys, last + ATTEMPTS)
    requires a.from == Answerer ==> d.closed.None?
    ensures PostSteps(d, now, w, a, PostAllocating(last, 0), ATTEMPTS + 2)
            == (d, PostDone(Posted(last + ATTEMPTS, ATTEMPTS)))
  {
    RetriesCollide(d, now, w, a, last, 0, ATTEMPTS);
    PostStepsSplit(d, now, w, a, PostAllocating(last, 0), ATTEMPTS, 2);
    assert PostSteps(d, now, w, a, PostAllocating(last + ATTEMPTS, ATTEMPTS), 2)
        == PostSteps(d, now, w, a, PostVerifying(last + ATTEMPTS, ATTEMPTS), 1);
    assert PostSteps(d, now, w, a, PostDone(Posted(last + ATTEMPTS, ATTEMPTS)), 0)
        == (d, PostDone(Posted(last + ATTEMPTS, ATTEMPTS)));
  }

  // ------------------------------------------------- no accepted answer lost --

  ghost predicate IsAnswer(d: Dir, k: nat, after: nat) {
    k in d.messages && d.messages[k].message.from == Answerer && k > after
  }

  /** nextFrom in terms of the files: the lowest-numbered match below the point where the read ended. */
  lemma NextFromReadsInOrder(d: Dir, t: Thread, from: Role, after: nat, delivery: Option<Delivery>)
    requires DirInv(d) && ThreadInv(d, t)
    ensures var r := NextFrom(t.records, from, after, delivery);
      && (r.None? ==> forall k | 1 <= k <= |t.records| :: !Matches(d.messages[k].message, from, after, delivery))
      && (r.Some? ==>
            && var n := r.value.number;
            && 1 <= n <= |t.records| && d.messages[n].complete && d.messages[n].message == r.value
            && Matches(r.value, from, after, delivery)
            && forall k | 1 <= k < n :: !Matches(d.messages[k].message, from, after, delivery))
  {
    var r := NextFrom(t.records, from, after, delivery);
    match r
    case None =>
      forall k | 1 <= k <= |t.records| ensures !Matches(d.messages[k].message, from, after, delivery) {
        assert d.messages[k].message == t.records[k - 1];
      }
    case Some(m) =>
      var i :| 0 <= i < |t.records| && t.records[i] == m && Matches(m, from, after, delivery)
               && forall j | 0 <= j < i :: !Matches(t.records[j], from, after, delivery);
      assert d.messages[i + 1].message == m;
      forall k | 1 <= k < m.number ensures !Matches(d.messages[k].message, from, after, delivery) {
        assert d.messages[k].message == t.records[k - 1];
      }
  }

  ghost predicate Awaited(s: System, a: nat, after: nat, r: AwaitResult) {
    a in s.procs && s.procs[a].task == AwaitTask(after, AwaitDone(r))
  }

  /** The read stopped at a half-written file below k before any answer above `after`. */
  ghost predicate BlockedBelow(d: Dir, t: Thread, after: nat, k: nat) {
    && t.stopped.Some? && t.stopped.value < k
    && forall j | 1 <= j < t.stopped.value :: !IsAnswer(d, j, after)
  }

  /**
   The write-message-then-check-closed and write-closed-then-read-messages protocol.
   Answer k was accepted, and the asker's wait above `after` has ended.  Whatever it
   returned carries a number at most k; and a wait that ended by deadline, cancel or
   expiry failed exactly when its re-read was blocked by a half-written file below k.
   */
  lemma NoAcceptedAnswerIsLost(
    states: seq<System>, actions: seq<Action>, i: nat,
    p: nat, k: nat, collisions: nat, a: nat, after: nat, r: AwaitResult)
    requires IsRun(states, actions) && i < |states|
    requires Replied(states[i], p, k, collisions) && states[i].procs[p].task.args.from == Answerer
    requires collisions < ATTEMPTS && k > after
    requires Awaited(states[i], a, after, r)
    ensures r.Answered? ==>
              && r.message.number <= k && r.message.from == Answerer && r.message.number > after
              && r.message.number in states[i].dir.messages
              && states[i].dir.messages[r.message.number].message == r.message
    ensures (r.Answered? && r.afterClose) || (r.Failed? && r.error != ClosedSeen) ==>
              (r.Failed? <==> BlockedBelow(states[i].dir, r.thread, after, k))
    ensures r == Failed(ClosedSeen, r.thread) ==>
              k !in r.thread.snapshot || BlockedBelow(states[i].dir, r.thread, after, k + 1)
  {
    var s := states[i];
    RunsKeepInv(states, actions, i);
    assert TaskInv(s.dir, p, s.procs[p].task);
    assert k in s.dir.accepted;
    assert TaskInv(s.dir, a, s.procs[a].task);
    var t := r.thread;
    NextFromReadsInOrder(s.dir, t, Answerer, after, None);
    forall j: nat | 1 <= j <= |t.records|
      ensures IsAnswer(s.dir, j, after) <==> Matches(s.dir.messages[j].message, Answerer, after, None) {
    }
    if k <= |t.records| {
      assert Matches(s.dir.messages[k].message, Answerer, after, None);
    } else if k in t.snapshot {
      assert |t.records| + 1 in t.snapshot;
    }
  }
}
