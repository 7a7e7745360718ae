/**
 Building blocks for concrete runs: a load, a post, a wait and a follow-up as stretches of
 one process's steps.  All runs built here have at most one waiter under way at a time.
 */
module MailboxRuns {
  import opened Common
  import opened MailboxDirectory
  import opened MailboxProcesses
  import opened MailboxInvariant
  import opened MailboxAnswers
  import opened MailboxHandoff

  ghost predicate ReachedBy(states: seq<System>, actions: seq<Action>, s: System) {
    IsRun(states, actions) && states[|actions|] == s && OneWaiterAtATime(states, |actions|)
  }

  ghost predicate Reachable(s: System) {
    exists states, actions :: ReachedBy(states, actions, s)
  }

  lemma ReachableIsSound(s: System)
    requires Reachable(s)
    ensures Inv(s) && OneWaiter(s)
  {
    var states, actions :| ReachedBy(states, actions, s);
    RunsKeepInv(states, actions, |actions|);
  }

  lemma Extend(s: System, a: Action)
    requires Reachable(s) && Enabled(s, a) && OneWaiter(Next(s, a))
    ensures Reachable(Next(s, a))
  {
    hide Next;
    var states, actions :| ReachedBy(states, actions, s);
    var states', actions' := states + [Next(s, a)], actions + [a];
    forall i | 0 <= i < |actions'|
      ensures Enabled(states'[i], actions'[i]) && states'[i + 1] == Next(states'[i], actions'[i])
    {
      if i < |actions| {
        assert states'[i] == states[i] && states'[i + 1] == states[i + 1] && actions'[i] == actions[i];
      }
    }
    forall j | 0 <= j <= |actions'| ensures OneWaiter(states'[j]) {
      if j <= |actions| { assert states'[j] == states[j]; }
    }
    assert ReachedBy(states', actions', Next(s, a));
  }

  /** Running, stopping and the clock bring no new waiter. */
  lemma NoNewWaiter(s: System, a: Action)
    requires Inv(s) && Enabled(s, a) && OneWaiter(s) && !a.Start?
    ensures OneWaiter(Next(s, a))
  {
    hide Inv, TaskStep;
    var s' := Next(s, a);
    if a.Run? && IsWaiter(s, a.p) && !Waiting(s, a.p) {
      TaskInvOf(s, a.p);
      RefusedWaiterStops(s.dir, s.now, Live(s), a.p, s.procs[a.p].task, a.flag);
    }
    if a.Run? { StaysWaiter(s.dir, s.now, Live(s), a.p, s.procs[a.p].task, a.flag); }
    forall p | Waiting(s', p) ensures Waiting(s, p) {
    }
  }

  /** A fresh question with the given deadline, at time 0. */
  ghost function New(expiresAt: int): System {
    System(EMPTY.(expiresAt := expiresAt), 0, map[])
  }

  lemma NewIsReachable(expiresAt: int)
    ensures Reachable(New(expiresAt))
  {
    assert ReachedBy([New(expiresAt)], [], New(expiresAt));
  }

  ghost function With(s: System, p: nat, task: Task): System {
    s.(procs := s.procs[p := Proc(task, true)])
  }

  ghost predicate At(s: System, p: nat, task: Task) {
    p in s.procs && s.procs[p] == Proc(task, true)
  }

  lemma Begin(s: System, p: nat, task: Task) returns (s': System)
    requires Reachable(s) && p !in s.procs && Initial(task)
    requires task.ListenTask? ==> forall w :: !Waiting(s, w)
    ensures Reachable(s') && s' == With(s, p, task)
  {
    ReachableIsSound(s);
    s' := Next(s, Start(p, task));
    assert OneWaiter(s') by {
      forall w | w != p && Waiting(s', w) ensures Waiting(s, w) {
      }
    }
    Extend(s, Start(p, task));
  }

  lemma Go(s: System, p: nat, flag: bool, d: Dir, before: Task, task: Task) returns (s': System)
    requires Reachable(s) && At(s, p, before)
    requires TaskStep(s.dir, s.now, Live(s), p, before, flag) == (d, task)
    ensures Reachable(s') && s' == With(s.(dir := d), p, task)
  {
    hide Reachable, TaskStep;
    ReachableIsSound(s);
    NoNewWaiter(s, Run(p, flag));
    Extend(s, Run(p, flag));
    s' := Next(s, Run(p, flag));
  }

  lemma Wait(s: System, time: int) returns (s': System)
    requires Reachable(s) && time >= s.now
    ensures Reachable(s') && s' == s.(now := time)
  {
    ReachableIsSound(s);
    NoNewWaiter(s, Advance(time));
    Extend(s, Advance(time));
    s' := Next(s, Advance(time));
  }

  /** Process p dies. */
  lemma Die(s: System, p: nat) returns (s': System)
    requires Reachable(s) && p in s.procs
    ensures Reachable(s') && s' == s.(procs := s.procs[p := s.procs[p].(alive := false)])
  {
    ReachableIsSound(s);
    NoNewWaiter(s, Crash(p));
    Extend(s, Crash(p));
    s' := Next(s, Crash(p));
  }

  // ------------------------------------------------------------------ loads --

  /** Files 1..n are complete and number n + 1 is half-written or not there. */
  ghost predicate Readable(d: Dir, n: nat) {
    && (forall k | 1 <= k <= n :: k in d.messages && d.messages[k].complete)
    && (n + 1 in d.messages ==> !d.messages[n + 1].complete)
  }

  /** Exactly the numbers 1..size are used. */
  ghost predicate Used(d: Dir, size: nat) {
    forall k :: k in d.messages <==> 1 <= k <= size
  }

  ghost function Records(d: Dir, n: nat): (r: seq<Message>)
    requires Readable(d, n) || forall k | 1 <= k <= n :: k in d.messages
    ensures |r| == n && forall k | 1 <= k <= n :: r[k - 1] == d.messages[k].message
  {
    if n == 0 then [] else Records(d, n - 1) + [d.messages[n].message]
  }

  ghost function StopOf(d: Dir, n: nat): Option<nat> {
    if n + 1 in d.messages then Some(n + 1) else None
  }

  ghost function ReadTo(d: Dir, n: nat, e: int): Thread
    requires Readable(d, n)
  {
    Thread(d.messages.Keys, Records(d, n), StopOf(d, n), ReadClosed(d), EffectiveDeadline(Records(d, n), e))
  }

  /** `at` places a load in a task of p, and that task does nothing but load until it is done. */
  ghost predicate Loads(p: nat, e: int, at: LoadState -> Task) {
    forall d: Dir, now: int, live: set<nat>, load: LoadState | !load.Loaded? ::
      TaskStep(d, now, live, p, at(load), false) == (d, at(LoadStep(d, e, load)))
  }

  lemma ReadsOne(d: Dir, n: nat, e: int, pos: nat)
    requires Readable(d, n) && pos < n && DirInv(d)
    ensures Records(d, pos) + [d.messages[pos + 1].message] == Records(d, pos + 1)
    ensures LoadStep(d, e, Reading(d.messages.Keys, pos, Records(d, pos)))
            == Reading(d.messages.Keys, pos + 1, Records(d, pos + 1))
  {
    assert pos + 1 in d.messages.Keys && NextListed(d.messages.Keys, pos) == pos + 1;
  }

  lemma ReadsToTheEnd(d: Dir, n: nat, e: int)
    requires Readable(d, n) && DirInv(d)
    ensures LoadStep(d, e, Reading(d.messages.Keys, n, Records(d, n)))
            == CheckingClosed(d.messages.Keys, Records(d, n), StopOf(d, n))
  {
    var listed := d.messages.Keys;
    if exists k :: k in listed && k > n {
      assert n + 1 in listed;
      assert NextListed(listed, n) == n + 1;
    }
  }

  lemma GoLoad(s: System, p: nat, e: int, at: LoadState -> Task, load: LoadState) returns (s': System)
    requires Reachable(s) && Loads(p, e, at) && !load.Loaded? && At(s, p, at(load))
    ensures Reachable(s') && s' == With(s, p, at(LoadStep(s.dir, e, load)))
  {
    hide Reachable, LoadStep, TaskStep;
    s' := Go(s, p, false, s.dir, at(load), at(LoadStep(s.dir, e, load)));
  }

  lemma Overridden(s: System, p: nat, first: Task, second: Task)
    ensures With(With(s, p, first), p, second) == With(s, p, second)
  {
  }

  lemma ReadFrom(s: System, p: nat, n: nat, e: int, at: LoadState -> Task, pos: nat) returns (s': System)
    requires Reachable(s) && Readable(s.dir, n) && DirInv(s.dir) && pos <= n && Loads(p, e, at)
    requires At(s, p, at(Reading(s.dir.messages.Keys, pos, Records(s.dir, pos))))
    ensures Reachable(s')
    ensures s' == With(s, p, at(CheckingClosed(s.dir.messages.Keys, Records(s.dir, n), StopOf(s.dir, n))))
    decreases n - pos
  {
    hide Reachable, Records, LoadStep, TaskStep, DirInv, Loads;
    var d, listed := s.dir, s.dir.messages.Keys;
    var here := Reading(listed, pos, Records(d, pos));
    var s1 := GoLoad(s, p, e, at, here);
    if pos < n {
      ReadsOne(d, n, e, pos);
      s' := ReadFrom(s1, p, n, e, at, pos + 1);
      Overridden(s, p, at(LoadStep(d, e, here)), at(CheckingClosed(listed, Records(d, n), StopOf(d, n))));
    } else {
      ReadsToTheEnd(d, n, e);
      s' := s1;
    }
  }

  /** A load up to the point where only the close marker is still to be looked at. */
  lemma ReadRecords(s: System, p: nat, n: nat, e: int, at: LoadState -> Task) returns (s': System)
    requires Reachable(s) && Readable(s.dir, n) && Loads(p, e, at) && At(s, p, at(Listing))
    ensures Reachable(s')
    ensures s' == With(s, p, at(CheckingClosed(s.dir.messages.Keys, Records(s.dir, n), StopOf(s.dir, n))))
  {
    hide Reachable, LoadStep, TaskStep, Loads, Inv;
    ReachableIsSound(s);
    SoundDirectory(s);
    ListsFirst(s.dir, e);
    var s1 := GoLoad(s, p, e, at, Listing);
    s' := ReadFrom(s1, p, n, e, at, 0);
    Overridden(s, p, at(LoadStep(s.dir, e, Listing)),
               at(CheckingClosed(s.dir.messages.Keys, Records(s.dir, n), StopOf(s.dir, n))));
  }

  lemma SoundDirectory(s: System)
    requires Inv(s)
    ensures DirInv(s.dir)
  {
  }

  lemma ListsFirst(d: Dir, e: int)
    ensures LoadStep(d, e, Listing) == Reading(d.messages.Keys, 0, [])
  {
  }

  /** A whole load that nobody disturbs. */
  lemma Read(s: System, p: nat, n: nat, e: int, at: LoadState -> Task) returns (s': System)
    requires Reachable(s) && Readable(s.dir, n) && Loads(p, e, at) && At(s, p, at(Listing))
    ensures Reachable(s') && s' == With(s, p, at(Loaded(ReadTo(s.dir, n, e))))
  {
    hide Reachable, TaskStep, Loads;
    var s1 := ReadRecords(s, p, n, e, at);
    var checking := CheckingClosed(s.dir.messages.Keys, Records(s.dir, n), StopOf(s.dir, n));
    s' := GoLoad(s1, p, e, at, checking);
    Overridden(s, p, at(checking), at(Loaded(ReadTo(s.dir, n, e))));
  }

  // ------------------------------------------------------------------ posts --

  /** `at` places a post in a task of p. */
  ghost predicate Posts(p: nat, w: Writer, a: PostArgs, at: PostState -> Task) {
    forall d: Dir, now: int, live: set<nat>, ps: PostState | !ps.PostDone? ::
      TaskStep(d, now, live, p, at(ps), false) == (PostStep(d, now, w, a, ps).0, at(PostStep(d, now, w, a, ps).1))
  }

  ghost function AddFile(d: Dir, number: nat, w: Writer, a: PostArgs, complete: bool): Dir {
    d.(messages := d.messages[number := MessageFile(Stamp(a, number), w, complete)])
  }

  ghost function Accept(d: Dir, number: nat, a: PostArgs): Dir {
    if a.from == Answerer then d.(accepted := d.accepted + {number}) else d
  }

  lemma GoPost(s: System, p: nat, w: Writer, a: PostArgs, at: PostState -> Task, ps: PostState, d: Dir, ps': PostState)
    returns (s': System)
    requires Reachable(s) && Posts(p, w, a, at) && !ps.PostDone? && At(s, p, at(ps))
    requires PostStep(s.dir, s.now, w, a, ps) == (d, ps')
    ensures Reachable(s') && s' == With(s.(dir := d), p, at(ps'))
  {
    hide Reachable, PostStep, TaskStep;
    s' := Go(s, p, false, d, at(ps), at(ps'));
  }

  lemma PostingLoads(p: nat, w: Writer, a: PostArgs, at: PostState -> Task, e: int)
    requires Posts(p, w, a, at)
    ensures Loads(p, e, (load: LoadState) => at(PostLoading(e, load)))
  {
    hide TaskStep, LoadStep;
  }

  /** From the first step of a post to its search for a number, having read files 1..n. */
  lemma StartPost(s: System, p: nat, w: Writer, a: PostArgs, at: PostState -> Task, n: nat) returns (s': System)
    requires Reachable(s) && Posts(p, w, a, at) && At(s, p, at(PostStarting)) && ValidArgs(a)
    requires Readable(s.dir, n) && s.dir.closed.None? && s.now < s.dir.expiresAt
    ensures Reachable(s') && s' == With(s, p, at(PostAllocating(n, 0)))
  {
    hide Reachable, TaskStep, LoadStep, ValidArgs, Posts, Inv;
    var d, e := s.dir, s.dir.expiresAt;
    var loading := (load: LoadState) => at(PostLoading(e, load));
    var s1 := GoPost(s, p, w, a, at, PostStarting, d, PostLoading(e, Listing));
    PostingLoads(p, w, a, at, e);
    var s2 := Read(s1, p, n, e, loading);
    ReachableIsSound(s);
    SoundDirectory(s);
    MaxNumberOfPrefix(d, Records(d, n));
    s' := GoPost(s2, p, w, a, at, PostLoading(e, Loaded(ReadTo(d, n, e))), d, PostAllocating(n, 0));
  }

  /** `m` exclusive creates find their number taken. */
  lemma Collide(s: System, p: nat, w: Writer, a: PostArgs, at: PostState -> Task, last: nat, c: nat, m: nat)
    returns (s': System)
    requires Reachable(s) && Posts(p, w, a, at) && At(s, p, at(PostAllocating(last, c))) && c + m <= ATTEMPTS
    requires forall k | last < k <= last + m :: k in s.dir.messages
    ensures Reachable(s') && s' == With(s, p, at(PostAllocating(last + m, c + m)))
    decreases m
  {
    hide Reachable, TaskStep, LoadStep, Posts;
    if m == 0 {
      s' := s;
    } else {
      var s1 := GoPost(s, p, w, a, at, PostAllocating(last, c), s.dir, PostAllocating(last + 1, c + 1));
      s' := Collide(s1, p, w, a, at, last + 1, c + 1, m - 1);
      Overridden(s, p, at(PostAllocating(last + 1, c + 1)), at(PostAllocating(last + m, c + m)));
    }
  }

  /** A post up to the exclusive create of number size + 1, which leaves the file half-written. */
  lemma HalfPost(s: System, p: nat, w: Writer, a: PostArgs, at: PostState -> Task, n: nat, size: nat)
    returns (s': System)
    requires Reachable(s) && Posts(p, w, a, at) && At(s, p, at(PostStarting)) && ValidArgs(a)
    requires Readable(s.dir, n) && Used(s.dir, size) && n <= size < n + ATTEMPTS
    requires s.dir.closed.None? && s.now < s.dir.expiresAt
    ensures Reachable(s')
    ensures s' == With(s.(dir := AddFile(s.dir, size + 1, w, a, false)), p, at(PostWriting(size + 1, size - n)))
  {
    hide Reachable, TaskStep, LoadStep, Posts, ValidArgs, Readable, Stamp;
    var s1 := StartPost(s, p, w, a, at, n);
    var s2 := Collide(s1, p, w, a, at, n, 0, size - n);
    s' := GoPost(s2, p, w, a, at, PostAllocating(size, size - n),
                 AddFile(s.dir, size + 1, w, a, false), PostWriting(size + 1, size - n));
  }

  /** The rest of such a post. */
  lemma FinishPost(s: System, p: nat, w: Writer, a: PostArgs, at: PostState -> Task, number: nat, c: nat)
    returns (s': System)
    requires Reachable(s) && Posts(p, w, a, at) && At(s, p, at(PostWriting(number, c))) && c < ATTEMPTS
    requires s.dir.closed.None?
    ensures Reachable(s')
    ensures s' == With(s.(dir := Accept(AddFile(s.dir, number, w, a, true), number, a)), p,
                       at(PostDone(Posted(number, c))))
  {
    hide Reachable, TaskStep, LoadStep, Posts, Stamp;
    var d := AddFile(s.dir, number, w, a, true);
    var s1 := GoPost(s, p, w, a, at, PostWriting(number, c), d, PostVerifying(number, c));
    s' := GoPost(s1, p, w, a, at, PostVerifying(number, c), Accept(d, number, a), PostDone(Posted(number, c)));
  }

  /** A whole post that nobody disturbs. */
  lemma Post(s: System, p: nat, w: Writer, a: PostArgs, at: PostState -> Task, n: nat, size: nat) returns (s': System)
    requires Reachable(s) && Posts(p, w, a, at) && At(s, p, at(PostStarting)) && ValidArgs(a)
    requires Readable(s.dir, n) && Used(s.dir, size) && n <= size < n + ATTEMPTS
    requires s.dir.closed.None? && s.now < s.dir.expiresAt
    ensures Reachable(s') && Used(s'.dir, size + 1)
    ensures s' == With(s.(dir := Accept(AddFile(s.dir, size + 1, w, a, true), size + 1, a)), p,
                       at(PostDone(Posted(size + 1, size - n))))
  {
    hide Reachable, Posts, ValidArgs, Readable, Stamp;
    var s1 := HalfPost(s, p, w, a, at, n, size);
    s' := FinishPost(s1, p, w, a, at, size + 1, size - n);
    WrittenTwice(s.dir, size + 1, w, a);
  }

  lemma WrittenTwice(d: Dir, number: nat, w: Writer, a: PostArgs)
    ensures AddFile(AddFile(d, number, w, a, false), number, w, a, true) == AddFile(d, number, w, a, true)
  {
    var f, g := MessageFile(Stamp(a, number), w, false), MessageFile(Stamp(a, number), w, true);
    assert d.messages[number := f][number := g] == d.messages[number := g];
  }

  /** A post that finds its next 100 numbers taken: it reports success and has written nothing. */
  lemma ExhaustedPost(s: System, p: nat, w: Writer, a: PostArgs, at: PostState -> Task, n: nat) returns (s': System)
    requires Reachable(s) && Posts(p, w, a, at) && At(s, p, at(PostStarting)) && ValidArgs(a)
    requires Readable(s.dir, n) && Used(s.dir, n + ATTEMPTS)
    requires s.dir.closed.None? && s.now < s.dir.expiresAt
    ensures Reachable(s') && s' == With(s, p, at(PostDone(Posted(n + ATTEMPTS, ATTEMPTS))))
  {
    hide Reachable, Posts, ValidArgs, Readable;
    var last := n + ATTEMPTS;
    var s1 := StartPost(s, p, w, a, at, n);
    var s2 := Collide(s1, p, w, a, at, n, 0, ATTEMPTS);
    var s3 := GoPost(s2, p, w, a, at, PostAllocating(last, ATTEMPTS), s.dir, PostVerifying(last, ATTEMPTS));
    s' := GoPost(s3, p, w, a, at, PostVerifying(last, ATTEMPTS), s.dir, PostDone(Posted(last, ATTEMPTS)));
    assert s'.procs == s.procs[p := s'.procs[p]];
  }

  // ------------------------------------------------------------ the postings --

  const REPLY := PostArgs(Answerer, Answer, "done", ByMailbox, "", None)
  const LAST_REPLY := PostArgs(Answerer, Final, "done", ByMailbox, "", None)
  const QUESTION := PostArgs(Answerer, Question, "why", ByMailbox, "", None)
  const FOLLOW_UP := FollowUpArgs("more", "%1", 50)
  const UNTIL := 10

  lemma PostingsAreValid()
    ensures ValidArgs(REPLY) && ValidArgs(LAST_REPLY) && ValidArgs(QUESTION) && ValidArgs(MailboxArgs(FOLLOW_UP))
  {
    assert "done"[0] == 'd' && 'd' !in " \t\n\r";
    assert "why"[0] == 'w' && 'w' !in " \t\n\r";
    assert "more"[0] == 'm' && 'm' !in " \t\n\r";
  }

  ghost function Replying(a: PostArgs): PostState -> Task {
    (ps: PostState) => ReplyTask(a, ps, CloseTrying)
  }

  ghost function Asking(): PostState -> Task {
    (ps: PostState) => ListenTask(QUESTION, UNTIL, ps, ListenStarting)
  }

  ghost function FollowingUp(first: Thread): PostState -> Task {
    (ps: PostState) => FollowUpTask(FOLLOW_UP, FollowUpPosting(first, ps))
  }

  lemma PostingsPost(p: nat, first: Thread)
    ensures Posts(p, Writer(p, 0), REPLY, Replying(REPLY)) && Posts(p, Writer(p, 0), LAST_REPLY, Replying(LAST_REPLY))
    ensures Posts(p, Writer(p, 0), QUESTION, Asking())
    ensures Posts(p, Writer(p, 0), MailboxArgs(FOLLOW_UP), FollowingUp(first))
  {
    hide PostStep;
  }

  // ------------------------------------------------------ what a read yields --

  ghost predicate HasFile(d: Dir, k: nat, w: Writer, a: PostArgs, complete: bool) {
    k in d.messages && d.messages[k] == MessageFile(Stamp(a, k), w, complete)
  }

  lemma FirstMatch(d: Dir, n: nat, from: Role, after: nat, delivery: Option<Delivery>, k: nat)
    requires Readable(d, n) && 1 <= k <= n && Matches(d.messages[k].message, from, after, delivery)
    requires forall j | 1 <= j < k :: !Matches(d.messages[j].message, from, after, delivery)
    ensures NextFrom(Records(d, n), from, after, delivery) == Some(d.messages[k].message)
  {
    hide NextFrom, Matches;
    var r := Records(d, n);
    assert r[k - 1] == d.messages[k].message;
    var i :| 0 <= i < |r| && NextFrom(r, from, after, delivery) == Some(r[i]) && Matches(r[i], from, after, delivery)
             && forall j | 0 <= j < i :: !Matches(r[j], from, after, delivery);
    assert r[i] == d.messages[i + 1].message;
  }

  lemma NoMatch(d: Dir, n: nat, from: Role, after: nat, delivery: Option<Delivery>)
    requires Readable(d, n) && forall j | 1 <= j <= n :: !Matches(d.messages[j].message, from, after, delivery)
    ensures NextFrom(Records(d, n), from, after, delivery) == None
  {
    forall i | 0 <= i < n ensures !Matches(Records(d, n)[i], from, after, delivery) {
      assert Records(d, n)[i] == d.messages[i + 1].message;
    }
  }

  lemma {:induction false} SameRecords(d: Dir, d': Dir, n: nat)
    requires forall k | 1 <= k <= n :: k in d.messages && k in d'.messages && d.messages[k] == d'.messages[k]
    ensures Records(d, n) == Records(d', n)
  {
    if n > 0 { SameRecords(d, d', n - 1); }
  }

  lemma {:induction false} LastAnswer(d: Dir, n: nat, k: nat)
    requires DirInv(d) && 1 <= k <= n && forall j | 1 <= j <= n :: j in d.messages && d.messages[j].complete
    requires d.messages[k].message.from == Answerer
    requires forall j | k < j <= n :: d.messages[j].message.from == Asker
    ensures LastNumber(Records(d, n), Answerer) == k
    decreases n
  {
    assert Records(d, n)[..n - 1] == Records(d, n - 1);
    if k < n {
      LastAnswer(d, n - 1, k);
    } else {
      assert PrefixRead(d, Records(d, n - 1));
      LastNumberBound(d, Records(d, n - 1), Answerer);
    }
  }

  // ---------------------------------------------------------------- a waiter --

  /** A waiter whose question has number q, after c collisions. */
  ghost function Listening(q: nat, c: nat, st: ListenState): Task {
    ListenTask(QUESTION, UNTIL, PostDone(Posted(q, c)), st)
  }

  lemma GoListen(s: System, w: nat, q: nat, c: nat, st: ListenState, flag: bool, d: Dir, st': ListenState)
    returns (s': System)
    requires Reachable(s) && At(s, w, Listening(q, c, st))
    requires ListenStep(s.dir, s.now, w, q, UNTIL, st, flag) == (d, st')
    ensures Reachable(s') && s' == With(s.(dir := d), w, Listening(q, c, st'))
  {
    hide Reachable, ListenStep;
    s' := Go(s, w, flag, d, Listening(q, c, st), Listening(q, c, st'));
  }

  lemma ListeningLoads(w: nat, q: nat, c: nat, e: int, leaving: Option<Leaving>)
    ensures Loads(w, e, (load: LoadState) => Listening(q, c, ListenLoading(e, leaving, load)))
  {
    hide LoadStep;
  }

  /** Waiter w writes its question, having read files 1..n. */
  lemma Ask(s: System, w: nat, n: nat, size: nat) returns (s': System)
    requires Reachable(s) && w !in s.procs && forall v :: !Waiting(s, v)
    requires Readable(s.dir, n) && Used(s.dir, size) && n <= size < n + ATTEMPTS
    requires s.dir.closed.None? && s.now < s.dir.expiresAt
    ensures Reachable(s') && Used(s'.dir, size + 1)
    ensures var d := Accept(AddFile(s.dir, size + 1, Writer(w, 0), QUESTION, true), size + 1, QUESTION);
      s' == With(s.(dir := d), w, Listening(size + 1, size - n, ListenStarting))
  {
    hide Reachable, Posts, ValidArgs, Waiting, AddFile, Accept;
    PostingsAreValid();
    PostingsPost(w, ReadTo(s.dir, n, 0));
    var s1 := Begin(s, w, Asking()(PostStarting));
    s' := Post(s1, w, Writer(w, 0), QUESTION, Asking(), n, size);
    Overridden(s.(dir := s'.dir), w, Asking()(PostStarting), Listening(size + 1, size - n, ListenStarting));
  }

  /** It writes its marker. */
  lemma Register(s: System, w: nat, q: nat, c: nat) returns (s': System)
    requires Reachable(s) && At(s, w, Listening(q, c, ListenStarting))
    ensures Reachable(s')
    ensures s' == With(s.(dir := s.dir.(waiter := Some(WaiterFile(w, UNTIL, true)))), w,
                       Listening(q, c, ListenLoading(s.dir.expiresAt, None, Listing)))
  {
    hide Reachable;
    var d, e := s.dir, s.dir.expiresAt;
    var s1 := GoListen(s, w, q, c, ListenStarting, false, d, ListenRegistering(e));
    var d1 := d.(waiter := Some(WaiterFile(w, UNTIL, false)));
    var s2 := GoListen(s1, w, q, c, ListenRegistering(e), false, d1, ListenMarking(e));
    var d2 := d.(waiter := Some(WaiterFile(w, UNTIL, true)));
    s' := GoListen(s2, w, q, c, ListenMarking(e), false, d2, ListenLoading(e, None, Listing));
    assert s'.procs == s.procs[w := s'.procs[w]];
  }

  /** It looks, finds nothing and pauses. */
  lemma LookInVain(s: System, w: nat, q: nat, c: nat, e: int, n: nat) returns (s': System)
    requires Reachable(s) && At(s, w, Listening(q, c, ListenLoading(e, None, Listing)))
    requires Readable(s.dir, n) && s.dir.closed.None?
    requires forall j | 1 <= j <= n :: !Matches(s.dir.messages[j].message, Asker, q, Some(ByMailbox))
    ensures Reachable(s') && s' == With(s, w, Listening(q, c, ListenPausing(e)))
  {
    hide Reachable, Readable, Records, Loads, NextFrom, Matches;
    var at := (load: LoadState) => Listening(q, c, ListenLoading(e, None, load));
    ListeningLoads(w, q, c, e, None);
    NoMatch(s.dir, n, Asker, q, Some(ByMailbox));
    var s1 := Read(s, w, n, e, at);
    s' := GoListen(s1, w, q, c, ListenLoading(e, None, Loaded(ReadTo(s.dir, n, e))), false, s.dir, ListenPausing(e));
    Overridden(s, w, at(Loaded(ReadTo(s.dir, n, e))), Listening(q, c, ListenPausing(e)));
  }

  /** Its context ends and it looks for the last time. */
  lemma StopPausing(s: System, w: nat, q: nat, c: nat, e: int) returns (s': System)
    requires Reachable(s) && At(s, w, Listening(q, c, ListenPausing(e)))
    ensures Reachable(s')
    ensures var why := if s.now >= UNTIL then AtDeadline else ByCancel;
      s' == With(s, w, Listening(q, c, ListenLoading(e, Some(why), Listing)))
  {
    var why := if s.now >= UNTIL then AtDeadline else ByCancel;
    s' := GoListen(s, w, q, c, ListenPausing(e), true, s.dir, ListenLoading(e, Some(why), Listing));
  }

  /** It looks, takes follow-up k and removes its marker. */
  lemma LookAndTake(s: System, w: nat, q: nat, c: nat, e: int, leaving: Option<Leaving>, n: nat, k: nat)
    returns (s': System)
    requires Reachable(s) && At(s, w, Listening(q, c, ListenLoading(e, leaving, Listing)))
    requires Readable(s.dir, n) && 1 <= k <= n && Matches(s.dir.messages[k].message, Asker, q, Some(ByMailbox))
    requires forall j | 1 <= j < k :: !Matches(s.dir.messages[j].message, Asker, q, Some(ByMailbox))
    requires s.dir.messages[k].message.number == k
    ensures Reachable(s')
    ensures s' == With(s.(dir := s.dir.(acks := s.dir.acks + {k}, waiter := None)), w,
                       Listening(q, c, ListenDone(GotPrompt(s.dir.messages[k].message, ReadTo(s.dir, n, e)))))
  {
    var d, m, t := s.dir, s.dir.messages[k].message, ReadTo(s.dir, n, e);
    hide Reachable, Readable, Records, Loads, NextFrom, Matches, ListenStep;
    var at := (load: LoadState) => Listening(q, c, ListenLoading(e, leaving, load));
    ListeningLoads(w, q, c, e, leaving);
    FirstMatch(d, n, Asker, q, Some(ByMailbox), k);
    var s1 := Read(s, w, n, e, at);
    s' := Take(s1, w, q, c, e, leaving, t, m);
    Overridden(s.(dir := s'.dir), w, at(Loaded(t)), Listening(q, c, ListenDone(GotPrompt(m, t))));
  }

  lemma Take(s: System, w: nat, q: nat, c: nat, e: int, leaving: Option<Leaving>, t: Thread, m: Message)
    returns (s': System)
    requires Reachable(s) && At(s, w, Listening(q, c, ListenLoading(e, leaving, Loaded(t))))
    requires NextFrom(t.records, Asker, q, Some(ByMailbox)) == Some(m)
    ensures Reachable(s')
    ensures s' == With(s.(dir := s.dir.(acks := s.dir.acks + {m.number}, waiter := None)), w,
                       Listening(q, c, ListenDone(GotPrompt(m, t))))
  {
    hide Reachable, NextFrom;
    var d, d1 := s.dir, s.dir.(acks := s.dir.acks + {m.number});
    var s1 := GoListen(s, w, q, c, ListenLoading(e, leaving, Loaded(t)), false, d, ListenAcking(m, t));
    var s2 := GoListen(s1, w, q, c, ListenAcking(m, t), false, d1, ListenRemoving(GotPrompt(m, t)));
    s' := GoListen(s2, w, q, c, ListenRemoving(GotPrompt(m, t)), false, d1.(waiter := None),
                   ListenDone(GotPrompt(m, t)));
    assert s'.procs == s.procs[w := s'.procs[w]];
  }

  /** It looks for the last time, finds nothing and leaves. */
  lemma LookAndLeave(s: System, w: nat, q: nat, c: nat, e: int, why: Leaving, n: nat) returns (s': System)
    requires Reachable(s) && At(s, w, Listening(q, c, ListenLoading(e, Some(why), Listing)))
    requires Readable(s.dir, n)
    requires forall j | 1 <= j <= n :: !Matches(s.dir.messages[j].message, Asker, q, Some(ByMailbox))
    ensures Reachable(s')
    ensures s' == With(s.(dir := s.dir.(waiter := None)), w,
                       Listening(q, c, ListenDone(Left(why, ReadTo(s.dir, n, e)))))
  {
    hide Reachable, Readable, Records, Loads, NextFrom, Matches;
    var d, t := s.dir, ReadTo(s.dir, n, e);
    var at := (load: LoadState) => Listening(q, c, ListenLoading(e, Some(why), load));
    ListeningLoads(w, q, c, e, Some(why));
    NoMatch(d, n, Asker, q, Some(ByMailbox));
    var s1 := Read(s, w, n, e, at);
    var s2 := GoListen(s1, w, q, c, ListenLoading(e, Some(why), Loaded(t)), false, d, ListenRemoving(Left(why, t)));
    s' := GoListen(s2, w, q, c, ListenRemoving(Left(why, t)), false, d.(waiter := None), ListenDone(Left(why, t)));
    assert s'.procs == s.procs[w := s'.procs[w]];
  }

  // ---------------------------------------------------------------- a sender --

  ghost function Sending(st: FollowUpState): Task {
    FollowUpTask(FOLLOW_UP, st)
  }

  lemma GoSend(s: System, f: nat, st: FollowUpState, flag: bool, d: Dir, st': FollowUpState) returns (s': System)
    requires Reachable(s) && At(s, f, Sending(st))
    requires FollowUpStep(s.dir, s.now, Live(s), f, FOLLOW_UP, st, flag) == (d, st')
    ensures Reachable(s') && s' == With(s.(dir := d), f, Sending(st'))
  {
    hide Reachable, FollowUpStep;
    s' := Go(s, f, flag, d, Sending(st), Sending(st'));
  }

  lemma SendingLoads(f: nat, e: int, first: Thread, k: nat, c: nat, recheck: Recheck)
    ensures Loads(f, e, (load: LoadState) => Sending(FollowUpLoading(e, load)))
    ensures Loads(f, e, (load: LoadState) => Sending(FollowUpReloading(first, k, c, recheck, false, e, load)))
  {
    hide LoadStep, LastNumber;
  }

  /** Sender f starts and reads files 1..n. */
  lemma StartSender(s: System, f: nat, n: nat) returns (s': System)
    requires Reachable(s) && f !in s.procs && Readable(s.dir, n) && s.dir.closed.None?
    ensures Reachable(s') && s' == With(s, f, Sending(FollowUpChecking(ReadTo(s.dir, n, s.dir.expiresAt))))
  {
    hide Reachable, Readable, Records, Loads, Waiting;
    var d, e, t := s.dir, s.dir.expiresAt, ReadTo(s.dir, n, s.dir.expiresAt);
    var at := (load: LoadState) => Sending(FollowUpLoading(e, load));
    SendingLoads(f, e, t, 0, 0, MarkerSeen);
    var s1 := Begin(s, f, Sending(FollowUpStarting));
    var s2 := GoSend(s1, f, FollowUpStarting, false, d, FollowUpLoading(e, Listing));
    var s3 := Read(s2, f, n, e, at);
    s' := GoSend(s3, f, FollowUpLoading(e, Loaded(t)), false, d, FollowUpChecking(t));
    assert s'.procs == s.procs[f := s'.procs[f]];
  }

  /** The marker is of a waiter that is alive and has time left. */
  ghost predicate MarkedBy(s: System, w: nat) {
    s.dir.waiter == Some(WaiterFile(w, UNTIL, true)) && w in s.procs && s.procs[w].alive && s.now < UNTIL
  }

  /** Sender f sees the marker of waiter w and decides for the mailbox. */
  lemma SeeMarker(s: System, f: nat, n: nat, w: nat) returns (s': System)
    requires Reachable(s) && f !in s.procs && Readable(s.dir, n) && s.dir.closed.None? && MarkedBy(s, w)
    ensures Reachable(s')
    ensures var first := ReadTo(s.dir, n, s.dir.expiresAt);
      s' == With(s.(dir := s.dir.(believed := s.dir.believed[f := w])), f,
                 Sending(FollowUpPosting(first, PostStarting)))
  {
    hide Reachable, Readable, Records;
    var first := ReadTo(s.dir, n, s.dir.expiresAt);
    var s1 := StartSender(s, f, n);
    assert w in Live(s1);
    s' := GoSend(s1, f, FollowUpChecking(first), false, s.dir.(believed := s.dir.believed[f := w]),
                 FollowUpPosting(first, PostStarting));
    assert s'.procs == s.procs[f := s'.procs[f]];
  }

  /** Sender f finds a marker that has run out, removes it and decides for the pane. */
  lemma DropMarkerOf(s: System, f: nat, n: nat, w: nat) returns (s': System)
    requires Reachable(s) && f !in s.procs && Readable(s.dir, n) && s.dir.closed.None?
    requires s.dir.waiter == Some(WaiterFile(w, UNTIL, true)) && s.now >= UNTIL
    ensures Reachable(s')
    ensures s' == With(s.(dir := DropMarker(s.dir)), f, Sending(FollowUpPane(None)))
  {
    hide Reachable, Readable, Records;
    var first := ReadTo(s.dir, n, s.dir.expiresAt);
    var s1 := StartSender(s, f, n);
    var s2 := GoSend(s1, f, FollowUpChecking(first), false, s.dir, FollowUpDropping(first));
    s' := GoSend(s2, f, FollowUpDropping(first), false, DropMarker(s.dir), FollowUpPane(None));
    assert s'.procs == s.procs[f := s'.procs[f]];
  }

  /** It writes the follow-up as message size + 1, having read files 1..n. */
  lemma Send(s: System, f: nat, first: Thread, n: nat, size: nat) returns (s': System)
    requires Reachable(s) && At(s, f, Sending(FollowUpPosting(first, PostStarting)))
    requires Readable(s.dir, n) && Used(s.dir, size) && n <= size < n + ATTEMPTS
    requires s.dir.closed.None? && s.now < s.dir.expiresAt
    ensures Reachable(s') && Used(s'.dir, size + 1)
    ensures s' == With(s.(dir := AddFile(s.dir, size + 1, Writer(f, 0), MailboxArgs(FOLLOW_UP), true)), f,
                       Sending(FollowUpRechecking(first, size + 1, size - n)))
  {
    hide Reachable, Posts, ValidArgs, AddFile, Readable;
    PostingsAreValid();
    PostingsPost(f, first);
    var posted := PostDone(Posted(size + 1, size - n));
    var s1 := Post(s, f, Writer(f, 0), MailboxArgs(FOLLOW_UP), FollowingUp(first), n, size);
    s' := GoSend(s1, f, FollowUpPosting(first, posted), false, s1.dir, FollowUpRechecking(first, size + 1, size - n));
    Overridden(s.(dir := s1.dir), f, Sending(FollowUpPosting(first, posted)),
               Sending(FollowUpRechecking(first, size + 1, size - n)));
  }

  /** It sees the marker again and leaves the follow-up in the mailbox. */
  lemma SeeMarkerAgain(s: System, f: nat, first: Thread, k: nat, c: nat, w: nat) returns (s': System)
    requires Reachable(s) && At(s, f, Sending(FollowUpRechecking(first, k, c))) && c < ATTEMPTS && MarkedBy(s, w)
    ensures Reachable(s')
    ensures s' == With(s.(dir := s.dir.(promised := s.dir.promised[k := w])), f,
                       Sending(FollowUpDone(StayedInMailbox(first, k, c, MarkerSeen, false, None))))
  {
    hide Reachable;
    assert w in Live(s);
    s' := GoSend(s, f, FollowUpRechecking(first, k, c), false, s.dir.(promised := s.dir.promised[k := w]),
                 FollowUpDone(StayedInMailbox(first, k, c, MarkerSeen, false, None)));
  }

  /** It finds no marker, or one that has run out and that it removes, and no acknowledgement. */
  lemma MissMarker(s: System, f: nat, first: Thread, k: nat, c: nat, recheck: Recheck) returns (s': System)
    requires Reachable(s) && At(s, f, Sending(FollowUpRechecking(first, k, c))) && k !in s.dir.acks
    requires match recheck
             case MarkerSeen => false
             case MarkerMissing => s.dir.waiter.None?
             case MarkerStale => s.dir.waiter.Some? && s.dir.waiter.value.complete && s.now >= s.dir.waiter.value.until
    ensures Reachable(s')
    ensures s' == With(s.(dir := DropMarker(s.dir)), f,
                       Sending(FollowUpReloading(first, k, c, recheck, false, s.dir.expiresAt, Listing)))
  {
    hide Reachable;
    var d := DropMarker(s.dir);
    var s1;
    if recheck == MarkerMissing {
      s1 := GoSend(s, f, FollowUpRechecking(first, k, c), false, d, FollowUpAsking(first, k, c, recheck));
    } else {
      var s0 := GoSend(s, f, FollowUpRechecking(first, k, c), false, s.dir, FollowUpDroppingAgain(first, k, c));
      s1 := GoSend(s0, f, FollowUpDroppingAgain(first, k, c), false, d, FollowUpAsking(first, k, c, recheck));
    }
    var s2 := GoSend(s1, f, FollowUpAsking(first, k, c, recheck), false, d,
                     FollowUpRequest(first, k, c, recheck, false));
    s' := GoSend(s2, f, FollowUpRequest(first, k, c, recheck, false), false, d,
                 FollowUpReloading(first, k, c, recheck, false, s.dir.expiresAt, Listing));
    assert s'.procs == s.procs[f := s'.procs[f]];
  }

  /** Its reload shows no new answer, and it dispatches the follow-up to the pane as well. */
  lemma ResendByPane(s: System, f: nat, first: Thread, k: nat, c: nat, recheck: Recheck, e: int, n: nat)
    returns (s': System)
    requires Reachable(s) && At(s, f, Sending(FollowUpReloading(first, k, c, recheck, false, e, Listing)))
    requires Readable(s.dir, n) && s.dir.closed.None?
    requires LastNumber(Records(s.dir, n), Answerer) == LastNumber(first.records, Answerer)
    ensures Reachable(s')
    ensures var fb := Fallback(first, k, c, recheck, ReadTo(s.dir, n, e));
      s' == With(s, f, Sending(FollowUpRecording(Some(fb), PostStarting)))
  {
    hide Reachable, Readable, Records, Loads, LastNumber;
    var t, d := ReadTo(s.dir, n, e), s.dir;
    var fb := Some(Fallback(first, k, c, recheck, t));
    var at := (load: LoadState) => Sending(FollowUpReloading(first, k, c, recheck, false, e, load));
    SendingLoads(f, e, first, k, c, recheck);
    var s1 := Read(s, f, n, e, at);
    var s2 := GoSend(s1, f, FollowUpReloading(first, k, c, recheck, false, e, Loaded(t)), false, d, FollowUpPane(fb));
    s' := GoSend(s2, f, FollowUpPane(fb), true, d, FollowUpRecording(fb, PostStarting));
    assert s'.procs == s.procs[f := s'.procs[f]];
  }
}
