/**
 The shared state of one question directory and the file-level routines every
 ask/reply process is built from (internal/askreply/store.go).

 Nothing locks the directory.  A file is absent, half-written (its exclusive
 creation is visible, its content is not) or complete.  Every function below is
 one atomic file operation of one process; a routine of several operations keeps
 its place in a small state value, so other processes may run between any two.
 */
module MailboxDirectory {
  import opened Common

  datatype Role = Asker | Answerer
  datatype Kind = Prompt | Answer | Question | Final
  datatype Delivery = ByMailbox | ByPane

  datatype Message = Message(
    number: nat, from: Role, kind: Kind, text: string, delivery: Delivery,
    target: string, waitUntil: Option<int>)

  /** Who creates a file: a process, and which of its posts. */
  datatype Writer = Writer(process: nat, round: nat)

  datatype MessageFile = MessageFile(message: Message, writer: Writer, complete: bool)

  datatype Closed = Closed(author: Role, reason: string)
  datatype ClosedFile = ClosedFile(closed: Closed, writer: Writer, complete: bool)
  datatype WaiterFile = WaiterFile(pid: nat, until: int, complete: bool)

  /**
   One question directory.  The last five fields are history variables, which no process
   reads.  `accepted` collects the numbers of the answers whose Post returned without
   error.  `believed` names the waiter whose marker a sender believed when it first looked,
   `promised` the waiter whose marker it saw again at the recheck of a follow-up, and
   `dropped` the waiters whose marker a sender removed as stale.  `handed` is what polling
   askers have handed over.
   */
  datatype Dir = Dir(
    messages: map<nat, MessageFile>,
    closed: Option<ClosedFile>,
    expiresAt: int,
    waiter: Option<WaiterFile>,
    acks: set<nat>,
    cursor: Option<nat>,
    accepted: set<nat>,
    believed: map<nat, nat>,
    promised: map<nat, nat>,
    dropped: set<nat>,
    handed: seq<Message>)

  const EMPTY := Dir(map[], None, 0, None, {}, None, {}, map[], map[], {}, [])

  /** Message numbers that start at 1 and have no gap. */
  ghost predicate Gapless(numbers: set<nat>) {
    && 0 !in numbers
    && forall j, k | 1 <= j <= k && k in numbers :: j in numbers
  }

  /** All of 1..last are used. */
  ghost predicate UsedUpTo(numbers: set<nat>, last: nat) {
    forall j | 1 <= j <= last :: j in numbers
  }

  ghost predicate DirInv(d: Dir) {
    && Gapless(d.messages.Keys)
    && (forall k | k in d.messages :: d.messages[k].message.number == k)
    && (forall k | k in d.accepted ::
          k in d.messages && d.messages[k].complete && d.messages[k].message.from == Answerer)
  }

  /** What no step of any process ever undoes. */
  ghost predicate Grows(d: Dir, d': Dir) {
    && (forall k | k in d.messages ::
          && k in d'.messages
          && d'.messages[k].message == d.messages[k].message
          && d'.messages[k].writer == d.messages[k].writer
          && (d.messages[k].complete ==> d'.messages[k].complete))
    && (d.closed.Some? ==>
          && d'.closed.Some?
          && d'.closed.value.closed == d.closed.value.closed
          && d'.closed.value.writer == d.closed.value.writer
          && (d.closed.value.complete ==> d'.closed.value.complete))
    && d.acks <= d'.acks
    && d.accepted <= d'.accepted
    && (d.closed.Some? ==> d'.accepted == d.accepted)
  }

  /** A step of process q: it grows the directory and writes only files q itself created. */
  ghost predicate Guarantee(q: nat, d: Dir, d': Dir) {
    && Grows(d, d')
    && (forall k | k in d'.messages ::
          d'.messages[k].writer.process == q || (k in d.messages && d'.messages[k] == d.messages[k]))
    && (d'.closed.Some? ==> d'.closed.value.writer.process == q || d'.closed == d.closed)
  }

  // ------------------------------------------------------------ loadThread --

  /** What a reader learns from the close marker; a half-written one has no author yet. */
  datatype ClosedView = Closing | ClosedBy(closed: Closed)

  function ReadClosed(d: Dir): Option<ClosedView> {
    match d.closed
    case None => None
    case Some(f) => Some(if f.complete then ClosedBy(f.closed) else Closing)
  }

  /** `snapshot` is the directory listing, `stopped` the half-written file that ended the read. */
  datatype Thread = Thread(
    snapshot: set<nat>, records: seq<Message>, stopped: Option<nat>,
    closed: Option<ClosedView>, expiresAt: int)

  datatype LoadState =
    | Listing
    | Reading(snapshot: set<nat>, pos: nat, records: seq<Message>)
    | CheckingClosed(snapshot: set<nat>, records: seq<Message>, stopped: Option<nat>)
    | Loaded(thread: Thread)

  ghost function LeastFrom(s: set<nat>, k: nat, bound: nat): (r: nat)
    requires bound in s && k <= bound
    ensures r in s && k <= r <= bound && forall j | j in s && k <= j :: r <= j
    decreases bound - k
  {
    if k in s then k else LeastFrom(s, k + 1, bound)
  }

  /** The next listed number in ascending order. */
  ghost function NextListed(s: set<nat>, pos: nat): (r: nat)
    requires exists k :: k in s && k > pos
    ensures r in s && r > pos && forall j | j in s && j > pos :: r <= j
  {
    var bound :| bound in s && bound > pos;
    LeastFrom(s, pos + 1, bound)
  }

  function EffectiveDeadline(records: seq<Message>, expiry: int): (r: int)
    ensures expiry <= r
  {
    if records == [] then expiry else
      var rest := EffectiveDeadline(records[..|records| - 1], expiry);
      match records[|records| - 1].waitUntil
      case Some(t) => if t > rest then t else rest
      case None => rest
  }

  ghost function LoadStep(d: Dir, expiry: int, load: LoadState): LoadState {
    match load
    case Listing => Reading(d.messages.Keys, 0, [])
    case Reading(snapshot, pos, records) =>
      if exists k :: k in snapshot && k > pos then
        var k := NextListed(snapshot, pos);
        if k !in d.messages then Reading(snapshot, k, records)
        else if !d.messages[k].complete then CheckingClosed(snapshot, records, Some(k))
        else Reading(snapshot, k, records + [d.messages[k].message])
      else
        CheckingClosed(snapshot, records, None)
    case CheckingClosed(snapshot, records, stopped) =>
      Loaded(Thread(snapshot, records, stopped, ReadClosed(d), EffectiveDeadline(records, expiry)))
    case Loaded(_) => load
  }

  /** The records are the first complete messages, in order and without a gap. */
  ghost predicate PrefixRead(d: Dir, records: seq<Message>) {
    forall k | 1 <= k <= |records| ::
      k in d.messages && d.messages[k].complete && d.messages[k].message == records[k - 1]
  }

  ghost predicate ListedRead(d: Dir, snapshot: set<nat>, records: seq<Message>) {
    && Gapless(snapshot) && snapshot <= d.messages.Keys
    && UsedUpTo(snapshot, |records|)
    && PrefixRead(d, records)
  }

  ghost predicate ReadEnded(snapshot: set<nat>, records: seq<Message>, stopped: Option<nat>) {
    && (stopped.None? <==> |records| + 1 !in snapshot)
    && (stopped.Some? ==> stopped.value == |records| + 1)
  }

  ghost predicate ThreadInv(d: Dir, t: Thread) {
    && ListedRead(d, t.snapshot, t.records)
    && ReadEnded(t.snapshot, t.records, t.stopped)
    && (t.closed.Some? ==> d.closed.Some?)
    && (t.closed.Some? && t.closed.value.ClosedBy? ==> t.closed.value.closed == d.closed.value.closed)
  }

  ghost predicate LoadInv(d: Dir, load: LoadState) {
    match load
    case Listing => true
    case Reading(snapshot, pos, records) => ListedRead(d, snapshot, records) && pos == |records|
    case CheckingClosed(snapshot, records, stopped) =>
      ListedRead(d, snapshot, records) && ReadEnded(snapshot, records, stopped)
    case Loaded(t) => ThreadInv(d, t)
  }

  /** The listing a load has taken, once it has taken one. */
  ghost function ListedBy(load: LoadState): Option<set<nat>> {
    match load
    case Listing => None
    case Reading(snapshot, _, _) => Some(snapshot)
    case CheckingClosed(snapshot, _, _) => Some(snapshot)
    case Loaded(t) => Some(t.snapshot)
  }

  lemma LoadStepKeepsInv(d: Dir, expiry: int, load: LoadState)
    requires DirInv(d) && LoadInv(d, load)
    ensures LoadInv(d, LoadStep(d, expiry, load))
    ensures load.Listing? ==> ListedBy(LoadStep(d, expiry, load)) == Some(d.messages.Keys)
    ensures !load.Listing? ==> ListedBy(LoadStep(d, expiry, load)) == ListedBy(load)
  {
    if load.Reading? {
      var snapshot, pos := load.snapshot, load.pos;
      if exists k :: k in snapshot && k > pos {
        var k := NextListed(snapshot, pos);
        assert pos + 1 in snapshot;
        assert k == pos + 1;
      }
    }
  }

  lemma LoadInvStable(d: Dir, d': Dir, load: LoadState)
    requires LoadInv(d, load) && Grows(d, d')
    ensures LoadInv(d', load)
  {
  }

  // ----------------------------------------------------------------- Close --

  datatype CloseState = CloseTrying | CloseWriting | CloseDone(won: bool)

  ghost function CloseStep(d: Dir, w: Writer, closed: Closed, cs: CloseState): (Dir, CloseState) {
    match cs
    case CloseTrying =>
      if d.closed.Some? then (d, CloseDone(false))
      else (d.(closed := Some(ClosedFile(closed, w, false))), CloseWriting)
    case CloseWriting =>
      (d.(closed := Some(ClosedFile(closed, w, true))), CloseDone(true))
    case CloseDone(_) => (d, cs)
  }

  ghost predicate CloseInv(d: Dir, w: Writer, closed: Closed, cs: CloseState) {
    match cs
    case CloseTrying => true
    case CloseWriting => d.closed == Some(ClosedFile(closed, w, false))
    case CloseDone(_) => d.closed.Some?
  }

  lemma CloseStepKeepsInv(d: Dir, w: Writer, closed: Closed, cs: CloseState)
    requires DirInv(d) && CloseInv(d, w, closed, cs)
    ensures var (d', cs') := CloseStep(d, w, closed, cs);
            DirInv(d') && CloseInv(d', w, closed, cs') && Guarantee(w.process, d, d')
  {
  }

  // ------------------------------------------------------------------ Post --

  /** The exclusive create is retried this often before the loop falls through. */
  const ATTEMPTS := 100
  const MAX_REPLY_BYTES := 1024 * 1024

  datatype PostArgs = PostArgs(
    from: Role, kind: Kind, text: string, delivery: Delivery, target: string, waitUntil: Option<int>)

  predicate Blank(text: string) {
    forall c | c in text :: c in " \t\n\r"
  }

  /** The argument checks before the directory is touched. */
  predicate ValidArgs(a: PostArgs) {
    && (a.from == Asker ==> a.kind == Prompt)
    && (a.from == Answerer ==> a.kind != Prompt && a.waitUntil.None? && a.delivery == ByMailbox)
    && (a.delivery == ByMailbox ==> !Blank(a.text) && |a.text| <= MAX_REPLY_BYTES)
  }

  function Stamp(a: PostArgs, number: nat): Message {
    Message(number, a.from, a.kind, if a.delivery == ByPane then "" else a.text,
            a.delivery, a.target, a.waitUntil)
  }

  datatype Refusal = Invalid | AlreadyFinalized | Expired

  datatype PostResult =
    | Posted(number: nat, collisions: nat)
    | ClosedWhileReplying(number: nat, collisions: nat)
    | Refused(why: Refusal)

  datatype PostState =
    | PostStarting
    | PostLoading(expiry: int, load: LoadState)
    | PostExpiring(cs: CloseState)
    | PostAllocating(last: nat, collisions: nat)
    | PostWriting(number: nat, collisions: nat)
    | PostVerifying(number: nat, collisions: nat)
    | PostDone(result: PostResult)

  const EXPIRED := Closed(Asker, "expired")

  function MaxNumber(records: seq<Message>): nat {
    if records == [] then 0 else
      var rest := MaxNumber(records[..|records| - 1]);
      if records[|records| - 1].number > rest then records[|records| - 1].number else rest
  }

  ghost function PostStep(d: Dir, now: int, w: Writer, a: PostArgs, ps: PostState): (Dir, PostState) {
    match ps
    case PostStarting =>
      if !ValidArgs(a) then (d, PostDone(Refused(Invalid)))
      else (d, PostLoading(d.expiresAt, Listing))
    case PostLoading(expiry, load) =>
      if !load.Loaded? then (d, PostLoading(expiry, LoadStep(d, expiry, load)))
      else if load.thread.closed.Some? then (d, PostDone(Refused(AlreadyFinalized)))
      else if a.from == Answerer && now >= load.thread.expiresAt then (d, PostExpiring(CloseTrying))
      else (d, PostAllocating(MaxNumber(load.thread.records), 0))
    case PostExpiring(cs) =>
      if cs.CloseDone? then (d, PostDone(Refused(Expired)))
      else var (d', cs') := CloseStep(d, w, EXPIRED, cs); (d', PostExpiring(cs'))
    case PostAllocating(last, collisions) =>
      // `record.Seq` always equals `seq` here, so the loop's exhaustion is not an error.
      if collisions >= ATTEMPTS then (d, PostVerifying(last, collisions))
      else if last + 1 in d.messages then (d, PostAllocating(last + 1, collisions + 1))
      else
        (d.(messages := d.messages[last + 1 := MessageFile(Stamp(a, last + 1), w, false)]),
         PostWriting(last + 1, collisions))
    case PostWriting(number, collisions) =>
      (d.(messages := d.messages[number := MessageFile(Stamp(a, number), w, true)]),
       PostVerifying(number, collisions))
    case PostVerifying(number, collisions) =>
      if a.from == Asker then (d, PostDone(Posted(number, collisions)))
      else if d.closed.Some? then (d, PostDone(ClosedWhileReplying(number, collisions)))
      else
        (if collisions < ATTEMPTS then d.(accepted := d.accepted + {number}) else d,
         PostDone(Posted(number, collisions)))
    case PostDone(_) => (d, ps)
  }

  ghost predicate NeverWrote(d: Dir, w: Writer) {
    forall k | k in d.messages :: d.messages[k].writer != w
  }

  /** File `number` is complete and holds exactly this post, or the retries ran out and it is not this post's. */
  ghost predicate Written(d: Dir, w: Writer, a: PostArgs, number: nat, collisions: nat) {
    && collisions <= ATTEMPTS
    && number in d.messages
    && (collisions < ATTEMPTS ==> d.messages[number] == MessageFile(Stamp(a, number), w, true))
    && (collisions == ATTEMPTS ==> NeverWrote(d, w))
  }

  ghost predicate PostInv(d: Dir, w: Writer, a: PostArgs, ps: PostState) {
    match ps
    case PostStarting => NeverWrote(d, w)
    case PostLoading(_, load) => NeverWrote(d, w) && LoadInv(d, load) && ValidArgs(a)
    case PostExpiring(cs) => NeverWrote(d, w) && CloseInv(d, w, EXPIRED, cs)
    case PostAllocating(last, collisions) =>
      && NeverWrote(d, w) && ValidArgs(a)
      && collisions <= ATTEMPTS && collisions <= last && UsedUpTo(d.messages.Keys, last)
    case PostWriting(number, collisions) =>
      && collisions < ATTEMPTS && number in d.messages && ValidArgs(a)
      && d.messages[number] == MessageFile(Stamp(a, number), w, false)
    case PostVerifying(number, collisions) => Written(d, w, a, number, collisions) && ValidArgs(a)
    case PostDone(Posted(number, collisions)) =>
      && Written(d, w, a, number, collisions) && ValidArgs(a)
      && (a.from == Answerer && collisions < ATTEMPTS ==> number in d.accepted)
    case PostDone(ClosedWhileReplying(number, collisions)) =>
      Written(d, w, a, number, collisions) && d.closed.Some?
    case PostDone(Refused(_)) => NeverWrote(d, w)
  }

  lemma {:induction false} MaxNumberOfPrefix(d: Dir, records: seq<Message>)
    requires DirInv(d) && PrefixRead(d, records)
    ensures MaxNumber(records) == |records|
  {
    if records != [] {
      var front := records[..|records| - 1];
      assert PrefixRead(d, front);
      MaxNumberOfPrefix(d, front);
      assert records[|records| - 1] == d.messages[|records|].message;
    }
  }

  lemma PostLoadingKeepsInv(d: Dir, now: int, w: Writer, a: PostArgs, expiry: int, load: LoadState)
    requires DirInv(d) && PostInv(d, w, a, PostLoading(expiry, load))
    ensures var (d', ps') := PostStep(d, now, w, a, PostLoading(expiry, load)); d' == d && PostInv(d, w, a, ps')
  {
    if load.Loaded? {
      MaxNumberOfPrefix(d, load.thread.records);
    } else {
      LoadStepKeepsInv(d, expiry, load);
    }
  }

  lemma PostAllocatingKeepsInv(d: Dir, now: int, w: Writer, a: PostArgs, last: nat, collisions: nat)
    requires DirInv(d) && PostInv(d, w, a, PostAllocating(last, collisions))
    ensures var (d', ps') := PostStep(d, now, w, a, PostAllocating(last, collisions));
            DirInv(d') && PostInv(d', w, a, ps') && Guarantee(w.process, d, d')
  {
    var (d', ps') := PostStep(d, now, w, a, PostAllocating(last, collisions));
    if collisions < ATTEMPTS && last + 1 !in d.messages {
      assert d'.messages.Keys == d.messages.Keys + {last + 1};
    }
  }

  lemma PostWritingKeepsInv(d: Dir, now: int, w: Writer, a: PostArgs, number: nat, collisions: nat)
    requires DirInv(d) && PostInv(d, w, a, PostWriting(number, collisions))
    ensures var (d', ps') := PostStep(d, now, w, a, PostWriting(number, collisions));
            DirInv(d') && PostInv(d', w, a, ps') && Guarantee(w.process, d, d')
  {
    var (d', _) := PostStep(d, now, w, a, PostWriting(number, collisions));
    assert d'.messages.Keys == d.messages.Keys;
  }

  lemma PostVerifyingKeepsInv(d: Dir, now: int, w: Writer, a: PostArgs, number: nat, collisions: nat)
    requires DirInv(d) && PostInv(d, w, a, PostVerifying(number, collisions))
    ensures var (d', ps') := PostStep(d, now, w, a, PostVerifying(number, collisions));
            DirInv(d') && PostInv(d', w, a, ps') && Guarantee(w.process, d, d')
  {
  }

  /** One step of Post keeps the directory gapless and write-once and its own claims true. */
  lemma PostStepKeepsInv(d: Dir, now: int, w: Writer, a: PostArgs, ps: PostState)
    requires DirInv(d) && PostInv(d, w, a, ps)
    ensures var (d', ps') := PostStep(d, now, w, a, ps);
            DirInv(d') && PostInv(d', w, a, ps') && Guarantee(w.process, d, d')
  {
    match ps
    case PostStarting =>
    case PostLoading(expiry, load) => PostLoadingKeepsInv(d, now, w, a, expiry, load);
    case PostExpiring(cs) => CloseStepKeepsInv(d, w, EXPIRED, cs);
    case PostAllocating(last, collisions) => PostAllocatingKeepsInv(d, now, w, a, last, collisions);
    case PostWriting(number, collisions) => PostWritingKeepsInv(d, now, w, a, number, collisions);
    case PostVerifying(number, collisions) => PostVerifyingKeepsInv(d, now, w, a, number, collisions);
    case PostDone(_) =>
  }

  lemma PostInvStable(d: Dir, d': Dir, q: nat, w: Writer, a: PostArgs, ps: PostState)
    requires PostInv(d, w, a, ps) && Guarantee(q, d, d') && q != w.process
    ensures PostInv(d', w, a, ps)
  {
    if ps.PostLoading? { LoadInvStable(d, d', ps.load); }
  }
}
