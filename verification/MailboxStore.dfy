/**
 The store's own routines as one process runs them (internal/askreply/store.go), step by
 step on a directory that the other processes may change between any two steps.  What the
 others do is an arbitrary function of the turn and of what they find, bound only by what
 every step of every process respects.
 */
module MailboxStore {
  import opened Common
  import opened MailboxDirectory
  import opened MailboxProcesses
  import opened MailboxAnswers

  /** What other processes may do: grow the directory, and leave alone what process p wrote. */
  ghost predicate Foreign(p: nat, d: Dir, d': Dir) {
    && Grows(d, d')
    && (forall k | k in d'.messages && d'.messages[k].writer.process == p ::
          k in d.messages && d'.messages[k] == d.messages[k])
    && (d'.closed.Some? && d'.closed.value.writer.process == p ==> d'.closed == d.closed)
  }

  /** Any step of any other process is foreign. */
  lemma OthersAreForeign(p: nat, q: nat, d: Dir, d': Dir)
    requires Guarantee(q, d, d') && p != q
    ensures Foreign(p, d, d')
  {
  }

  lemma GrowsTransitively(a: Dir, b: Dir, c: Dir)
    requires Grows(a, b) && Grows(b, c)
    ensures Grows(a, c)
  {
  }

  method MaxOf(records: seq<Message>) returns (last: nat)
    ensures last == MaxNumber(records)
  {
    last := 0;
    for i := 0 to |records|
      invariant last == MaxNumber(records[..i])
    {
      assert records[..i + 1][..i] == records[..i];
      if records[i].number > last { last := records[i].number; }
    }
    assert records[..|records|] == records;
  }

  method Smallest(s: set<nat>) returns (k: nat)
    requires s != {}
    ensures k in s && forall j | j in s :: k <= j
  {
    k :| k in s;
    var rest := s - {k};
    while rest != {}
      invariant k in s && rest <= s && forall j | j in s :: j in rest || k <= j
      decreases |rest|
    {
      var j :| j in rest;
      if j < k { k := j; }
      rest := rest - {j};
    }
  }

  lemma ForeignNeverWrote(d: Dir, d': Dir, w: Writer)
    requires Foreign(w.process, d, d')
    ensures Grows(d, d') && (NeverWrote(d, w) ==> NeverWrote(d', w))
  {
  }

  lemma WrittenStays(d: Dir, d': Dir, w: Writer, a: PostArgs, number: nat, collisions: nat)
    requires Written(d, w, a, number, collisions) && Foreign(w.process, d, d')
    ensures Written(d', w, a, number, collisions) && Grows(d, d')
  {
  }

  lemma LastIsUsed(d: Dir, t: Thread)
    requires DirInv(d) && ThreadInv(d, t)
    ensures UsedUpTo(d.messages.Keys, MaxNumber(t.records))
  {
    MaxNumberOfPrefix(d, t.records);
  }

  lemma NothingRead(d: Dir)
    requires DirInv(d)
    ensures ListedRead(d, d.messages.Keys, []) && 0 !in d.messages
  {
  }

  lemma ForeignTwice(p: nat, a: Dir, b: Dir, c: Dir)
    ensures Foreign(p, a, a)
    ensures Foreign(p, a, b) && Foreign(p, b, c) ==> Foreign(p, a, c)
  {
  }

  lemma ReadStaysRead(p: nat, d: Dir, d': Dir, snapshot: set<nat>, records: seq<Message>)
    requires ListedRead(d, snapshot, records) && Foreign(p, d, d')
    ensures ListedRead(d', snapshot, records)
  {
  }

  /** The next listed number is the next number, it still exists, and it was as incomplete when listed as it is now. */
  lemma NextIsNext(first: Dir, d: Dir, p: nat, snapshot: set<nat>, records: seq<Message>, k: nat)
    requires snapshot == first.messages.Keys && Foreign(p, first, d) && ListedRead(d, snapshot, records)
    requires k in snapshot && k > |records| && forall j | j in snapshot && j > |records| :: k <= j
    ensures k == |records| + 1 && k in d.messages && k in first.messages
    ensures !d.messages[k].complete ==> !first.messages[k].complete
    ensures d.messages[k].complete ==> ListedRead(d, snapshot, records + [d.messages[k].message])
  {
    assert |records| + 1 in snapshot;
  }

  class Store {
    const me: Writer
    const others: (nat, Dir) -> Dir
    const clock: nat -> int
    var turn: nat
    var dir: Dir

    ghost predicate Valid()
      reads this
    {
      && DirInv(dir)
      && forall n: nat, d | DirInv(d) :: DirInv(others(n, d)) && Foreign(me.process, d, others(n, d))
    }

    constructor (me: Writer, others: (nat, Dir) -> Dir, clock: nat -> int, dir: Dir)
      requires DirInv(dir)
      requires forall n: nat, d | DirInv(d) :: DirInv(others(n, d)) && Foreign(me.process, d, others(n, d))
      ensures Valid() && this.me == me && this.others == others && this.clock == clock && this.dir == dir
    {
      this.me, this.others, this.clock, this.dir, turn := me, others, clock, dir, 0;
    }

    /** The others take their turn. */
    method Yield()
      requires Valid()
      modifies this
      ensures Valid() && Foreign(me.process, old(dir), dir)
    {
      dir := others(turn, dir);
      turn := turn + 1;
    }

    /** readMessages: one listing, then file after file in order, up to the first half-written one. */
    method ReadMessages() returns (snapshot: set<nat>, records: seq<Message>, stopped: Option<nat>)
      requires Valid()
      modifies this
      ensures Valid() && Foreign(me.process, old(dir), dir)
      ensures snapshot == old(dir.messages.Keys)
      ensures ListedRead(dir, snapshot, records) && ReadEnded(snapshot, records, stopped)
      ensures stopped.Some? ==> stopped.value in old(dir.messages) && !old(dir.messages)[stopped.value].complete
    {
      hide DirInv, ListedRead, Foreign, Grows;
      ghost var first := dir;
      snapshot, records := dir.messages.Keys, [];
      NothingRead(dir);
      ForeignTwice(me.process, dir, dir, dir);
      Yield();
      ReadStaysRead(me.process, first, dir, snapshot, records);
      var rest := snapshot;
      while rest != {}
        invariant Valid() && Foreign(me.process, first, dir)
        invariant ListedRead(dir, snapshot, records)
        invariant rest <= snapshot && forall k | k in snapshot :: k in rest <==> k > |records|
        decreases |rest|
      {
        var k := Smallest(rest);
        NextIsNext(first, dir, me.process, snapshot, records, k);
        if !dir.messages[k].complete {
          return snapshot, records, Some(k);
        }
        records := records + [dir.messages[k].message];
        rest := rest - {k};
        ghost var before := dir;
        Yield();
        ForeignTwice(me.process, first, before, dir);
        ReadStaysRead(me.process, before, dir, snapshot, records);
      }
      stopped := None;
    }

    /** loadThread: the messages first, the close marker second. */
    method LoadThread(expiry: int) returns (t: Thread)
      requires Valid()
      modifies this
      ensures Valid() && Foreign(me.process, old(dir), dir)
      ensures ThreadInv(dir, t) && t.snapshot == old(dir.messages.Keys)
      ensures t.expiresAt == EffectiveDeadline(t.records, expiry)
      ensures old(dir.closed).Some? ==> t.closed.Some?
      ensures t.stopped.Some? ==> t.stopped.value in old(dir.messages) && !old(dir.messages)[t.stopped.value].complete
    {
      var snapshot, records, stopped := ReadMessages();
      t := Thread(snapshot, records, stopped, ReadClosed(dir), EffectiveDeadline(records, expiry));
    }

    /** Close: an exclusive create; whoever comes second loses. */
    method Close(closed: Closed) returns (won: bool)
      requires Valid()
      modifies this
      ensures Valid() && Grows(old(dir), dir) && dir.closed.Some?
      ensures won ==> dir.closed == Some(ClosedFile(closed, me, true)) && old(dir).closed.None?
      ensures !won ==> old(dir).closed.Some?
      ensures forall k | k in dir.messages && dir.messages[k].writer == me ::
        k in old(dir).messages && dir.messages[k] == old(dir).messages[k]
    {
      if dir.closed.Some? { return false; }
      dir := dir.(closed := Some(ClosedFile(closed, me, false)));
      Yield();
      assert dir.closed == Some(ClosedFile(closed, me, false));
      dir := dir.(closed := Some(ClosedFile(closed, me, true)));
      won := true;
    }

    /** Post. */
    method Post(args: PostArgs) returns (r: PostResult)
      requires Valid() && NeverWrote(dir, me)
      modifies this
      ensures Valid() && Grows(old(dir), dir)
      ensures PostInv(dir, me, args, PostDone(r))
      ensures r == Refused(Invalid) <==> !ValidArgs(args)
      ensures r == Refused(AlreadyFinalized) || r == Refused(Expired) ==> dir.closed.Some?
      ensures r == Refused(Expired) ==> args.from == Answerer
    {
      if !ValidArgs(args) { return Refused(Invalid); }
      hide DirInv, Grows, LoadInv, ThreadInv, Written;
      ghost var before := dir;
      var expiry := dir.expiresAt;
      var t := LoadThread(expiry);
      ForeignNeverWrote(before, dir, me);
      if t.closed.Some? { return Refused(AlreadyFinalized); }
      if args.from == Answerer && clock(turn) >= t.expiresAt {
        ghost var loaded := dir;
        var won := Close(EXPIRED);
        GrowsTransitively(before, loaded, dir);
        return Refused(Expired);
      }
      var last := MaxOf(t.records);
      LastIsUsed(dir, t);
      ghost var loaded := dir;
      r := Publish(args, last);
      GrowsTransitively(before, loaded, dir);
    }

    /** The second half of Post: take a number, complete the file, look at the close marker again. */
    method Publish(args: PostArgs, last: nat) returns (r: PostResult)
      requires Valid() && NeverWrote(dir, me) && ValidArgs(args) && UsedUpTo(dir.messages.Keys, last)
      modifies this
      ensures Valid() && Grows(old(dir), dir)
      ensures PostInv(dir, me, args, PostDone(r)) && !r.Refused?
    {
      hide Foreign, UsedUpTo;
      var number, collisions, created := Allocate(args, last);
      ghost var taken := dir;
      if created { Complete(args, number); }
      assert Grows(taken, dir);
      assert Written(dir, me, args, number, collisions);
      ghost var before := dir;
      Yield();
      WrittenStays(before, dir, me, args, number, collisions);
      r := Posted(number, collisions);
      if args.from == Answerer {
        if dir.closed.Some? { return ClosedWhileReplying(number, collisions); }
        if collisions < ATTEMPTS { dir := dir.(accepted := dir.accepted + {number}); }
      }
    }

    /** The retry loop: the next free number is taken by an exclusive create, which leaves the file half-written. */
    method Allocate(args: PostArgs, last: nat) returns (number: nat, collisions: nat, created: bool)
      requires Valid() && NeverWrote(dir, me) && ValidArgs(args) && UsedUpTo(dir.messages.Keys, last)
      modifies this
      ensures Valid() && Grows(old(dir), dir)
      ensures number == last + collisions + (if created then 1 else 0) && collisions <= ATTEMPTS
      ensures created <==> collisions < ATTEMPTS
      ensures created ==> number in dir.messages && dir.messages[number] == MessageFile(Stamp(args, number), me, false)
      ensures !created ==> NeverWrote(dir, me) && number in dir.messages
    {
      number, collisions := last, 0;
      while collisions < ATTEMPTS
        invariant Valid() && NeverWrote(dir, me) && Grows(old(dir), dir)
        invariant number == last + collisions && UsedUpTo(dir.messages.Keys, number)
        invariant collisions <= ATTEMPTS
      {
        if number + 1 !in dir.messages {
          number := number + 1;
          CreateKeepsInv(dir, me, args, number);
          dir := dir.(messages := dir.messages[number := MessageFile(Stamp(args, number), me, false)]);
          return number, collisions, true;
        }
        number, collisions := number + 1, collisions + 1;
        Yield();
      }
      created := false;
      assert number in dir.messages.Keys;
    }

    /** The content of the file just created becomes complete. */
    method Complete(args: PostArgs, number: nat)
      requires Valid() && number in dir.messages && dir.messages[number] == MessageFile(Stamp(args, number), me, false)
      modifies this
      ensures Valid() && Grows(old(dir), dir)
      ensures number in dir.messages && dir.messages[number] == MessageFile(Stamp(args, number), me, true)
    {
      Yield();
      assert number in dir.messages && dir.messages[number] == MessageFile(Stamp(args, number), me, false);
      ghost var before := dir;
      dir := dir.(messages := dir.messages[number := MessageFile(Stamp(args, number), me, true)]);
      assert dir.messages.Keys == before.messages.Keys;
    }

    /**
     AwaitAnswer, over at most `patience` polls; `cancelled` tells whether the context has
     ended by a tick.  Whatever answers above `after` were accepted meanwhile, the call
     returns one numbered no higher than any of them, or says closed without having given
     up, or its last read stopped at a half-written file below.
     */
    method AwaitAnswer(after: nat, patience: nat, cancelled: nat -> bool) returns (r: AwaitResult)
      requires Valid()
      modifies this
      ensures Valid() && Grows(old(dir), dir)
      ensures ThreadInv(dir, r.thread)
      ensures r.Answered? ==>
        r.message.from == Answerer && r.message.number > after && r.message.number in dir.messages
        && dir.messages[r.message.number].message == r.message
      ensures r.Failed? && r.error != ClosedSeen ==> dir.closed.Some?
      ensures (r.Answered? && r.afterClose) || (r.Failed? && r.error != ClosedSeen) ==>
        forall k | k in dir.accepted && k > after ::
          && (r.Failed? <==> BlockedBelow(dir, r.thread, after, k))
          && (r.Answered? ==> r.message.number <= k)
      ensures NextFrom(r.thread.records, Answerer, after, None) == if r.Answered? then Some(r.message) else None
      ensures r.Failed? && r.error == ClosedSeen ==> r.thread.closed.Some?
    {
      var expiry := dir.expiresAt;
      for poll := 0 to patience
        invariant Valid() && Grows(old(dir), dir)
      {
        var t := LoadThread(expiry);
        NextFromReadsInOrder(dir, t, Answerer, after, None);
        var found := NextFrom(t.records, Answerer, after, None);
        if found.Some? { return Answered(found.value, t, false); }
        if t.closed.Some? { return Failed(ClosedSeen, t); }
        if clock(turn) >= t.expiresAt {
          r := CloseOrReadAnswer(expiry, after, Lapsed);
          return;
        }
        if cancelled(poll) {
          r := CloseOrReadAnswer(expiry, after, ContextDone);
          return;
        }
        Yield();
      }
      r := CloseOrReadAnswer(expiry, after, ContextDone);
    }

    /** closeOrReadAnswer: close first, read afterwards. */
    method CloseOrReadAnswer(expiry: int, after: nat, cause: Cause) returns (r: AwaitResult)
      requires Valid()
      modifies this
      ensures Valid() && Grows(old(dir), dir)
      ensures ThreadInv(dir, r.thread) && dir.closed.Some?
      ensures r.Answered? ==>
        r.afterClose && r.message.from == Answerer && r.message.number > after && r.message.number in dir.messages
        && dir.messages[r.message.number].message == r.message
      ensures r.Failed? ==> r.error != ClosedSeen
      ensures forall k | k in dir.accepted && k > after ::
          && (r.Failed? <==> BlockedBelow(dir, r.thread, after, k))
          && (r.Answered? ==> r.message.number <= k)
      ensures NextFrom(r.thread.records, Answerer, after, None) == if r.Answered? then Some(r.message) else None
    {
      var won := Close(GiveUpMarker(cause));
      ghost var closedDir := dir;
      Yield();
      ghost var listedDir := dir;
      var t := LoadThread(expiry);
      AcceptedWereListed(closedDir, listedDir, dir, t);
      NextFromReadsInOrder(dir, t, Answerer, after, None);
      forall k | k in dir.accepted && k > after
        ensures NextFrom(t.records, Answerer, after, None).None? <==> BlockedBelow(dir, t, after, k)
        ensures NextFrom(t.records, Answerer, after, None).Some? ==>
          NextFrom(t.records, Answerer, after, None).value.number <= k
      {
        AcceptedIsReadOrBlocked(dir, t, after, k);
      }
      match NextFrom(t.records, Answerer, after, None)
      case Some(m) => r := Answered(m, t, true);
      case None =>
        r := Failed(
          if !won && t.closed.Some? && t.closed.value.ClosedBy? && t.closed.value.closed.author == Answerer
          then ClosedByAnswerer else GaveUp(cause), t);
    }
  }

  lemma CreateKeepsInv(d: Dir, w: Writer, a: PostArgs, number: nat)
    requires DirInv(d) && number > 0 && number !in d.messages && UsedUpTo(d.messages.Keys, number - 1)
    ensures var d' := d.(messages := d.messages[number := MessageFile(Stamp(a, number), w, false)]);
      DirInv(d') && Grows(d, d')
  {
    var d' := d.(messages := d.messages[number := MessageFile(Stamp(a, number), w, false)]);
    assert d'.messages.Keys == d.messages.Keys + {number};
  }

  /** Nothing is accepted after the close, so all that was accepted is in a later listing, and was complete then. */
  lemma AcceptedWereListed(closedDir: Dir, listedDir: Dir, d: Dir, t: Thread)
    requires DirInv(closedDir) && closedDir.closed.Some? && Grows(closedDir, listedDir) && Grows(listedDir, d)
    requires t.snapshot == listedDir.messages.Keys
    requires t.stopped.Some? ==> t.stopped.value in listedDir.messages && !listedDir.messages[t.stopped.value].complete
    ensures d.accepted <= t.snapshot && (t.stopped.Some? ==> t.stopped.value !in d.accepted)
  {
  }

  lemma AcceptedIsReadOrBlocked(d: Dir, t: Thread, after: nat, k: nat)
    requires DirInv(d) && ThreadInv(d, t) && k in d.accepted && k > after && k in t.snapshot
    requires t.stopped.Some? ==> t.stopped.value !in d.accepted
    ensures var r := NextFrom(t.records, Answerer, after, None);
      (r.None? <==> BlockedBelow(d, t, after, k)) && (r.Some? ==> r.value.number <= k)
  {
    NextFromReadsInOrder(d, t, Answerer, after, None);
    forall j: nat | 1 <= j <= |t.records|
      ensures IsAnswer(d, j, after) <==> Matches(d.messages[j].message, Answerer, after, None)
    {
    }
    if k <= |t.records| {
      assert Matches(d.messages[k].message, Answerer, after, None);
    } else {
      assert |t.records| + 1 in t.snapshot;
    }
  }
}
