/**
 Which keys a dispatch sends to an agent's pane, and after seeing what
 (internal/dispatch/queue.go, submit.go, ready.go, restart.go).  The pane shows anything
 at all at any look and any key may fail to be sent; every look and every key goes into a
 trace, and the rules below are about all such traces.
 */
module DispatchKeys {
  import opened Common

  const SUBMIT_RETRIES := 5
  const EXIT := "/exit"

  datatype Runtime = Shell | Agent(name: string) | OtherRuntime

  datatype State = WaitingInput | Idle | Working | Blocked | WaitingQuota | DraftInput | OtherState

  /**
   One look at the pane, or a look that failed.  `late`: the deadline of the wait at hand has
   passed; `vouched`: a quota resume is still valid for this screen; `typed`: the prompt is in
   the live input box; `shown`: it is visible outside of it; `exitTyped`: /exit is in the box.
   */
  datatype Look =
    | Failure
    | Look(now: int, late: bool, present: bool, runtime: Runtime, state: State, asking: bool, trustPrompt: bool,
           draft: bool, suggestion: bool, typed: bool, shown: bool, exitTyped: bool, vouched: bool)

  datatype Event = Saw(look: Look) | Paste(text: string, enter: bool) | Enter | Answer

  datatype Key = Enters | Pastes | Answers

  predicate Is(e: Event, key: Key) {
    match key
    case Enters => e.Enter?
    case Pastes => e.Paste?
    case Answers => e.Answer?
  }

  /** How many keys of one kind were sent from event `from` on. */
  function Count(trace: seq<Event>, from: nat, key: Key): nat
    requires from <= |trace|
    decreases |trace|
  {
    if from == |trace| then 0
    else Count(trace[..|trace| - 1], from, key) + if Is(trace[|trace| - 1], key) then 1 else 0
  }

  lemma CountOneMore(trace: seq<Event>, e: Event, from: nat, key: Key)
    requires from <= |trace|
    ensures Count(trace + [e], from, key) == Count(trace, from, key) + if Is(e, key) then 1 else 0
  {
    assert (trace + [e])[..|trace|] == trace;
  }

  // ------------------------------------------------------------------ rules --

  /** What counts as proof that the agent took a pasted prompt. */
  predicate TookIt(l: Look) {
    l.Look? && (l.asking || l.state.Working? || l.state.Blocked? || l.state.WaitingQuota?)
  }

  predicate InBox(l: Look) {
    l.Look? && !l.suggestion && l.typed
  }

  predicate InputReady(l: Look) {
    l.Look? && !l.asking && (l.state.WaitingInput? || l.state.Idle?)
  }

  /** What a look must have shown before a key may be sent. */
  datatype Sight =
    | DraftAndQuiet | EmptyInput | EmptyAndQuiet      // of the input box, and whether the agent asks
    | Swallowed | Nowhere | Taken                     // of a pasted prompt
    | TrustScreen | CleanInput | ExitInBox | AtShell | Running(name: string)

  predicate Shows(l: Look, s: Sight) {
    l.Look? &&
    match s
    case DraftAndQuiet => l.draft && !l.asking
    case EmptyInput => !l.draft
    case EmptyAndQuiet => !l.draft && !l.asking
    case Swallowed => !TookIt(l) && InBox(l)
    case Nowhere => !TookIt(l) && !InBox(l) && !l.shown && !l.state.DraftInput?
    case Taken => TookIt(l) || (!InBox(l) && l.shown && !l.state.DraftInput?)
    case TrustScreen => l.present && l.asking && l.trustPrompt
    case CleanInput => InputReady(l) && !l.draft
    case ExitInBox => !l.asking && l.exitTyped
    case AtShell => l.present && l.runtime.Shell?
    case Running(name) => l.present && l.runtime == Agent(name)
  }

  /** The last thing that happened before event i is a look that shows s. */
  predicate AfterSeeing(trace: seq<Event>, from: nat, i: nat, s: Sight)
    requires i <= |trace|
  {
    from < i && trace[i - 1].Saw? && Shows(trace[i - 1].look, s)
  }

  /** The four conversations with a pane. */
  datatype Protocol = Queuing(prompt: string) | Submitting(prompt: string) | Waiting | Leaving(agent: string)

  /**
   Queuing: Enter only on a visible draft, a paste only into an empty box, nothing but the
   first paste while the agent asks.  Submitting: Enter only while the prompt sits in the
   box, a second paste only when it is nowhere.  Waiting: nothing but the answer to a trust
   screen.  Leaving: /exit only into the clean box of that very agent, Enter only once /exit
   is in the box.
   */
  predicate Rule(p: Protocol, trace: seq<Event>, from: nat, i: nat)
    requires i < |trace|
  {
    match trace[i]
    case Saw(_) => true
    case Enter =>
      && !p.Waiting?
      && AfterSeeing(trace, from, i,
                     if p.Queuing? then DraftAndQuiet else if p.Submitting? then Swallowed else ExitInBox)
    case Paste(text, enter) =>
      (match p
       case Queuing(prompt) =>
         text == prompt && !enter && AfterSeeing(trace, from, i, if i == from + 1 then EmptyInput else EmptyAndQuiet)
       case Submitting(prompt) => text == prompt && enter && (i == from || AfterSeeing(trace, from, i, Nowhere))
       case Waiting => false
       case Leaving(agent) =>
         && text == EXIT && !enter
         && AfterSeeing(trace, from, i, CleanInput) && AfterSeeing(trace, from, i - 1, Running(agent)))
    case Answer => p.Waiting? && AfterSeeing(trace, from, i, TrustScreen)
  }

  ghost predicate Rules(p: Protocol, trace: seq<Event>, from: nat) {
    forall i | from <= i < |trace| :: Rule(p, trace, from, i)
  }

  predicate Ready(l: Look, agent: string) {
    Calm(l, agent) && l.present
  }

  /**
   From event i on every look found the agent ready, for at least `settle`; a trust screen
   that was answered before may still have shown in between.
   */
  ghost predicate SettledSince(trace: seq<Event>, i: nat, agent: string, settle: int, trusted: bool) {
    && i < |trace| && trace[i].Saw? && Ready(trace[i].look, agent)
    && trace[|trace| - 1].Saw? && Ready(trace[|trace| - 1].look, agent)
    && (settle > 0 ==> trace[|trace| - 1].look.now - trace[i].look.now >= settle)
    && forall j | i <= j < |trace| ::
         trace[j].Saw? && (Ready(trace[j].look, agent) || (trusted && Shows(trace[j].look, TrustScreen)))
  }

  /** The agent has been found ready since event i, the look at time `since`. */
  ghost predicate Holding(trace: seq<Event>, from: nat, i: nat, agent: string, since: int, trusted: bool) {
    && from <= i < |trace| && trace[i].Saw? && Ready(trace[i].look, agent) && since == trace[i].look.now
    && forall j | i <= j < |trace| ::
         trace[j].Saw? && (Ready(trace[j].look, agent) || (trusted && Shows(trace[j].look, TrustScreen)))
  }

  lemma HoldsOn(trace: seq<Event>, from: nat, i: nat, agent: string, since: int, trusted: bool, l: Look)
    requires Holding(trace, from, i, agent, since, trusted)
    requires Ready(l, agent) || (trusted && Shows(l, TrustScreen))
    ensures Holding(trace + [Saw(l)], from, i, agent, since, trusted)
  {
  }

  lemma HoldsAtFirst(trace: seq<Event>, from: nat, agent: string, trusted: bool, l: Look)
    requires Ready(l, agent) && from <= |trace|
    ensures Holding(trace + [Saw(l)], from, |trace|, agent, l.now, trusted)
  {
  }

  lemma HoldsLongEnough(
    trace: seq<Event>, from: nat, i: nat, agent: string, since: int, trusted: bool, l: Look, settle: int)
    requires Holding(trace + [Saw(l)], from, i, agent, since, trusted) && Ready(l, agent)
    requires settle <= 0 || l.now - since >= settle
    ensures SettledSince(trace + [Saw(l)], i, agent, settle, trusted) && from <= i
  {
  }

  lemma SettledByAnyTrust(trace: seq<Event>, i: nat, agent: string, settle: int, trusted: bool, trust: bool)
    requires SettledSince(trace, i, agent, settle, trusted) && (trusted ==> trust)
    ensures SettledSince(trace, i, agent, settle, trust)
  {
  }

  predicate Calm(l: Look, agent: string) {
    l.Look? && !l.asking && l.runtime == Agent(agent)
    && (l.state.WaitingInput? || l.state.Idle? || (l.state.WaitingQuota? && l.vouched))
  }

  /** What one look does to a wait; `since` is when the agent was first found ready, if it still is. */
  datatype Turn = Ends(r: Result<(), Refusal>) | Goes(trusted: bool, since: Option<int>)

  /** `answers` says whether the answer to a trust screen can be sent. */
  function TurnOf(
    l: Look, answers: bool, agent: string, settle: int, trust: bool, trusted: bool, since: Option<int>): Turn
  {
    if l.Failure? then Ends(Err(LookFailed))
    else if !l.present then Ends(Err(PaneGone))
    else if l.asking then
      if !trust || !l.trustPrompt then Ends(Err(Asked))
      else if !trusted then if answers then Goes(true, None) else Ends(Err(SendFailed))
      else if l.late then Ends(Err(TrustStuck))
      else Goes(true, since)
    else
      var since' := if !Ready(l, agent) then None else if since.Some? then since else Some(l.now);
      if since'.Some? && (settle <= 0 || l.now - since'.value >= settle) then Ends(Ok(()))
      else if l.late then Ends(Err(NotReady))
      else Goes(trusted, since')
  }

  /** Once a trust screen was answered it does not matter whether another answer could be sent. */
  lemma AnsweredOnce(l: Look, answers: bool, other: bool, agent: string, settle: int, trust: bool, trusted: bool,
                     since: Option<int>)
    requires !trusted ==> answers == other
    ensures TurnOf(l, answers, agent, settle, trust, trusted, since)
            == TurnOf(l, other, agent, settle, trust, trusted, since)
    ensures var turn := TurnOf(l, answers, agent, settle, trust, trusted, since);
      turn.Goes? && trusted ==> turn.trusted
  {
  }

  /** How a wait ends whose next look is look n, and whether a trust screen was answered. */
  function Waited(looks: nat -> Look, answers: bool, agent: string, settle: int, trust: bool, trusted: bool,
                  since: Option<int>, n: nat, patience: nat): (Result<(), Refusal>, bool)
    decreases patience
  {
    if patience == 0 then (Err(NotReady), trusted) else
      match TurnOf(looks(n), answers, agent, settle, trust, trusted, since)
      case Ends(r) => (r, trusted)
      case Goes(trusted', since') =>
        Waited(looks, answers, agent, settle, trust, trusted', since', n + 1, patience - 1)
  }

  lemma WaitedOne(looks: nat -> Look, answers: bool, agent: string, settle: int, trust: bool, trusted: bool,
                  since: Option<int>, n: nat, patience: nat)
    ensures Waited(looks, answers, agent, settle, trust, trusted, since, n, patience) ==
      if patience == 0 then (Err(NotReady), trusted) else
        match TurnOf(looks(n), answers, agent, settle, trust, trusted, since)
        case Ends(r) => (r, trusted)
        case Goes(trusted', since') =>
          Waited(looks, answers, agent, settle, trust, trusted', since', n + 1, patience - 1)
  {
    hide TurnOf;
  }

  /** The agent is found ready at 1 and at 11, and shows its trust screen at 0 and again at 2. */
  function Relapsing(n: nat): Look {
    var asking := n != 1 && n != 3;
    Look(if n == 3 then 11 else n, false, true, Agent("claude"), Idle, asking, asking,
         false, false, false, false, false, false)
  }

  /** A trust screen that comes back after it was answered does not restart the settle window. */
  lemma SettledAcrossTrustScreen()
    ensures Waited(Relapsing, true, "claude", 10, true, false, None, 0, 4) == (Ok(()), true)
    ensures Ready(Relapsing(1), "claude") && Ready(Relapsing(3), "claude") && Shows(Relapsing(2), TrustScreen)
  {
    assert Waited(Relapsing, true, "claude", 10, true, true, Some(1), 3, 1) == (Ok(()), true);
    assert Waited(Relapsing, true, "claude", 10, true, true, Some(1), 2, 2) == (Ok(()), true);
    assert Waited(Relapsing, true, "claude", 10, true, true, None, 1, 3) == (Ok(()), true);
  }

  // ------------------------------------------------------------------- Pane --

  datatype Refusal =
    | LookFailed | SendFailed | UnsentDraft | AskedFirst | NeverAppeared | StillInInput
    | UnmatchedDraft | NotAccepted | PaneGone | Asked | TrustStuck | NotReady | Changed

  /** Whether the last event is what the refusal says it is; NotReady may also be a wait that ran out. */
  predicate Blames(trace: seq<Event>, from: nat, e: Refusal) {
    e.NotReady? || (from < |trace| &&
      var last := trace[|trace| - 1];
      if e.SendFailed? then !last.Saw?
      else if e.LookFailed? then last == Saw(Failure)
      else last.Saw? && last.look.Look? && Explains(last.look, e))
  }

  predicate Explains(l: Look, e: Refusal)
    requires l.Look?
  {
    match e
    case UnsentDraft | StillInInput => l.draft
    case AskedFirst | Asked => l.asking
    case NeverAppeared => !l.draft && !l.asking
    case UnmatchedDraft => l.state.DraftInput? && !InBox(l)
    case NotAccepted => !Shows(l, Taken)
    case PaneGone => !l.present
    case TrustStuck => l.asking && l.trustPrompt && l.late
    case Changed => true
    case _ => false
  }

  class Pane {
    const looks: nat -> Look
    const sends: nat -> bool
    var looked: nat
    var sent: nat
    var trace: seq<Event>

    constructor (looks: nat -> Look, sends: nat -> bool)
      ensures this.looks == looks && this.sends == sends && trace == [] && looked == 0 && sent == 0
    {
      this.looks, this.sends := looks, sends;
      looked, sent, trace := 0, 0, [];
    }

    method Watch() returns (l: Look)
      modifies this
      ensures l == looks(old(looked)) && looked == old(looked) + 1 && sent == old(sent)
      ensures trace == old(trace) + [Saw(l)]
    {
      l := looks(looked);
      looked := looked + 1;
      trace := trace + [Saw(l)];
    }

    method Send(e: Event) returns (ok: bool)
      requires !e.Saw?
      modifies this
      ensures ok == sends(old(sent)) && sent == old(sent) + 1 && looked == old(looked)
      ensures trace == old(trace) + [e]
    {
      ok := sends(sent);
      sent := sent + 1;
      trace := trace + [e];
    }

    /** submitQueued: paste, see the draft, press Enter, see it gone. */
    method SubmitQueued(prompt: string) returns (r: Result<(), Refusal>)
      modifies this
      ensures old(trace) <= trace && Rules(Queuing(prompt), trace, |old(trace)|)
      ensures Count(trace, |old(trace)|, Enters) <= SUBMIT_RETRIES + 1
      ensures Count(trace, |old(trace)|, Pastes) <= SUBMIT_RETRIES + 1
      ensures r.Ok? ==>
        && AfterSeeing(trace, |old(trace)|, |trace|, EmptyInput)
        && Count(trace, |old(trace)|, Enters) > 0 && Count(trace, |old(trace)|, Pastes) > 0
      ensures r == Err(UnsentDraft) <==> looks(old(looked)).Look? && looks(old(looked)).draft
      ensures r == Err(NeverAppeared) ==>
        Count(trace, |old(trace)|, Pastes) == SUBMIT_RETRIES + 1 && Count(trace, |old(trace)|, Enters) == 0
      ensures r == Err(StillInInput) ==> Count(trace, |old(trace)|, Enters) == SUBMIT_RETRIES + 1
      ensures r.Err? ==> Blames(trace, |old(trace)|, r.error) && (r.error.SendFailed? ==> sent > 0 && !sends(sent - 1))
    {
      hide Count, Rules;
      ghost var from := |trace|;
      NothingYet(Queuing(prompt), trace);
      var l := Watch();
      SawKeepsRules(Queuing(prompt), old(trace), trace, from, l);
      if l.Failure? { return Err(LookFailed); }
      if l.draft { return Err(UnsentDraft); }
      ghost var before := trace;
      var ok := Send(Paste(prompt, false));
      KeyKeepsRules(Queuing(prompt), before, trace, from, Paste(prompt, false));
      if !ok { return Err(SendFailed); }
      r := AwaitDraft(prompt, from);
      if r.Err? { return; }
      r := ConfirmQueued(prompt, from);
    }

    /** Until the paste shows up as a draft; pasting again only into an empty box. */
    method AwaitDraft(prompt: string, ghost from: nat) returns (r: Result<(), Refusal>)
      requires from < |trace| && Rules(Queuing(prompt), trace, from) && |trace| >= from + 2
      requires Count(trace, from, Pastes) == 1 && Count(trace, from, Enters) == 0
      modifies this
      ensures old(trace) <= trace && Rules(Queuing(prompt), trace, from)
      ensures 1 <= Count(trace, from, Pastes) <= SUBMIT_RETRIES + 1 && Count(trace, from, Enters) == 0
      ensures r.Ok? ==> AfterSeeing(trace, from, |trace|, DraftAndQuiet)
      ensures r == Err(NeverAppeared) ==> Count(trace, from, Pastes) == SUBMIT_RETRIES + 1
      ensures r != Err(UnsentDraft) && r != Err(StillInInput)
      ensures r.Err? ==> Blames(trace, from, r.error) && (r.error.SendFailed? ==> sent > 0 && !sends(sent - 1))
    {
      hide Count, Rules;
      var retry := 0;
      while true
        invariant 0 <= retry <= SUBMIT_RETRIES && from + 2 <= |trace| && old(trace) <= trace
        invariant Rules(Queuing(prompt), trace, from)
        invariant Count(trace, from, Pastes) == retry + 1 && Count(trace, from, Enters) == 0
        decreases SUBMIT_RETRIES - retry
      {
        ghost var before := trace;
        var l := Watch();
        SawKeepsRules(Queuing(prompt), before, trace, from, l);
        if l.Failure? { return Err(LookFailed); }
        if l.asking { return Err(AskedFirst); }
        if l.draft { return Ok(()); }
        if retry >= SUBMIT_RETRIES { return Err(NeverAppeared); }
        before := trace;
        var ok := Send(Paste(prompt, false));
        KeyKeepsRules(Queuing(prompt), before, trace, from, Paste(prompt, false));
        if !ok { return Err(SendFailed); }
        retry := retry + 1;
      }
      assert false;
    }

    /** Enter on the draft just seen, and again while it stays, but never while the agent asks. */
    method ConfirmQueued(prompt: string, ghost from: nat) returns (r: Result<(), Refusal>)
      requires from < |trace| && Rules(Queuing(prompt), trace, from) && AfterSeeing(trace, from, |trace|, DraftAndQuiet)
      requires Count(trace, from, Enters) == 0
      modifies this
      ensures old(trace) <= trace && Rules(Queuing(prompt), trace, from)
      ensures 1 <= Count(trace, from, Enters) <= SUBMIT_RETRIES + 1
      ensures Count(trace, from, Pastes) == Count(old(trace), from, Pastes)
      ensures r.Ok? ==> AfterSeeing(trace, from, |trace|, EmptyInput)
      ensures r == Err(StillInInput) ==> Count(trace, from, Enters) == SUBMIT_RETRIES + 1
      ensures r != Err(UnsentDraft) && r != Err(NeverAppeared)
      ensures r.Err? ==> Blames(trace, from, r.error) && (r.error.SendFailed? ==> sent > 0 && !sends(sent - 1))
    {
      hide Count, Rules;
      ghost var before := trace;
      var ok := Send(Enter);
      KeyKeepsRules(Queuing(prompt), before, trace, from, Enter);
      if !ok { return Err(SendFailed); }
      var retry := 0;
      while true
        invariant 0 <= retry <= SUBMIT_RETRIES && from < |trace| && old(trace) <= trace
        invariant Rules(Queuing(prompt), trace, from)
        invariant Count(trace, from, Enters) == retry + 1
        invariant Count(trace, from, Pastes) == Count(old(trace), from, Pastes)
        decreases SUBMIT_RETRIES - retry
      {
        before := trace;
        var l := Watch();
        SawKeepsRules(Queuing(prompt), before, trace, from, l);
        if l.Failure? { return Err(LookFailed); }
        if !l.draft { return Ok(()); }
        if l.asking { return Err(AskedFirst); }
        if retry >= SUBMIT_RETRIES { return Err(StillInInput); }
        before := trace;
        ok := Send(Enter);
        KeyKeepsRules(Queuing(prompt), before, trace, from, Enter);
        if !ok { return Err(SendFailed); }
        retry := retry + 1;
      }
      assert false;
    }

    /** submitPrompt: paste with Enter, then recover a swallowed Enter or a lost paste a bounded number of times. */
    method SubmitPrompt(prompt: string) returns (r: Result<(), Refusal>)
      modifies this
      ensures old(trace) < trace && Rules(Submitting(prompt), trace, |old(trace)|)
      ensures Count(trace, |old(trace)|, Pastes) >= 1
      ensures Count(trace, |old(trace)|, Pastes) + Count(trace, |old(trace)|, Enters) <= SUBMIT_RETRIES + 1
      ensures r.Ok? ==> AfterSeeing(trace, |old(trace)|, |trace|, Taken)
      ensures r == Err(NotAccepted) ==>
        Count(trace, |old(trace)|, Pastes) + Count(trace, |old(trace)|, Enters) == SUBMIT_RETRIES + 1
      ensures r.Err? ==> Blames(trace, |old(trace)|, r.error) && (r.error.SendFailed? ==> sent > 0 && !sends(sent - 1))
    {
      hide Count, Rules;
      ghost var from, before := |trace|, trace;
      NothingYet(Submitting(prompt), trace);
      var ok := Send(Paste(prompt, true));
      KeyKeepsRules(Submitting(prompt), before, trace, from, Paste(prompt, true));
      if !ok { return Err(SendFailed); }
      var retry := 0;
      while true
        invariant 0 <= retry <= SUBMIT_RETRIES && from < |trace| && old(trace) < trace
        invariant Rules(Submitting(prompt), trace, from) && Count(trace, from, Pastes) >= 1
        invariant Count(trace, from, Pastes) + Count(trace, from, Enters) == retry + 1
        decreases SUBMIT_RETRIES - retry
      {
        before := trace;
        var l := Watch();
        SawKeepsRules(Submitting(prompt), before, trace, from, l);
        if l.Failure? { return Err(LookFailed); }
        if TookIt(l) { return Ok(()); }
        if l.state.DraftInput? && !InBox(l) { return Err(UnmatchedDraft); }
        if !InBox(l) && l.shown { return Ok(()); }
        if retry >= SUBMIT_RETRIES { return Err(NotAccepted); }
        var key := if InBox(l) then Enter else Paste(prompt, true);
        before := trace;
        ok := Send(key);
        KeyKeepsRules(Submitting(prompt), before, trace, from, key);
        if !ok { return Err(SendFailed); }
        retry := retry + 1;
      }
      assert false;
    }

    /** Answers the trust screen just seen. */
    method AcceptTrust(ghost from: nat) returns (ok: bool)
      requires Rules(Waiting, trace, from) && AfterSeeing(trace, from, |trace|, TrustScreen)
      modifies this
      ensures ok == sends(old(sent)) && sent == old(sent) + 1 && looked == old(looked)
      ensures trace == old(trace) + [Answer] && Rules(Waiting, trace, from)
      ensures Count(trace, from, Answers) == Count(old(trace), from, Answers) + 1
    {
      hide Count, Rules;
      ok := Send(Answer);
      KeyKeepsRules(Waiting, old(trace), trace, from, Answer);
    }

    /** One look of a wait, and the answer to a first trust screen; i and since as in Holding. */
    method TakeTurn(agent: string, settle: int, trust: bool, trusted: bool, since: Option<int>,
                    ghost from: nat, ghost i: nat) returns (turn: Turn, ghost first: nat)
      requires from <= |trace| && Rules(Waiting, trace, from)
      requires since.Some? ==> Holding(trace, from, i, agent, since.value, trusted)
      modifies this
      ensures old(trace) <= trace && Rules(Waiting, trace, from) && looked == old(looked) + 1
      ensures turn == TurnOf(looks(old(looked)), sends(old(sent)), agent, settle, trust, trusted, since)
      ensures turn.Goes? && turn.since.Some? ==> Holding(trace, from, first, agent, turn.since.value, turn.trusted)
      ensures turn.Ends? && turn.r.Ok? ==> from <= first && SettledSince(trace, first, agent, settle, trusted)
      ensures turn.Ends? && turn.r.Err? ==>
        Blames(trace, from, turn.r.error) && (turn.r.error.SendFailed? ==> sent > 0 && !sends(sent - 1))
      ensures turn.Goes? && turn.trusted == trusted ==> sent == old(sent)
      ensures var answered := turn == Ends(Err(SendFailed)) || (turn.Goes? && turn.trusted != trusted);
        && Count(trace, from, Answers) == Count(old(trace), from, Answers) + (if answered then 1 else 0)
        && (answered ==> trust && !trusted)
    {
      hide Count, Rules, Rule, Holding, SettledSince, Calm;
      first := i;
      var l := Watch();
      ghost var seen := trace;
      SawKeepsRules(Waiting, old(trace), seen, from, l);
      if l.Failure? { return Ends(Err(LookFailed)), first; }
      if !l.present { return Ends(Err(PaneGone)), first; }
      if l.asking {
        if !trust || !l.trustPrompt { return Ends(Err(Asked)), first; }
        if trusted {
          if l.late { return Ends(Err(TrustStuck)), first; }
          if since.Some? { HoldsOn(old(trace), from, i, agent, since.value, trusted, l); }
          return Goes(true, since), first;
        }
        var ok := AcceptTrust(from);
        return if ok then Goes(true, None) else Ends(Err(SendFailed)), first;
      }
      var readySince: Option<int> := None;
      if Ready(l, agent) {
        readySince := if since.Some? then since else Some(l.now);
        if since.Some? {
          HoldsOn(old(trace), from, i, agent, since.value, trusted, l);
        } else {
          first := |old(trace)|;
          HoldsAtFirst(old(trace), from, agent, trusted, l);
        }
        if settle <= 0 || l.now - readySince.value >= settle {
          HoldsLongEnough(old(trace), from, first, agent, readySince.value, trusted, l, settle);
          return Ends(Ok(())), first;
        }
      }
      if l.late { return Ends(Err(NotReady)), first; }
      turn := Goes(trusted, readySince);
    }

    /** waitReady, over at most `patience` looks; the deadline is over by then. */
    method WaitReady(agent: string, settle: int, trust: bool, answered: bool, patience: nat)
      returns (r: Result<(), Refusal>, trusted: bool)
      modifies this
      ensures old(trace) <= trace && Rules(Waiting, trace, |old(trace)|)
      ensures Count(trace, |old(trace)|, Answers) <= (if trust && !answered then 1 else 0)
      ensures trusted && !answered ==> Count(trace, |old(trace)|, Answers) == 1
      ensures r.Ok? ==> exists i :: |old(trace)| <= i && SettledSince(trace, i, agent, settle, trusted)
      ensures r.Err? ==> Blames(trace, |old(trace)|, r.error) && (r.error.SendFailed? ==> sent > 0 && !sends(sent - 1))
      ensures (r, trusted) ==
        Waited(looks, sends(old(sent)), agent, settle, trust, answered, None, old(looked), patience)
    {
      hide Count, Rules, Waited, TurnOf, Holding, SettledSince, Explains;
      ghost var from, first := |trace|, 0;
      ghost var answers := sends(sent);
      ghost var outcome := Waited(looks, answers, agent, settle, trust, answered, None, looked, patience);
      NothingYet(Waiting, trace);
      trusted := answered;
      var since: Option<int> := None;
      for k := 0 to patience
        invariant old(trace) <= trace && Rules(Waiting, trace, from)
        invariant Count(trace, from, Answers) == if trusted && !answered then 1 else 0
        invariant answered ==> trusted
        invariant trusted && !answered ==> trust
        invariant !trusted ==> sent == old(sent)
        invariant since.Some? ==> Holding(trace, from, first, agent, since.value, trusted)
        invariant Waited(looks, answers, agent, settle, trust, trusted, since, looked, patience - k) == outcome
      {
        WaitedOne(looks, answers, agent, settle, trust, trusted, since, looked, patience - k);
        AnsweredOnce(looks(looked), answers, sends(sent), agent, settle, trust, trusted, since);
        var turn;
        turn, first := TakeTurn(agent, settle, trust, trusted, since, from, first);
        match turn
        case Ends(result) => return result, trusted;
        case Goes(trusted', since') => trusted, since := trusted', since';
      }
      WaitedOne(looks, answers, agent, settle, trust, trusted, since, looked, 0);
      r := Err(NotReady);
    }

    /** settleExistingAgent: every sample must find the agent calm. */
    method SettleExisting(agent: string, samples: nat) returns (r: Result<(), Refusal>)
      modifies this
      ensures old(trace) <= trace && forall i | |old(trace)| <= i < |trace| :: trace[i].Saw?
      ensures r.Ok? ==>
        |trace| == |old(trace)| + samples && forall i | |old(trace)| <= i < |trace| :: Calm(trace[i].look, agent)
      ensures r.Err? ==> Blames(trace, |old(trace)|, r.error) && (r.error.SendFailed? ==> sent > 0 && !sends(sent - 1))
    {
      for k := 0 to samples
        invariant old(trace) <= trace && |trace| == |old(trace)| + k
        invariant forall i | |old(trace)| <= i < |trace| :: trace[i].Saw? && Calm(trace[i].look, agent)
      {
        var l := Watch();
        if l.Failure? { return Err(LookFailed); }
        if l.asking { return Err(Asked); }
        if l.runtime != Agent(agent) { return Err(Changed); }
        if l.state.WaitingQuota? {
          if !l.vouched { return Err(NotReady); }
        } else if !l.state.WaitingInput? && !l.state.Idle? {
          return Err(NotReady);
        }
      }
      r := Ok(());
    }

    /** waitExitInput: looks only, until /exit is in the box. */
    method AwaitExitInput(patience: nat) returns (r: Result<(), Refusal>)
      modifies this
      ensures old(trace) <= trace && forall i | |old(trace)| <= i < |trace| :: trace[i].Saw?
      ensures r.Ok? ==> AfterSeeing(trace, |old(trace)|, |trace|, ExitInBox)
      ensures r.Err? ==> Blames(trace, |old(trace)|, r.error) && (r.error.SendFailed? ==> sent > 0 && !sends(sent - 1))
    {
      for k := 0 to patience
        invariant old(trace) <= trace && forall i | |old(trace)| <= i < |trace| :: trace[i].Saw?
      {
        var l := Watch();
        if l.Failure? { return Err(LookFailed); }
        if l.asking { return Err(Asked); }
        if l.exitTyped { return Ok(()); }
        if l.late { return Err(NotReady); }
      }
      r := Err(NotReady);
    }

    /** waitShell: looks only, until the same pane runs a shell. */
    method AwaitShell(agent: string, patience: nat) returns (r: Result<(), Refusal>)
      modifies this
      ensures old(trace) <= trace && forall i | |old(trace)| <= i < |trace| :: trace[i].Saw?
      ensures r.Ok? ==> AfterSeeing(trace, |old(trace)|, |trace|, AtShell)
      ensures r.Err? ==> Blames(trace, |old(trace)|, r.error) && (r.error.SendFailed? ==> sent > 0 && !sends(sent - 1))
    {
      for k := 0 to patience
        invariant old(trace) <= trace && forall i | |old(trace)| <= i < |trace| :: trace[i].Saw?
      {
        var l := Watch();
        if l.Failure? { return Err(LookFailed); }
        if !l.present { return Err(PaneGone); }
        if l.runtime.Shell? { return Ok(()); }
        if l.runtime != Agent(agent) { return Err(Changed); }
        if l.asking { return Err(Asked); }
        if l.late { return Err(NotReady); }
      }
      r := Err(NotReady);
    }

    /** Types /exit into the box of an agent that stayed calm, still runs and has nothing typed. */
    method TypeExit(agent: string, samples: nat) returns (r: Result<(), Refusal>)
      modifies this
      ensures old(trace) <= trace && Rules(Leaving(agent), trace, |old(trace)|)
      ensures Count(trace, |old(trace)|, Enters) == 0 && Count(trace, |old(trace)|, Pastes) <= 1
      ensures r.Ok? ==> Count(trace, |old(trace)|, Pastes) == 1
      ensures r.Err? ==> Blames(trace, |old(trace)|, r.error) && (r.error.SendFailed? ==> sent > 0 && !sends(sent - 1))
    {
      hide Count, Rules;
      ghost var p, from, before := Leaving(agent), |trace|, trace;
      NothingYet(p, trace);
      var l := Watch();
      SawKeepsRules(p, before, trace, from, l);
      if !InputReady(l) { return Err(NotReady); }
      before := trace;
      r := SettleExisting(agent, samples);
      LooksKeepRules(p, before, trace, from);
      if r.Err? { return; }
      before := trace;
      l := Watch();
      SawKeepsRules(p, before, trace, from, l);
      if l.Failure? { return Err(LookFailed); }
      if !l.present { return Err(PaneGone); }
      if l.runtime != Agent(agent) { return Err(Changed); }
      before := trace;
      l := Watch();
      SawKeepsRules(p, before, trace, from, l);
      if l.Failure? { return Err(LookFailed); }
      if !InputReady(l) || l.draft { return Err(Changed); }
      before := trace;
      var ok := Send(Paste(EXIT, false));
      KeyKeepsRules(p, before, trace, from, Paste(EXIT, false));
      r := if ok then Ok(()) else Err(SendFailed);
    }

    /** The first half of dispatchRestart: the old agent leaves, or nothing but one /exit was typed. */
    method LeaveAgent(agent: string, samples: nat, patience: nat) returns (r: Result<(), Refusal>)
      modifies this
      ensures old(trace) <= trace && Rules(Leaving(agent), trace, |old(trace)|)
      ensures Count(trace, |old(trace)|, Enters) <= Count(trace, |old(trace)|, Pastes) <= 1
      ensures r.Ok? ==> Count(trace, |old(trace)|, Enters) == 1 && AfterSeeing(trace, |old(trace)|, |trace|, AtShell)
      ensures r.Err? ==> Blames(trace, |old(trace)|, r.error) && (r.error.SendFailed? ==> sent > 0 && !sends(sent - 1))
    {
      hide Count, Rules;
      ghost var p, from := Leaving(agent), |trace|;
      r := TypeExit(agent, samples);
      if r.Err? { return; }
      ghost var before := trace;
      r := AwaitExitInput(patience);
      LooksKeepRules(p, before, trace, from);
      if r.Err? { return; }
      before := trace;
      var ok := Send(Enter);
      KeyKeepsRules(p, before, trace, from, Enter);
      if !ok { return Err(SendFailed); }
      before := trace;
      r := AwaitShell(agent, patience);
      LooksKeepRules(p, before, trace, from);
    }

    /**
     dispatchRestart: leave, launch, wait, submit.  The launcher is pasted at `launched`,
     right after a shell was seen in this pane, and the prompt from `submitted` on, right
     after the new agent was seen settled.
     */
    method Restart(
      agent: string, launcher: string, replacement: string, prompt: string, settle: int, trust: bool,
      samples: nat, patience: nat)
      returns (r: Result<(), Refusal>, ghost launched: Option<nat>, ghost submitted: Option<nat>)
      modifies this
      ensures old(trace) <= trace && (submitted.Some? ==> launched.Some?)
      ensures r.Ok? ==> submitted.Some? && AfterSeeing(trace, submitted.value, |trace|, Taken)
      ensures launched.None? ==> Rules(Leaving(agent), trace, |old(trace)|)
      ensures launched.Some? ==>
        && |old(trace)| < launched.value < |trace| && trace[launched.value] == Paste(launcher, true)
        && Rules(Leaving(agent), trace[..launched.value], |old(trace)|)
        && AfterSeeing(trace, |old(trace)|, launched.value, AtShell)
        && (submitted.None? ==> Rules(Waiting, trace, launched.value + 1))
      ensures submitted.Some? ==>
        && launched.value < submitted.value < |trace|
        && Rules(Waiting, trace[..submitted.value], launched.value + 1)
        && (exists i :: launched.value < i && SettledSince(trace[..submitted.value], i, replacement, settle, trust))
        && Rules(Submitting(prompt), trace, submitted.value)
      ensures r.Err? ==> Blames(trace, |old(trace)|, r.error) && (r.error.SendFailed? ==> sent > 0 && !sends(sent - 1))
    {
      hide Rules, Waited, SettledSince, Explains;
      launched, submitted := None, None;
      r := LeaveAgent(agent, samples, patience);
      if r.Err? { return; }
      ghost var left := trace;
      NothingYet(Waiting, left + [Paste(launcher, true)]);
      var ok := Send(Paste(launcher, true));
      launched := Some(|left|);
      assert trace[..|left|] == left;
      if !ok { return Err(SendFailed), launched, submitted; }
      var trusted;
      r, trusted := WaitReady(replacement, settle, trust, false, patience);
      assert trace[..|left|] == left;
      if r.Err? { return; }
      ghost var ready := trace;
      ghost var i :| |left| + 1 <= i && SettledSince(ready, i, replacement, settle, trusted);
      SettledByAnyTrust(ready, i, replacement, settle, trusted, trust);
      r := SubmitPrompt(prompt);
      submitted := Some(|ready|);
      assert trace[..|left|] == left && trace[..|ready|] == ready;
    }
  }

  lemma NothingYet(p: Protocol, trace: seq<Event>)
    ensures Rules(p, trace, |trace|) && forall key :: Count(trace, |trace|, key) == 0
  {
  }

  lemma RulesGrow(p: Protocol, before: seq<Event>, e: Event, from: nat)
    requires from <= |before| && Rules(p, before, from) && Rule(p, before + [e], from, |before|)
    ensures Rules(p, before + [e], from)
  {
    var after := before + [e];
    forall i | from <= i < |after| ensures Rule(p, after, from, i) {
      if i < |before| {
        assert Rule(p, before, from, i) && after[i] == before[i];
        assert i > 0 ==> after[i - 1] == before[i - 1];
        assert i > 1 ==> after[i - 2] == before[i - 2];
      }
    }
  }

  lemma SawKeepsRules(p: Protocol, before: seq<Event>, after: seq<Event>, from: nat, l: Look)
    requires from <= |before| && Rules(p, before, from) && after == before + [Saw(l)]
    ensures Rules(p, after, from)
    ensures forall key :: Count(after, from, key) == Count(before, from, key)
  {
    RulesGrow(p, before, Saw(l), from);
    forall key ensures Count(after, from, key) == Count(before, from, key) { CountOneMore(before, Saw(l), from, key); }
  }

  lemma {:induction false} LooksKeepRules(p: Protocol, before: seq<Event>, after: seq<Event>, from: nat)
    requires from <= |before| <= |after| && Rules(p, before, from) && before <= after
    requires forall i | |before| <= i < |after| :: after[i].Saw?
    ensures Rules(p, after, from) && forall key :: Count(after, from, key) == Count(before, from, key)
    decreases |after|
  {
    if |before| < |after| {
      var shorter := after[..|after| - 1];
      LooksKeepRules(p, before, shorter, from);
      SawKeepsRules(p, shorter, after, from, after[|after| - 1].look);
    } else {
      assert before == after;
    }
  }

  lemma KeyKeepsRules(p: Protocol, before: seq<Event>, after: seq<Event>, from: nat, e: Event)
    requires from <= |before| && Rules(p, before, from) && after == before + [e] && Rule(p, after, from, |before|)
    ensures Rules(p, after, from)
    ensures forall key :: Count(after, from, key) == Count(before, from, key) + if Is(e, key) then 1 else 0
  {
    RulesGrow(p, before, e, from);
    forall key ensures Count(after, from, key) == Count(before, from, key) + if Is(e, key) then 1 else 0 {
      CountOneMore(before, e, from, key);
    }
  }
}
