/**
 The registry of credential requests (internal/credreq/registry.go).  Every operation
 holds one lock, so any concurrent use is a sequence of these calls; the clock, the
 random identifiers and the credential store are parameters.
 */
module CredentialRegistry {
  import opened Common

  datatype State = Pending | Submitted | Declined | Expired

  datatype Request = Request(
    id: string, name: string, createdAt: int, expiresAt: int, state: State, path: Option<string>)

  datatype Failure =
    | BadName | ReasonTooLong | TimeoutTooLong | NoRandomness | Unknown | Resolved(state: State) | StoreFailed
    | Cancelled

  const SECOND := 1_000_000_000
  const DEFAULT_TIMEOUT := 600 * SECOND
  const MAX_TIMEOUT := 3600 * SECOND
  const MAX_REASON := 200
  const FINISHED_RETENTION := 300 * SECOND

  class Entry {
    const id: string
    const name: string
    const createdAt: int
    const expiresAt: int
    var state: State
    var path: Option<string>
    /** How often the done channel has been closed; closing it twice would be a crash. */
    var closings: nat
    var pruneAt: int

    constructor (id: string, name: string, now: int, expiresAt: int)
      ensures this.id == id && this.name == name && createdAt == now && this.expiresAt == expiresAt
      ensures state == Pending && path == None && closings == 0
    {
      this.id, this.name, createdAt, this.expiresAt := id, name, now, expiresAt;
      state, path, closings, pruneAt := Pending, None, 0, 0;
    }

    predicate Consistent()
      reads this
    {
      && closings == (if state.Pending? then 0 else 1)
      && (path.Some? <==> state.Submitted?)
    }

    function Snapshot(): Request
      reads this
    {
      Request(id, name, createdAt, expiresAt, state, path)
    }
  }

  class Registry {
    var entries: map<string, Entry>
    /** Every request ever created, pruned ones included. */
    ghost var all: set<Entry>

    ghost predicate Valid()
      reads this, all
    {
      && (forall id | id in entries :: entries[id] in all && entries[id].id == id)
      && (forall e | e in all :: e.Consistent())
      && (forall e | e in all && e.state.Pending? :: e.id in entries && entries[e.id] == e)
      && (forall a, b | a in all && b in all && a.state.Pending? && b.state.Pending? && a.name == b.name :: a == b)
    }

    constructor ()
      ensures Valid() && entries == map[] && all == {}
    {
      entries, all := map[], {};
    }

    /** Drops what was resolved long enough ago, and nothing else. */
    method Prune(now: int)
      requires Valid()
      modifies this`entries
      ensures Valid()
      ensures forall id :: id in entries <==>
        id in old(entries) && (old(entries)[id].state.Pending? || now <= old(entries)[id].pruneAt)
      ensures forall id | id in entries :: entries[id] == old(entries)[id]
    {
      var rest := entries.Keys;
      while rest != {}
        invariant rest <= old(entries).Keys
        invariant forall id :: id in entries <==>
          id in old(entries) && (id in rest || old(entries)[id].state.Pending? || now <= old(entries)[id].pruneAt)
        invariant forall id | id in entries :: entries[id] == old(entries)[id]
        decreases |rest|
      {
        var id :| id in rest;
        rest := rest - {id};
        if !entries[id].state.Pending? && now > entries[id].pruneAt {
          entries := entries - {id};
        }
      }
    }

    /** The pending request of that name, if there is one. */
    method FindPending(name: string) returns (found: Option<Entry>)
      requires Valid()
      ensures found.None? ==> forall e | e in all && e.state.Pending? :: e.name != name
      ensures found.Some? ==> found.value in all && found.value.state.Pending? && found.value.name == name
    {
      var rest := entries.Keys;
      while rest != {}
        invariant rest <= entries.Keys
        invariant forall id | id in entries && id !in rest :: !(entries[id].state.Pending? && entries[id].name == name)
        decreases |rest|
      {
        var id :| id in rest;
        if entries[id].name == name && entries[id].state.Pending? { return Some(entries[id]); }
        rest := rest - {id};
      }
      found := None;
    }

    /**
     Starts a request or returns the one already pending under that name.  `id` is the random
     identifier, which no listed request has, or None when there is no randomness.
     */
    method Create(name: string, valid: bool, reason: string, timeout: int, now: int, id: Option<string>)
      returns (r: Result<Request, Failure>, created: bool)
      requires Valid() && (id.Some? ==> id.value !in entries)
      modifies this
      ensures Valid() && old(all) <= all && (created <==> all != old(all))
      ensures r.Err? <==>
        || !valid || |reason| > MAX_REASON || timeout > MAX_TIMEOUT
        || (id.None? && forall e | e in old(all) && e.state.Pending? :: e.name != name)
      ensures r.Ok? ==>
        && r.value.name == name && r.value.state.Pending?
        && exists e | e in all :: e.state.Pending? && r.value == e.Snapshot()
      ensures created ==>
        && r.Ok? && id == Some(r.value.id) && r.value.createdAt == now
        && r.value.expiresAt == now + (if timeout <= 0 then DEFAULT_TIMEOUT else timeout)
        && (forall e | e in old(all) && e.state.Pending? :: e.name != name)
        && exists e | e in all && e !in old(all) :: fresh(e) && all == old(all) + {e}
    {
      created := false;
      if !valid { return Err(BadName), false; }
      if |reason| > MAX_REASON { return Err(ReasonTooLong), false; }
      var wait := if timeout <= 0 then DEFAULT_TIMEOUT else timeout;
      if wait > MAX_TIMEOUT { return Err(TimeoutTooLong), false; }
      Prune(now);
      var found := FindPending(name);
      if found.Some? { return Ok(found.value.Snapshot()), false; }
      if id.None? { return Err(NoRandomness), false; }
      var e := new Entry(id.value, name, now, now + wait);
      entries := entries[id.value := e];
      all := all + {e};
      r, created := Ok(e.Snapshot()), true;
    }

    /** The one place where a request leaves the pending state and its done channel is closed. */
    method Resolve(e: Entry, state: State, path: Option<string>, now: int)
      requires Valid() && e in all && e.state.Pending? && !state.Pending? && (path.Some? <==> state.Submitted?)
      modifies e
      ensures Valid() && e.state == state && e.path == path && e.closings == old(e.closings) + 1 == 1
      ensures e.pruneAt == now + FINISHED_RETENTION
    {
      e.state, e.path := state, path;
      e.pruneAt := now + FINISHED_RETENTION;
      e.closings := e.closings + 1;
    }

    /** What Submit and Decline start with. */
    method FindOpen(id: string, now: int) returns (r: Result<Entry, Failure>)
      requires Valid()
      modifies this`entries
      ensures Valid()
      ensures r.Ok? <==> id in old(entries) && old(entries)[id].state.Pending?
      ensures r.Ok? ==> r.value == old(entries)[id] && r.value in all
      ensures r.Err? ==> r.error == if id !in entries then Unknown else Resolved(entries[id].state)
    {
      Prune(now);
      if id !in entries { return Err(Unknown); }
      if !entries[id].state.Pending? { return Err(Resolved(entries[id].state)); }
      r := Ok(entries[id]);
    }

    /** A failure to store the value leaves the request pending. */
    method Submit(id: string, stored: Option<string>, now: int) returns (r: Result<Request, Failure>)
      requires Valid()
      modifies this`entries, all
      ensures Valid()
      ensures r.Ok? <==> id in old(entries) && old(entries[id].state.Pending?) && stored.Some?
      ensures r == Err(StoreFailed) <==> id in old(entries) && old(entries[id].state.Pending?) && stored.None?
      ensures r.Ok? ==>
        && old(entries)[id].state.Submitted? && old(entries)[id].path == stored
        && r.value == old(entries)[id].Snapshot()
      ensures forall e | e in all && !(r.Ok? && e == old(entries)[id]) :: unchanged(e)
    {
      var found := FindOpen(id, now);
      if found.Err? { return Err(found.error); }
      if stored.None? { return Err(StoreFailed); }
      Resolve(found.value, Submitted, stored, now);
      r := Ok(found.value.Snapshot());
    }

    method Decline(id: string, now: int) returns (r: Result<Request, Failure>)
      requires Valid()
      modifies this`entries, all
      ensures Valid()
      ensures r.Ok? <==> id in old(entries) && old(entries[id].state.Pending?)
      ensures r.Ok? ==> old(entries)[id].state.Declined? && r.value == old(entries)[id].Snapshot()
      ensures forall e | e in all && !(r.Ok? && e == old(entries)[id]) :: unchanged(e)
    {
      var found := FindOpen(id, now);
      if found.Err? { return Err(found.error); }
      Resolve(found.value, Declined, None, now);
      r := Ok(found.value.Snapshot());
    }

    /** What the request's timer does when it fires. */
    method Expire(id: string, now: int)
      requires Valid()
      modifies all
      ensures Valid()
      ensures id in entries && old(entries[id].state.Pending?) ==> entries[id].state.Expired?
      ensures forall e | e in all && !(id in entries && e == entries[id] && old(e.state.Pending?)) :: unchanged(e)
    {
      if id in entries && entries[id].state.Pending? {
        Resolve(entries[id], Expired, None, now);
      }
    }

    method Get(id: string, now: int) returns (r: Result<Request, Failure>)
      requires Valid()
      modifies this`entries
      ensures Valid()
      ensures r.Ok? ==> id in old(entries) && r.value == old(entries)[id].Snapshot()
      ensures r.Err? ==> r.error == Unknown && (id in old(entries) ==> !old(entries)[id].state.Pending?)
    {
      Prune(now);
      if id !in entries { return Err(Unknown); }
      r := Ok(entries[id].Snapshot());
    }

    /** The first half of Wait: the entry is kept even if it is pruned while waiting. */
    method WaitFor(id: string) returns (r: Result<Entry, Failure>)
      requires Valid()
      ensures if id in entries then r == Ok(entries[id]) && entries[id] in all else r == Err(Unknown)
    {
      if id !in entries { return Err(Unknown); }
      r := Ok(entries[id]);
    }

    /** The second half, after the done channel was closed or the caller gave up. */
    method WaitEnds(e: Entry, done: bool) returns (r: Result<Request, Failure>)
      requires Valid() && e in all && (done ==> e.closings > 0)
      ensures if done then r == Ok(e.Snapshot()) && !r.value.state.Pending? else r == Err(Cancelled)
    {
      r := if done then Ok(e.Snapshot()) else Err(Cancelled);
    }

    /**
     Any number of callers in any order: a resolved request never changes again, a pending
     one stays listed, and at most one is pending under any name.
     */
    method Serve(calls: seq<Call>)
      requires Valid()
      modifies this, all
      ensures Valid() && old(all) <= all && fresh(all - old(all))
      ensures forall e | e in old(all) && old(!e.state.Pending?) :: unchanged(e)
    {
      for i := 0 to |calls|
        invariant Valid() && old(all) <= all && fresh(all - old(all))
        invariant forall e | e in old(all) && old(!e.state.Pending?) :: unchanged(e)
      {
        match calls[i] {
          case DoCreate(name, valid, reason, timeout, now, id) =>
            if id.None? || id.value !in entries {
              var r, created := Create(name, valid, reason, timeout, now, id);
            }
          case DoSubmit(id, stored, now) =>
            var r := Submit(id, stored, now);
          case DoDecline(id, now) =>
            var r := Decline(id, now);
          case DoExpire(id, now) =>
            Expire(id, now);
          case DoGet(id, now) =>
            var r := Get(id, now);
        }
      }
    }
  }

  datatype Call =
    | DoCreate(name: string, valid: bool, reason: string, timeout: int, now: int, random: Option<string>)
    | DoSubmit(id: string, stored: Option<string>, now: int)
    | DoDecline(id: string, now: int)
    | DoExpire(id: string, now: int)
    | DoGet(id: string, now: int)
}
