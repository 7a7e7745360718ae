/**
 The incremental log index (internal/logstats/logstats.go): a scan that re-reads only
 what its cache cannot vouch for.  The SHA-256 of a file's tail is taken to identify
 that tail, so an entry holds the tail itself.
 */
module LogIndex {
  import opened Common
  import opened SessionLines

  const TAIL_BYTES := 4096
  const PARSER_VERSION := 2

  datatype Entry = Entry(
    provider: Provider, size: nat, mtime: int, version: int, tail: seq<Byte>, endsWithNewline: bool, reading: Reading)

  /** ReadStops(n): opening, reading or finishing the file fails once n bytes have been read. */
  datatype Fault = Sound | TailUnreadable | ReadStops(after: nat)

  /** A file as one scan finds it; it is absent from the world when it cannot be examined at all. */
  datatype File = File(content: seq<Byte>, mtime: int, fault: Fault)

  type World = map<string, File>

  datatype Listing = Unlistable | Listed(paths: seq<string>)

  type Cache = map<string, Entry>

  function Tail(s: seq<Byte>, size: nat): (t: seq<Byte>)
    requires size <= |s|
    ensures |t| == if size < TAIL_BYTES then size else TAIL_BYTES
  {
    s[if size < TAIL_BYTES then 0 else size - TAIL_BYTES..size]
  }

  /** The entry for a file that was read from its first byte to its last. */
  function Whole(parser: Parser, provider: Provider, content: seq<Byte>, mtime: int): Entry {
    Entry(provider, |content|, mtime, PARSER_VERSION, Tail(content, |content|), EndsWithNewline(content),
          ReadAll(parser, provider, content))
  }

  function Prefix(s: seq<Byte>, n: nat): seq<Byte> {
    if n < |s| then s[..n] else s
  }

  /** What reading a file from scratch contributes, whether or not it ends well. */
  function FreshReading(parser: Parser, provider: Provider, f: File): Reading {
    if f.fault.ReadStops? then ReadAll(parser, provider, Prefix(f.content, f.fault.after))
    else ReadAll(parser, provider, f.content)
  }

  predicate CacheMatches(e: Entry, provider: Provider, f: File) {
    e.provider == provider && e.size == |f.content| && e.mtime == f.mtime && e.version == PARSER_VERSION
  }

  predicate AppendCandidate(e: Entry, provider: Provider, f: File) {
    e.provider == provider && e.version == PARSER_VERSION && |f.content| > e.size && e.endsWithNewline
  }

  predicate TailMatches(e: Entry, f: File)
    requires e.size <= |f.content|
  {
    Tail(f.content, e.size) == e.tail && EndsWithNewline(f.content[..e.size]) == e.endsWithNewline
  }

  // ------------------------------------------------------------- detection --

  /** A change since `seen` was indexed that neither size and time nor the tail gives away. */
  predicate Undetected(seen: seq<Byte>, e: Entry, provider: Provider, f: File) {
    || (CacheMatches(e, provider, f) && f.content != seen)
    || (AppendCandidate(e, provider, f) && TailMatches(e, f) && !(seen <= f.content))
  }

  /** For a file of at most 4096 bytes the tail is the whole file, so an append is recognised exactly. */
  lemma TailIsExactForSmallFiles(parser: Parser, provider: Provider, seen: seq<Byte>, mtime: int, f: File)
    requires |seen| <= TAIL_BYTES && |seen| < |f.content| && EndsWithNewline(seen)
    ensures TailMatches(Whole(parser, provider, seen, mtime), f) <==> seen <= f.content
  {
    assert f.content[0..|seen|] == f.content[..|seen|];
    assert seen[0..|seen|] == seen;
  }

  /** An append is never mistaken for a rewrite. */
  lemma AppendsAreRecognised(parser: Parser, provider: Provider, seen: seq<Byte>, mtime: int, f: File)
    requires seen <= f.content && |seen| < |f.content| && EndsWithNewline(seen)
    ensures var e := Whole(parser, provider, seen, mtime); AppendCandidate(e, provider, f) && TailMatches(e, f)
  {
    assert f.content[..|seen|] == seen;
    var from := if |seen| < TAIL_BYTES then 0 else |seen| - TAIL_BYTES;
    assert f.content[from..|seen|] == f.content[..|seen|][from..];
  }

  predicate SameStamp(past: File, f: File) {
    |f.content| == |past.content| && f.mtime == past.mtime
  }

  /** The change gives itself away: it touches size and time, and growth that is no append touches the tail. */
  predicate Noticed(past: File, f: File) {
    && (SameStamp(past, f) ==> f.content == past.content)
    && (|f.content| > |past.content| > TAIL_BYTES && EndsWithNewline(past.content)
        && f.content[|past.content| - TAIL_BYTES..|past.content|] == past.content[|past.content| - TAIL_BYTES..] ==>
          past.content <= f.content)
  }

  /** Only a rewrite that keeps the time and the size, or grows and keeps the last 4096 old bytes, goes unnoticed. */
  lemma WhatGoesUnnoticed(parser: Parser, past: File, provider: Provider, f: File)
    ensures Undetected(past.content, Whole(parser, provider, past.content, past.mtime), provider, f)
            <==> !Noticed(past, f)
  {
    var seen := past.content;
    var e := Whole(parser, provider, seen, past.mtime);
    if |f.content| > |seen| && EndsWithNewline(seen) {
      if |seen| <= TAIL_BYTES {
        TailIsExactForSmallFiles(parser, provider, seen, past.mtime, f);
      } else {
        assert f.content[..|seen|][|seen| - 1] == f.content[|seen| - TAIL_BYTES..|seen|][TAIL_BYTES - 1];
        assert seen[|seen| - TAIL_BYTES..|seen|] == seen[|seen| - TAIL_BYTES..];
      }
    }
  }

  // ------------------------------------------------------- a from-scratch scan --

  datatype Coverage = Coverage(
    files: nat, lines: int, records: int, known: int, unknown: int, malformed: int, oversized: int, skipped: int)

  const UNCOVERED := Coverage(0, 0, 0, 0, 0, 0, 0, 0)

  function Cover(c: Coverage, s: Stats): Coverage {
    Coverage(c.files + 1, c.lines + s.lines, c.records + s.records, c.known + (s.records - s.unknown),
             c.unknown + s.unknown, c.malformed + s.malformed, c.oversized + s.oversized,
             c.skipped + (s.malformed + s.oversized))
  }

  /** The records found and, per provider, how much of its logs was understood. */
  datatype Tally = Tally(records: seq<Record>, claude: Coverage, codex: Coverage)

  const EMPTY := Tally([], UNCOVERED, UNCOVERED)

  function Count(t: Tally, provider: Provider, r: Reading): Tally {
    Tally(t.records + r.records,
          if provider.Claude? then Cover(t.claude, r.stats) else t.claude,
          if provider.Codex? then Cover(t.codex, r.stats) else t.codex)
  }

  /** What a scan of these files reports when nothing is cached. */
  function FreshTally(parser: Parser, world: World, provider: Provider, paths: seq<string>, t: Tally): Tally {
    if paths == [] then t else
      var before := FreshTally(parser, world, provider, paths[..|paths| - 1], t);
      var path := paths[|paths| - 1];
      if path in world then Count(before, provider, FreshReading(parser, provider, world[path])) else before
  }

  function FreshListing(parser: Parser, world: World, provider: Provider, listing: Listing, t: Tally): Tally {
    if listing.Unlistable? then t else FreshTally(parser, world, provider, listing.paths, t)
  }

  function FreshScan(parser: Parser, world: World, claude: Listing, codex: Listing): Tally {
    FreshListing(parser, world, Codex, codex, FreshListing(parser, world, Claude, claude, EMPTY))
  }

  // ------------------------------------------------------------ a cached scan --

  predicate Hit(cache: Cache, provider: Provider, path: string, f: File) {
    path in cache && CacheMatches(cache[path], provider, f)
  }

  /** The cached entry is extended rather than replaced, if reading the rest succeeds. */
  predicate Resumes(cache: Cache, provider: Provider, path: string, f: File) {
    path in cache && AppendCandidate(cache[path], provider, f)
    && (f.fault.TailUnreadable? || TailMatches(cache[path], f))
  }

  /** The entry a file gets that is not a hit and can be read. */
  function NewEntry(parser: Parser, cache: Cache, provider: Provider, path: string, f: File): Entry {
    var whole := Whole(parser, provider, f.content, f.mtime);
    if Resumes(cache, provider, path, f) then
      whole.(reading := Add(cache[path].reading, ReadAll(parser, provider, f.content[cache[path].size..])))
    else whole
  }

  /** What a file adds to the report. */
  function Contribution(parser: Parser, cache: Cache, provider: Provider, path: string, f: File): Reading {
    if Hit(cache, provider, path, f) then cache[path].reading
    else if !Resumes(cache, provider, path, f) then FreshReading(parser, provider, f)
    else if f.fault.Sound? then NewEntry(parser, cache, provider, path, f).reading
    else NOTHING
  }

  function CacheAfter(parser: Parser, cache: Cache, world: World, provider: Provider, path: string): Cache {
    if path !in world then cache - {path}
    else if Hit(cache, provider, path, world[path]) then cache
    else if !world[path].fault.Sound? then cache - {path}
    else cache[path := NewEntry(parser, cache, provider, path, world[path])]
  }

  datatype Scanned = Scanned(cache: Cache, tally: Tally)

  function ScanOne(parser: Parser, world: World, provider: Provider, path: string, s: Scanned): Scanned {
    Scanned(
      CacheAfter(parser, s.cache, world, provider, path),
      if path in world then Count(s.tally, provider, Contribution(parser, s.cache, provider, path, world[path]))
      else s.tally)
  }

  function ScanPaths(parser: Parser, world: World, provider: Provider, paths: seq<string>, s: Scanned): Scanned {
    if paths == [] then s else
      ScanOne(parser, world, provider, paths[|paths| - 1],
              ScanPaths(parser, world, provider, paths[..|paths| - 1], s))
  }

  function ScanListing(parser: Parser, world: World, provider: Provider, listing: Listing, s: Scanned): Scanned {
    if listing.Unlistable? then s else ScanPaths(parser, world, provider, listing.paths, s)
  }

  function KeepOnly(c: Cache, keep: set<string>): Cache {
    map p | p in c && p in keep :: c[p]
  }

  function Found(listing: Listing): nat {
    if listing.Unlistable? then 0 else |listing.paths|
  }

  function Paths(listing: Listing): set<string> {
    if listing.Unlistable? then {} else set p | p in listing.paths
  }

  /** A whole scan that starts from the cache it loaded. */
  function CachedScan(parser: Parser, loaded: Cache, world: World, claude: Listing, codex: Listing): Scanned {
    var s := ScanListing(parser, world, Claude, claude, Scanned(loaded, EMPTY));
    var s' := ScanListing(parser, world, Codex, codex, s);
    s'.(cache := KeepOnly(s'.cache, Paths(claude) + Paths(codex)))
  }

  lemma ScanPathsStep(parser: Parser, world: World, provider: Provider, paths: seq<string>, i: nat, s: Scanned)
    requires i < |paths|
    ensures ScanPaths(parser, world, provider, paths[..i + 1], s)
            == ScanOne(parser, world, provider, paths[i], ScanPaths(parser, world, provider, paths[..i], s))
  {
    assert paths[..i + 1][..i] == paths[..i];
  }

  // ----------------------------------------------------------------- errors --

  datatype Stage = Discovery | Stat | Stream
  datatype ScanError = ScanError(stage: Stage, path: string)

  function Errors(errors: seq<ScanError>, stage: Stage): nat {
    if errors == [] then 0 else
      Errors(errors[..|errors| - 1], stage) + if errors[|errors| - 1].stage == stage then 1 else 0
  }

  lemma ErrorsGrow(errors: seq<ScanError>, e: ScanError, stage: Stage)
    ensures Errors(errors + [e], stage) == Errors(errors, stage) + if e.stage == stage then 1 else 0
  {
    assert (errors + [e])[..|errors|] == errors;
  }

  datatype Counts = Counts(
    discovered: nat, hits: nat, misses: nat, appended: nat, rebuilt: nat, removed: nat, failed: nat)

  /** The counters once n sources have been looked at. */
  ghost predicate Balanced(c: Counts, errors: seq<ScanError>, n: nat) {
    && c.hits + c.misses + Errors(errors, Stat) == n
    && c.misses == c.appended + c.rebuilt + Errors(errors, Stream)
    && c.failed == Errors(errors, Stat) + Errors(errors, Stream)
  }

  /** The one counter, or pair of counters, that a source moves. */
  function Counted(c: Counts, cache: Cache, world: World, provider: Provider, path: string): Counts {
    if path !in world then c.(failed := c.failed + 1)
    else if Hit(cache, provider, path, world[path]) then c.(hits := c.hits + 1)
    else if !world[path].fault.Sound? then c.(misses := c.misses + 1, failed := c.failed + 1)
    else if Resumes(cache, provider, path, world[path]) then c.(misses := c.misses + 1, appended := c.appended + 1)
    else c.(misses := c.misses + 1, rebuilt := c.rebuilt + 1)
  }

  /** What each of the five ways to deal with a source does to the counters. */
  lemma BalanceKept(c: Counts, errors: seq<ScanError>, n: nat, path: string)
    requires Balanced(c, errors, n)
    ensures Balanced(c.(failed := c.failed + 1), errors + [ScanError(Stat, path)], n + 1)
    ensures Balanced(c.(hits := c.hits + 1), errors, n + 1)
    ensures Balanced(c.(misses := c.misses + 1, failed := c.failed + 1), errors + [ScanError(Stream, path)], n + 1)
    ensures Balanced(c.(misses := c.misses + 1, appended := c.appended + 1), errors, n + 1)
    ensures Balanced(c.(misses := c.misses + 1, rebuilt := c.rebuilt + 1), errors, n + 1)
    ensures Balanced(c, errors + [ScanError(Discovery, path)], n)
  {
    forall e: ScanError, stage
      ensures Errors(errors + [e], stage) == Errors(errors, stage) + if e.stage == stage then 1 else 0
    {
      ErrorsGrow(errors, e, stage);
    }
  }

  // --------------------------------------------- a cached scan is a fresh scan --

  /** The entry is what a full read of the file gives, and the file can be read. */
  ghost predicate Mirrors(parser: Parser, cache: Cache, world: World, p: string)
    requires p in cache
  {
    && p in world && !world[p].fault.ReadStops?
    && cache[p] == Whole(parser, cache[p].provider, world[p].content, world[p].mtime)
  }

  ghost predicate AllMirror(parser: Parser, cache: Cache, world: World) {
    forall p | p in cache :: Mirrors(parser, cache, world, p)
  }

  predicate Appended(past: File, f: File) {
    |f.content| > |past.content| && EndsWithNewline(past.content) && past.content <= f.content
  }

  /** Reading does not fail where the cache would not have read, or would have read less. */
  predicate ReadAlike(past: File, f: File) {
    && (SameStamp(past, f) ==> !f.fault.ReadStops?)
    && (Appended(past, f) ==> f.fault.Sound?)
    && (|f.content| > |past.content| && EndsWithNewline(past.content) ==> !f.fault.TailUnreadable?)
  }

  /** From one world to a later one, every change to a file that could be read gives itself away. */
  ghost predicate Shows(before: World, world: World) {
    forall p | p in before && p in world && !before[p].fault.ReadStops? ::
      Noticed(before[p], world[p]) && ReadAlike(before[p], world[p])
  }

  /** An unchanged file always shows, and so does an append that can be read. */
  lemma HarmlessChangesShow(before: World, world: World)
    requires forall p | p in before && p in world ::
      world[p] == before[p] || (Appended(before[p], world[p]) && world[p].fault.Sound?)
    ensures Shows(before, world)
  {
  }

  /** The files already scanned are up to date, the others as they were. */
  ghost predicate Trust(parser: Parser, cache: Cache, before: World, world: World, done: set<string>) {
    forall p | p in cache :: if p in done then Mirrors(parser, cache, world, p) else Mirrors(parser, cache, before, p)
  }

  lemma {:induction false} AppendedIsWhole(parser: Parser, provider: Provider, seen: seq<Byte>, content: seq<Byte>)
    requires EndsWithNewline(seen) && seen <= content
    ensures Add(ReadAll(parser, provider, seen), ReadAll(parser, provider, content[|seen|..]))
            == ReadAll(parser, provider, content)
  {
    hide ReadAll, Add;
    ReadingDistributes(parser, provider, seen, content[|seen|..]);
    assert seen + content[|seen|..] == content;
  }

  /** One file against an entry that mirrors it, or mirrors its state before a change that shows. */
  lemma ContributesAfresh(parser: Parser, cache: Cache, past: File, provider: Provider, path: string, f: File)
    requires path in cache && cache[path] == Whole(parser, cache[path].provider, past.content, past.mtime)
    requires Noticed(past, f) && ReadAlike(past, f)
    ensures Contribution(parser, cache, provider, path, f) == FreshReading(parser, provider, f)
    ensures Hit(cache, provider, path, f) ==>
      f.content == past.content && f.mtime == past.mtime && !f.fault.ReadStops?
    ensures f.fault.Sound? ==> NewEntry(parser, cache, provider, path, f) == Whole(parser, provider, f.content, f.mtime)
    ensures NewEntry(parser, cache, provider, path, f).provider == provider
  {
    hide ReadAll, Add;
    if cache[path].provider == provider { WhatGoesUnnoticed(parser, past, provider, f); }
    if Resumes(cache, provider, path, f) { AppendedIsWhole(parser, provider, past.content, f.content); }
  }

  lemma OneKeepsTrust(
    parser: Parser, before: World, world: World, done: set<string>, provider: Provider, path: string, s: Scanned)
    requires Trust(parser, s.cache, before, world, done) && Shows(before, world)
    ensures var s' := ScanOne(parser, world, provider, path, s);
      && Trust(parser, s'.cache, before, world, done + {path})
      && s'.tally == if path in world then Count(s.tally, provider, FreshReading(parser, provider, world[path]))
                     else s.tally
  {
    hide Whole, FreshReading, Count, NewEntry, Contribution, Noticed, ReadAlike, Hit, Resumes;
    if path in s.cache && path in world {
      if path in done {
        MirroredShows(world[path]);
        ContributesAfresh(parser, s.cache, world[path], provider, path, world[path]);
      } else {
        ContributesAfresh(parser, s.cache, before[path], provider, path, world[path]);
      }
    } else if path in world {
      UncachedIsFresh(parser, s.cache, provider, path, world[path]);
    }
  }

  lemma MirroredShows(f: File)
    requires !f.fault.ReadStops?
    ensures Noticed(f, f) && ReadAlike(f, f)
  {
  }

  lemma UncachedIsFresh(parser: Parser, cache: Cache, provider: Provider, path: string, f: File)
    requires path !in cache
    ensures Contribution(parser, cache, provider, path, f) == FreshReading(parser, provider, f)
    ensures !Hit(cache, provider, path, f) && NewEntry(parser, cache, provider, path, f).provider == provider
    ensures NewEntry(parser, cache, provider, path, f) == Whole(parser, provider, f.content, f.mtime)
  {
  }

  lemma {:induction false} PathsKeepTrust(
    parser: Parser, before: World, world: World, done: set<string>, provider: Provider, paths: seq<string>, s: Scanned)
    requires Trust(parser, s.cache, before, world, done) && Shows(before, world)
    ensures var s' := ScanPaths(parser, world, provider, paths, s);
      && Trust(parser, s'.cache, before, world, done + set p | p in paths)
      && s'.tally == FreshTally(parser, world, provider, paths, s.tally)
    decreases |paths|
  {
    hide Trust, Shows, ScanOne;
    if paths == [] {
      assert done + (set p | p in paths) == done;
    } else {
      var front, last := paths[..|paths| - 1], paths[|paths| - 1];
      PathsKeepTrust(parser, before, world, done, provider, front, s);
      var s1 := ScanPaths(parser, world, provider, front, s);
      OneKeepsTrust(parser, before, world, done + (set p | p in front), provider, last, s1);
      assert paths == front + [last];
      assert (done + set p | p in front) + {last} == done + set p | p in paths;
    }
  }

  /** When every change since `before` shows, a scan reports what a scan with nothing cached would. */
  lemma CachedScanIsFresh(
    parser: Parser, loaded: Cache, before: World, world: World, claude: Listing, codex: Listing)
    requires AllMirror(parser, loaded, before) && Shows(before, world)
    ensures var s := CachedScan(parser, loaded, world, claude, codex);
      s.tally == FreshScan(parser, world, claude, codex) && AllMirror(parser, s.cache, world)
  {
    hide Shows, ScanPaths, FreshTally, Mirrors;
    var s := ScanListing(parser, world, Claude, claude, Scanned(loaded, EMPTY));
    var s' := ScanListing(parser, world, Codex, codex, s);
    assert Trust(parser, s.cache, before, world, Paths(claude)) by {
      if claude.Listed? {
        PathsKeepTrust(parser, before, world, {}, Claude, claude.paths, Scanned(loaded, EMPTY));
        assert {} + Paths(claude) == Paths(claude);
      }
    }
    assert Trust(parser, s'.cache, before, world, Paths(claude) + Paths(codex)) by {
      if codex.Listed? {
        PathsKeepTrust(parser, before, world, Paths(claude), Codex, codex.paths, s);
      } else {
        assert Paths(claude) + {} == Paths(claude);
      }
    }
    assert s.tally == FreshListing(parser, world, Claude, claude, EMPTY) by {
      if claude.Listed? { PathsKeepTrust(parser, before, world, {}, Claude, claude.paths, Scanned(loaded, EMPTY)); }
    }
    assert s'.tally == FreshListing(parser, world, Codex, codex, s.tally) by {
      if codex.Listed? { PathsKeepTrust(parser, before, world, Paths(claude), Codex, codex.paths, s); }
    }
    forall p | p in KeepOnly(s'.cache, Paths(claude) + Paths(codex))
      ensures Mirrors(parser, KeepOnly(s'.cache, Paths(claude) + Paths(codex)), world, p)
    {
      KeptMirrors(parser, s'.cache, world, Paths(claude) + Paths(codex), p);
    }
  }

  lemma KeptMirrors(parser: Parser, cache: Cache, world: World, keep: set<string>, p: string)
    requires p in cache && p in keep
    ensures Mirrors(parser, cache, world, p) ==> Mirrors(parser, KeepOnly(cache, keep), world, p)
  {
  }

  // ------------------------------------------------------- a history of scans --

  datatype LoadStatus = Healthy | Missing | Corrupt | Stale

  /** One scan: what became of the saved index, the files, and whether the index can be saved. */
  datatype Round = Round(load: LoadStatus, world: World, claude: Listing, codex: Listing, writable: bool)

  function LoadedCache(load: LoadStatus, stored: Cache): Cache {
    if load.Healthy? then stored else map[]
  }

  function RoundScan(parser: Parser, stored: Cache, r: Round): Scanned {
    CachedScan(parser, LoadedCache(r.load, stored), r.world, r.claude, r.codex)
  }

  /** The saved index before round i. */
  function StoredBefore(parser: Parser, stored: Cache, rounds: seq<Round>, i: nat): Cache
    requires i <= |rounds|
  {
    if i == 0 then stored else
      var last := StoredBefore(parser, stored, rounds, i - 1);
      if rounds[i - 1].writable then RoundScan(parser, last, rounds[i - 1]).cache else last
  }

  /** The world of the last round before i that could save its index. */
  function WorldBefore(before: World, rounds: seq<Round>, i: nat): World
    requires i <= |rounds|
  {
    if i == 0 then before
    else if rounds[i - 1].writable then rounds[i - 1].world
    else WorldBefore(before, rounds, i - 1)
  }

  /** Until round i, every change shows against the last world that was saved. */
  ghost predicate ShowsUntil(before: World, rounds: seq<Round>, i: nat)
    requires i < |rounds|
  {
    forall j | 0 <= j <= i && rounds[j].load.Healthy? :: Shows(WorldBefore(before, rounds, j), rounds[j].world)
  }

  /** A scan of a lost or unusable index needs no assumption. */
  lemma RoundIsFresh(parser: Parser, stored: Cache, before: World, r: Round)
    requires r.load.Healthy? ==> AllMirror(parser, stored, before) && Shows(before, r.world)
    ensures var s := RoundScan(parser, stored, r);
      s.tally == FreshScan(parser, r.world, r.claude, r.codex) && AllMirror(parser, s.cache, r.world)
  {
    hide Shows, CachedScan, FreshScan;
    if r.load.Healthy? {
      CachedScanIsFresh(parser, stored, before, r.world, r.claude, r.codex);
    } else {
      assert Shows(map[], r.world) by { HarmlessChangesShow(map[], r.world); }
      CachedScanIsFresh(parser, map[], map[], r.world, r.claude, r.codex);
    }
  }

  /**
   After any history of appends, rewrites, deletions, lost indexes and failed saves in which
   every change shows, round i reports exactly what a scan with nothing cached would.
   */
  lemma {:induction false} HistoryIsFresh(parser: Parser, stored: Cache, before: World, rounds: seq<Round>, i: nat)
    requires AllMirror(parser, stored, before) && i < |rounds| && ShowsUntil(before, rounds, i)
    ensures AllMirror(parser, StoredBefore(parser, stored, rounds, i), WorldBefore(before, rounds, i))
    ensures var r := rounds[i];
      RoundScan(parser, StoredBefore(parser, stored, rounds, i), r).tally
      == FreshScan(parser, r.world, r.claude, r.codex)
  {
    hide AllMirror, Shows, RoundScan, FreshScan;
    if i > 0 {
      HistoryIsFresh(parser, stored, before, rounds, i - 1);
      var last := StoredBefore(parser, stored, rounds, i - 1);
      RoundIsFresh(parser, last, WorldBefore(before, rounds, i - 1), rounds[i - 1]);
    }
    RoundIsFresh(parser, StoredBefore(parser, stored, rounds, i), WorldBefore(before, rounds, i), rounds[i]);
  }

  /** A line "A" is malformed, any other is blank. */
  function Picky(provider: Provider, line: seq<Byte>): Verdict {
    if line == [65] then Malformed else Blank
  }

  const NOTED := File([65, 10], 7, Sound)
  const REWRITTEN := File([66, 10], 7, Sound)

  lemma OnePath(parser: Parser, world: World, provider: Provider, path: string, s: Scanned)
    ensures ScanPaths(parser, world, provider, [path], s) == ScanOne(parser, world, provider, path, s)
    ensures path in world ==>
      FreshTally(parser, world, provider, [path], s.tally)
      == Count(s.tally, provider, FreshReading(parser, provider, world[path]))
    ensures ScanPaths(parser, world, Codex, [], ScanPaths(parser, world, provider, [path], s))
            == ScanPaths(parser, world, provider, [path], s)
    ensures FreshTally(parser, world, Codex, [], FreshTally(parser, world, provider, [path], s.tally))
            == FreshTally(parser, world, provider, [path], s.tally)
  {
    hide Count, FreshReading, ScanOne;
    assert [path][..0] == [];
    assert ScanPaths(parser, world, provider, [], s) == s;
    assert FreshTally(parser, world, provider, [], s.tally) == s.tally;
  }

  lemma ScanOfOneFile(parser: Parser, loaded: Cache, world: World, path: string)
    requires loaded.Keys <= {path}
    ensures CachedScan(parser, loaded, world, Listed([path]), Listed([]))
            == ScanOne(parser, world, Claude, path, Scanned(loaded, EMPTY))
    ensures path in world ==>
      FreshScan(parser, world, Listed([path]), Listed([]))
      == Count(EMPTY, Claude, FreshReading(parser, Claude, world[path]))
  {
    hide Count, FreshReading, Contribution, NewEntry, Hit;
    var s := ScanOne(parser, world, Claude, path, Scanned(loaded, EMPTY));
    OnePath(parser, world, Claude, path, Scanned(loaded, EMPTY));
    assert ScanListing(parser, world, Claude, Listed([path]), Scanned(loaded, EMPTY)) == s;
    assert path in Paths(Listed([path]));
    assert KeepOnly(s.cache, Paths(Listed([path])) + Paths(Listed([]))) == s.cache;
  }

  /** A rewrite that keeps size and time is not reported: the second scan still counts the malformed line. */
  lemma RewriteGoesUnreported()
    ensures var listing := Listed(["a"]);
      var saved := CachedScan(Picky, map[], map["a" := NOTED], listing, Listed([])).cache;
      && CachedScan(Picky, saved, map["a" := REWRITTEN], listing, Listed([])).tally.claude.malformed == 1
      && FreshScan(Picky, map["a" := REWRITTEN], listing, Listed([])).claude.malformed == 0
  {
    hide ReadAll, CachedScan, FreshScan, Picky;
    TwoBytes(65);
    TwoBytes(66);
    ScanOfOneFile(Picky, map[], map["a" := NOTED], "a");
    var saved := CachedScan(Picky, map[], map["a" := NOTED], Listed(["a"]), Listed([])).cache;
    assert saved == map["a" := Whole(Picky, Claude, NOTED.content, NOTED.mtime)];
    ScanOfOneFile(Picky, saved, map["a" := REWRITTEN], "a");
  }

  lemma TwoBytes(b: Byte)
    requires b != NEWLINE && b != RETURN
    ensures ReadAll(Picky, Claude, [b, NEWLINE]) == OneLine(b)
  {
    hide *;
    var s := [b, NEWLINE];
    assert s[..1] == [b] && s[1 + 1..] == [];
    LineEndIs(s, 1);
    ReadHeadOf(Picky, Claude, s, 1);
    ReadsOneByte(b);
    AddIsAMonoid(OneLine(b), NOTHING, NOTHING);
  }

  function OneLine(b: Byte): Reading {
    Reading(Stats(1, 0, if b == 65 then 1 else 0, 0, 0), [])
  }

  lemma ReadsOneByte(b: Byte)
    requires b != RETURN
    ensures ReadLine(Picky, Claude, DropReturn([b])) == OneLine(b)
    ensures ReadAll(Picky, Claude, []) == NOTHING
  {
    hide LineEnd;
  }

  // ------------------------------------------------------------ saved entries --

  /** What loading an index demands of an entry. */
  predicate Acceptable(e: Entry) {
    && e.version == PARSER_VERSION && |e.tail| <= e.size
    && |e.reading.records| == e.reading.stats.records && e.reading.stats.unknown <= e.reading.stats.records
  }

  predicate AllAcceptable(cache: Cache) {
    forall p | p in cache :: Acceptable(cache[p])
  }

  lemma OneStaysAcceptable(parser: Parser, cache: Cache, world: World, provider: Provider, path: string)
    requires AllAcceptable(cache)
    ensures AllAcceptable(CacheAfter(parser, cache, world, provider, path))
  {
    hide ReadAll;
    if path in world {
      var content := world[path].content;
      RecordsAreCounted(parser, provider, content);
      if Resumes(cache, provider, path, world[path]) {
        RecordsAreCounted(parser, provider, content[cache[path].size..]);
      }
    }
  }

  lemma {:induction false} PathsStayAcceptable(
    parser: Parser, world: World, provider: Provider, paths: seq<string>, s: Scanned)
    requires AllAcceptable(s.cache)
    ensures AllAcceptable(ScanPaths(parser, world, provider, paths, s).cache)
    decreases |paths|
  {
    hide AllAcceptable, CacheAfter;
    if paths != [] {
      var front := paths[..|paths| - 1];
      PathsStayAcceptable(parser, world, provider, front, s);
      OneStaysAcceptable(parser, ScanPaths(parser, world, provider, front, s).cache, world, provider,
                         paths[|paths| - 1]);
    }
  }

  /** Whatever the files do between scans, what a scan saves is accepted when it is loaded again. */
  lemma SavedIndexIsAccepted(parser: Parser, loaded: Cache, world: World, claude: Listing, codex: Listing)
    requires AllAcceptable(loaded)
    ensures AllAcceptable(CachedScan(parser, loaded, world, claude, codex).cache)
  {
    hide Acceptable, ScanPaths;
    var s := ScanListing(parser, world, Claude, claude, Scanned(loaded, EMPTY));
    if claude.Listed? { PathsStayAcceptable(parser, world, Claude, claude.paths, Scanned(loaded, EMPTY)); }
    if codex.Listed? { PathsStayAcceptable(parser, world, Codex, codex.paths, s); }
  }

  // ---------------------------------------------------------------- forgetting --

  function Dropped(c: Cache, keep: set<string>): set<string> {
    c.Keys - keep
  }

  lemma KeepAll(c: Cache, active: set<string>)
    ensures KeepOnly(c, active + c.Keys) == c && Dropped(c, active + c.Keys) == {}
  {
  }

  lemma KeepOneLess(c: Cache, active: set<string>, rest: set<string>, path: string)
    requires path in rest && path in c
    ensures KeepOnly(c, active + (rest - {path})) ==
      if path in active then KeepOnly(c, active + rest) else KeepOnly(c, active + rest) - {path}
    ensures |Dropped(c, active + (rest - {path}))| == |Dropped(c, active + rest)| + if path in active then 0 else 1
  {
    if path in active {
      assert active + (rest - {path}) == active + rest;
    } else {
      assert Dropped(c, active + (rest - {path})) == Dropped(c, active + rest) + {path};
    }
  }

  lemma KeepingFewer(cache: Cache, keep: set<string>)
    ensures KeepOnly(cache, keep).Keys <= keep
    ensures |Dropped(cache, keep)| == 0 ==> KeepOnly(cache, keep) == cache
  {
    if |Dropped(cache, keep)| == 0 { assert cache.Keys <= keep; }
  }

  lemma NothingYet()
    ensures Balanced(Counts(0, 0, 0, 0, 0, 0, 0), [], 0)
  {
  }

  lemma DiscoveredIsApart(c: Counts, before: Counts, errors: seq<ScanError>, n: nat)
    requires Balanced(before, errors, n) && c == before.(discovered := c.discovered)
    ensures Balanced(c, errors, n)
  {
  }

  lemma RemovedIsApart(c: Counts, before: Counts, errors: seq<ScanError>, n: nat)
    requires Balanced(before, errors, n) && c == before.(removed := c.removed)
    ensures Balanced(c, errors, n)
  {
  }

  // ------------------------------------------------------------------- Index --

  datatype Status = Unchanged | Updated | Rebuilt(load: LoadStatus)

  class Index {
    const parser: Parser
    /** The saved index, and the one a scan works on. */
    var stored: Cache
    var cache: Cache
    var tally: Tally
    var counts: Counts
    var errors: seq<ScanError>
    var changed: bool

    constructor (parser: Parser)
      ensures this.parser == parser && stored == map[]
    {
      this.parser := parser;
      stored, cache, tally := map[], map[], EMPTY;
      counts := Counts(0, 0, 0, 0, 0, 0, 0);
      errors, changed := [], false;
    }

    /** The cache and the report so far. */
    function State(): Scanned
      reads this
    {
      Scanned(cache, tally)
    }

    /** Reads a file from `offset` on; when that fails the entry holds only what was read. */
    method ParseSourceFrom(provider: Provider, f: File, offset: nat) returns (entry: Entry, ok: bool)
      requires offset <= |f.content|
      ensures ok <==> f.fault.Sound?
      ensures ok ==> entry == Whole(parser, provider, f.content, f.mtime).(
                                reading := ReadAll(parser, provider, f.content[offset..]))
      ensures offset == 0 ==> entry.reading == FreshReading(parser, provider, f)
    {
      entry := Entry(provider, 0, 0, PARSER_VERSION, [], false, NOTHING);
      var readable := if f.fault.ReadStops? then Prefix(f.content, f.fault.after) else f.content;
      var reading := StreamFrom(parser, provider, readable, if offset < |readable| then offset else |readable|);
      entry := entry.(reading := reading);
      assert readable[0..] == readable;
      if !f.fault.Sound? { return entry, false; }
      entry := entry.(size := |f.content|, mtime := f.mtime,
                      tail := Tail(f.content, |f.content|), endsWithNewline := EndsWithNewline(f.content));
      ok := true;
    }

    /** The new entry for a file the cache does not match: the old one extended if the tail fits, or a full read. */
    method IndexSource(path: string, provider: Provider, f: File) returns (entry: Entry, grew: bool, ok: bool)
      requires !Hit(cache, provider, path, f)
      ensures ok <==> f.fault.Sound?
      ensures grew <==> Resumes(cache, provider, path, f) && ok
      ensures entry.reading == Contribution(parser, cache, provider, path, f)
      ensures ok ==> entry == NewEntry(parser, cache, provider, path, f)
    {
      if path in cache && AppendCandidate(cache[path], provider, f) {
        var cached := cache[path];
        if f.fault.TailUnreadable? { return Entry(provider, 0, 0, 0, [], false, NOTHING), false, false; }
        if TailMatches(cached, f) {
          var delta;
          delta, ok := ParseSourceFrom(provider, f, cached.size);
          if !ok { return Entry(provider, 0, 0, 0, [], false, NOTHING), false, false; }
          return delta.(reading := Add(cached.reading, delta.reading)), true, true;
        }
      }
      entry, ok := ParseSourceFrom(provider, f, 0);
      assert f.content[0..] == f.content;
      grew := false;
    }

    /** One file: served from the cache, extended, or read again. */
    method ScanSource(world: World, provider: Provider, path: string, ghost n: nat)
      requires Balanced(counts, errors, n)
      modifies this
      ensures stored == old(stored) && Balanced(counts, errors, n + 1)
      ensures counts == old(Counted(counts, cache, world, provider, path))
      ensures State() == ScanOne(parser, world, provider, path, old(State()))
      ensures !changed ==> !old(changed) && cache == old(cache)
    {
      hide CacheMatches, Resumes, Errors, Count, Balanced, NewEntry, Contribution;
      BalanceKept(counts, errors, n, path);
      if path !in world {
        counts := counts.(failed := counts.failed + 1);
        errors := errors + [ScanError(Stat, path)];
        if path in cache {
          changed := true;
        } else {
          assert cache - {path} == cache;
        }
        cache := cache - {path};
      } else if path in cache && CacheMatches(cache[path], provider, world[path]) {
        assert Contribution(parser, cache, provider, path, world[path]) == cache[path].reading by {
          HitsContributeTheirs(parser, cache, provider, path, world[path]);
        }
        counts := counts.(hits := counts.hits + 1);
        tally := Count(tally, provider, cache[path].reading);
      } else {
        ScanMiss(world, provider, path);
      }
    }

    /** A file the cache does not match. */
    method ScanMiss(world: World, provider: Provider, path: string)
      requires path in world && !Hit(cache, provider, path, world[path])
      modifies this
      ensures stored == old(stored)
      ensures counts == old(Counted(counts, cache, world, provider, path))
      ensures errors == if world[path].fault.Sound? then old(errors) else old(errors) + [ScanError(Stream, path)]
      ensures State() == ScanOne(parser, world, provider, path, old(State()))
      ensures changed
    {
      hide Hit, Resumes, Count, NewEntry, Contribution;
      var entry, grew, ok := IndexSource(path, provider, world[path]);
      tally := Count(tally, provider, entry.reading);
      changed := true;
      if !ok {
        counts := counts.(misses := counts.misses + 1, failed := counts.failed + 1);
        errors := errors + [ScanError(Stream, path)];
        cache := cache - {path};
        return;
      }
      cache := cache[path := entry];
      counts := if grew then counts.(misses := counts.misses + 1, appended := counts.appended + 1)
                else counts.(misses := counts.misses + 1, rebuilt := counts.rebuilt + 1);
    }

    /** One provider's files in the order they were discovered. */
    method ScanProvider(world: World, provider: Provider, listing: Listing)
      requires Balanced(counts, errors, counts.discovered)
      modifies this
      ensures Balanced(counts, errors, counts.discovered) && stored == old(stored)
      ensures counts.discovered == old(counts.discovered) + Found(listing) && counts.removed == old(counts.removed)
      ensures State() == ScanListing(parser, world, provider, listing, old(State()))
      ensures !changed ==> !old(changed) && cache == old(cache)
    {
      hide Errors, ScanOne, Balanced;
      BalanceKept(counts, errors, counts.discovered, "");
      if listing.Unlistable? {
        errors := errors + [ScanError(Discovery, "")];
        return;
      }
      ghost var before := counts.discovered;
      counts := counts.(discovered := counts.discovered + |listing.paths|);
      DiscoveredIsApart(counts, old(counts), errors, before);
      for i := 0 to |listing.paths|
        invariant stored == old(stored) && Balanced(counts, errors, before + i)
        invariant counts.discovered == before + |listing.paths| && counts.removed == old(counts.removed)
        invariant State() == ScanPaths(parser, world, provider, listing.paths[..i], old(State()))
        invariant !changed ==> !old(changed) && cache == old(cache)
      {
        ScanPathsStep(parser, world, provider, listing.paths, i, old(State()));
        ScanSource(world, provider, listing.paths[i], before + i);
      }
      assert listing.paths[..|listing.paths|] == listing.paths;
    }

    /** Forgets files that are no longer there. */
    method RemoveInactive(active: set<string>)
      modifies this`cache, this`counts, this`changed
      ensures cache == KeepOnly(old(cache), active)
      ensures counts == old(counts).(removed := old(counts).removed + |Dropped(old(cache), active)|)
      ensures changed <==> old(changed) || |Dropped(old(cache), active)| > 0
    {
      hide *;
      var rest := cache.Keys;
      KeepAll(cache, active);
      while rest != {}
        invariant rest <= old(cache).Keys
        invariant cache == KeepOnly(old(cache), active + rest)
        invariant counts == old(counts).(removed := old(counts).removed + |Dropped(old(cache), active + rest)|)
        invariant changed <==> old(changed) || |Dropped(old(cache), active + rest)| > 0
        decreases rest
      {
        var path :| path in rest;
        KeepOneLess(old(cache), active, rest, path);
        rest := rest - {path};
        if path !in active {
          cache := cache - {path};
          counts := counts.(removed := counts.removed + 1);
          changed := true;
        }
      }
      assert active + {} == active;
    }

    /** Both providers in turn, then the forgetting. */
    method Sweep(world: World, claude: Listing, codex: Listing)
      requires Balanced(counts, errors, 0) && counts.discovered == 0 && tally == EMPTY
      modifies this
      ensures stored == old(stored)
      ensures Balanced(counts, errors, counts.discovered) && counts.discovered == Found(claude) + Found(codex)
      ensures State() == CachedScan(parser, old(cache), world, claude, codex)
      ensures !changed ==> !old(changed) && cache == old(cache)
      ensures cache.Keys <= Paths(claude) + Paths(codex)
    {
      hide Errors, Balanced, ScanListing, Paths, Found, KeepOnly, Dropped;
      ScanProvider(world, Claude, claude);
      ScanProvider(world, Codex, codex);
      var active := Paths(claude) + Paths(codex);
      KeepingFewer(cache, active);
      ghost var before := counts;
      RemoveInactive(active);
      RemovedIsApart(counts, before, errors, counts.discovered);
    }

    /**
     A scan: its report and the new index are those of CachedScan, the counters balance, and
     the index is saved if it changed.  `status` is None when saving fails.
     */
    method Scan(load: LoadStatus, world: World, claude: Listing, codex: Listing, writable: bool)
      returns (status: Option<Status>)
      modifies this
      ensures Balanced(counts, errors, counts.discovered) && counts.discovered == Found(claude) + Found(codex)
      ensures State() == CachedScan(parser, LoadedCache(load, old(stored)), world, claude, codex)
      ensures cache.Keys <= Paths(claude) + Paths(codex)
      ensures !changed ==> load.Healthy? && cache == old(stored)
      ensures stored == if writable then cache else old(stored)
      ensures status == if !changed then Some(Unchanged)
                        else if !writable then None
                        else if load.Healthy? then Some(Updated) else Some(Rebuilt(load))
    {
      hide *;
      NothingYet();
      cache := LoadedCache(load, stored);
      ghost var loaded := cache;
      assert load.Healthy? ==> loaded == stored by { LoadedWhenHealthy(load, stored); }
      tally, errors := EMPTY, [];
      counts := Counts(0, 0, 0, 0, 0, 0, 0);
      changed := !load.Healthy?;
      Sweep(world, claude, codex);
      StateParts();
      if !changed { return Some(Unchanged); }
      if !writable { return None; }
      stored := cache;
      StateParts();
      status := if load.Healthy? then Some(Updated) else Some(Rebuilt(load));
    }

    /**
     Scan after scan: as long as every change shows against the last world that was saved,
     each reports exactly what a scan with nothing cached would.
     */
    method ScanAll(rounds: seq<Round>, ghost before: World) returns (reports: seq<Tally>)
      requires AllMirror(parser, stored, before)
      modifies this
      ensures |reports| == |rounds|
      ensures stored == StoredBefore(parser, old(stored), rounds, |rounds|)
      ensures forall i | 0 <= i < |rounds| && ShowsUntil(before, rounds, i) ::
        reports[i] == FreshScan(parser, rounds[i].world, rounds[i].claude, rounds[i].codex)
    {
      hide *;
      reports := [];
      NothingStoredYet(parser, stored, rounds);
      for i := 0 to |rounds|
        invariant |reports| == i
        invariant stored == StoredBefore(parser, old(stored), rounds, i)
        invariant forall j | 0 <= j < i && ShowsUntil(before, rounds, j) ::
          reports[j] == FreshScan(parser, rounds[j].world, rounds[j].claude, rounds[j].codex)
      {
        var r := rounds[i];
        StoredAfterRound(parser, old(stored), rounds, i);
        var status := Scan(r.load, r.world, r.claude, r.codex, r.writable);
        reports := reports + [tally];
        StateParts();
        if ShowsUntil(before, rounds, i) { HistoryIsFresh(parser, old(stored), before, rounds, i); }
      }
    }

    lemma StateParts()
      ensures State() == Scanned(cache, tally)
    {
    }
  }

  lemma HitsContributeTheirs(parser: Parser, cache: Cache, provider: Provider, path: string, f: File)
    requires Hit(cache, provider, path, f)
    ensures Contribution(parser, cache, provider, path, f) == cache[path].reading
  {
  }

  lemma LoadedWhenHealthy(load: LoadStatus, stored: Cache)
    ensures load.Healthy? ==> LoadedCache(load, stored) == stored
  {
  }

  lemma NothingStoredYet(parser: Parser, stored: Cache, rounds: seq<Round>)
    ensures StoredBefore(parser, stored, rounds, 0) == stored
  {
  }

  lemma StoredAfterRound(parser: Parser, stored: Cache, rounds: seq<Round>, i: nat)
    requires i < |rounds|
    ensures var s, r := StoredBefore(parser, stored, rounds, i), rounds[i];
      && RoundScan(parser, s, r) == CachedScan(parser, LoadedCache(r.load, s), r.world, r.claude, r.codex)
      && StoredBefore(parser, stored, rounds, i + 1) == if r.writable then RoundScan(parser, s, r).cache else s
  {
    hide CachedScan;
  }
}
