/**
 Bounded search over session logs (internal/logsearch/search.go): of all matches only the
 `limit` newest are held while streaming, and they are sorted once at the end.
 */
module LogSearch {
  import opened Common

  /** A timestamp; ZERO stands for a record without one. */
  type Time = int
  const ZERO: Time := 0

  datatype Record = Record(timestamp: Time, content: string)

  datatype Candidate = Candidate(record: Record, timestamp: Time, sequence: nat)

  predicate Newer(a: Candidate, b: Candidate) {
    if a.timestamp == b.timestamp then a.sequence > b.sequence
    else if a.timestamp == ZERO then false
    else if b.timestamp == ZERO then true
    else a.timestamp > b.timestamp
  }

  /** Newest first is a strict total order as long as no sequence number is used twice. */
  lemma NewerIsAStrictOrder(a: Candidate, b: Candidate, c: Candidate)
    ensures !Newer(a, a) && !(Newer(a, b) && Newer(b, a))
    ensures Newer(a, b) && Newer(b, c) ==> Newer(a, c)
    ensures a.sequence != b.sequence ==> Newer(a, b) || Newer(b, a)
    ensures a.timestamp == ZERO && b.timestamp != ZERO ==> Newer(b, a)
  {
  }

  // -------------------------------------------------- the simple form: sort all --

  predicate Sorted(s: seq<Candidate>) {
    forall i, j | 0 <= i < j < |s| :: Newer(s[i], s[j])
  }

  predicate Distinct(s: seq<Candidate>) {
    forall i, j | 0 <= i < j < |s| :: s[i].sequence != s[j].sequence
  }

  function Insert(s: seq<Candidate>, c: Candidate): (r: seq<Candidate>)
    ensures |r| == |s| + 1
  {
    if s == [] then [c]
    else if Newer(c, s[0]) then [c] + s
    else [s[0]] + Insert(s[1..], c)
  }

  function NewestFirst(s: seq<Candidate>): (r: seq<Candidate>)
    ensures |r| == |s|
  {
    if s == [] then [] else Insert(NewestFirst(s[..|s| - 1]), s[|s| - 1])
  }

  ghost function Members(s: seq<Candidate>): set<Candidate> {
    set c | c in s
  }

  lemma {:induction false} InsertKeepsSorted(s: seq<Candidate>, c: Candidate)
    requires Sorted(s) && forall x | x in s :: x.sequence != c.sequence
    ensures Sorted(Insert(s, c)) && Members(Insert(s, c)) == Members(s) + {c} && |Insert(s, c)| == |s| + 1
  {
    if s == [] {
    } else if Newer(c, s[0]) {
      forall j | 0 <= j < |s| ensures Newer(c, s[j]) {
        if j > 0 { NewerIsAStrictOrder(c, s[0], s[j]); }
      }
    } else {
      InsertKeepsSorted(s[1..], c);
      var t := Insert(s[1..], c);
      NewerIsAStrictOrder(s[0], c, c);
      forall j | 0 <= j < |t| ensures Newer(s[0], t[j]) {
        assert t[j] in Members(s[1..]) + {c};
      }
      assert Members(s) == Members(s[1..]) + {s[0]};
      assert Members([s[0]] + t) == Members(t) + {s[0]};
    }
  }

  lemma {:induction false} NewestFirstSorts(s: seq<Candidate>)
    requires Distinct(s)
    ensures Sorted(NewestFirst(s)) && Members(NewestFirst(s)) == Members(s) && |NewestFirst(s)| == |s|
  {
    if s != [] {
      var rest, last := s[..|s| - 1], s[|s| - 1];
      NewestFirstSorts(rest);
      forall x | x in NewestFirst(rest) ensures x.sequence != last.sequence {
        assert x in Members(rest);
      }
      InsertKeepsSorted(NewestFirst(rest), last);
      assert Members(s) == Members(rest) + {last};
    }
  }

  lemma {:induction false} SortedIsUnique(s: seq<Candidate>, t: seq<Candidate>)
    requires Sorted(s) && Sorted(t) && Members(s) == Members(t)
    ensures s == t
  {
    SortedHasNoRepeats(s);
    SortedHasNoRepeats(t);
    if s != [] {
      FirstIsNewest(s, t[0]);
      FirstIsNewest(t, s[0]);
      NewerIsAStrictOrder(s[0], t[0], s[0]);
      MembersOfRest(s);
      MembersOfRest(t);
      SortedIsUnique(s[1..], t[1..]);
      assert s == [s[0]] + s[1..] && t == [t[0]] + t[1..];
    }
  }

  lemma FirstIsNewest(s: seq<Candidate>, c: Candidate)
    requires Sorted(s) && s != []
    ensures c in Members(s) ==> c == s[0] || Newer(s[0], c)
    ensures s[0] in Members(s)
  {
  }

  lemma MembersOfRest(s: seq<Candidate>)
    requires Sorted(s) && s != []
    ensures Members(s[1..]) == Members(s) - {s[0]}
  {
    forall c | c in s[1..] ensures c != s[0] { NewerIsAStrictOrder(c, c, c); }
  }

  lemma {:induction false} SortedHasNoRepeats(s: seq<Candidate>)
    requires Sorted(s)
    ensures |Members(s)| == |s|
  {
    if s == [] {
      assert Members(s) == {};
    } else {
      MembersOfRest(s);
      SortedHasNoRepeats(s[1..]);
      assert s[0] in Members(s);
    }
  }

  // ------------------------------------------------ the fast form: keep `limit` --

  /** `kept` holds the newest of `all`, at most `limit` of them, in any order. */
  ghost predicate Holds(kept: seq<Candidate>, all: seq<Candidate>, limit: nat) {
    && Distinct(all) && Distinct(kept)
    && |kept| == (if |all| < limit then |all| else limit)
    && (forall c | c in kept :: c in all)
    && (forall c, k | c in all && c !in kept && k in kept :: Newer(k, c))
  }

  method KeepNewest(items: seq<Candidate>, item: Candidate, limit: nat, ghost all: seq<Candidate>)
    returns (kept: seq<Candidate>)
    requires limit > 0 && Holds(items, all, limit)
    requires forall c | c in all :: c.sequence != item.sequence
    ensures Holds(kept, all + [item], limit)
  {
    if |items| < limit {
      assert forall c | c in all :: c in items by { AllHeld(items, all, limit); }
      return items + [item];
    }
    var oldest := 0;
    for i := 1 to |items|
      invariant 0 <= oldest < i
      invariant forall j | 0 <= j < i && j != oldest :: Newer(items[j], items[oldest])
    {
      NewerIsAStrictOrder(items[oldest], items[i], items[i]);
      if Newer(items[oldest], items[i]) {
        forall j | 0 <= j < i ensures Newer(items[j], items[i]) {
          NewerIsAStrictOrder(items[j], items[oldest], items[i]);
        }
        oldest := i;
      }
    }
    if Newer(item, items[oldest]) {
      kept := items[oldest := item];
      ReplacingOldestHolds(items, item, limit, all, oldest);
    } else {
      kept := items;
      IgnoringOlderHolds(items, item, limit, all, oldest);
    }
  }

  lemma AllHeld(items: seq<Candidate>, all: seq<Candidate>, limit: nat)
    requires Holds(items, all, limit) && |items| < limit
    ensures forall c | c in all :: c in items
  {
    NewestFirstSorts(all);
    NewestFirstSorts(items);
    SortedHasNoRepeats(NewestFirst(all));
    SortedHasNoRepeats(NewestFirst(items));
    assert Members(items) <= Members(all);
    SubsetOfSameSize(Members(items), Members(all));
    forall c | c in all ensures c in items { assert c in Members(all); }
  }

  lemma SubsetOfSameSize(a: set<Candidate>, b: set<Candidate>)
    requires a <= b && |a| == |b|
    ensures a == b
  {
    assert |b - a| == |b| - |a|;
  }

  lemma ReplacingOldestHolds(items: seq<Candidate>, item: Candidate, limit: nat, all: seq<Candidate>, oldest: nat)
    requires Holds(items, all, limit) && oldest < |items| == limit && Newer(item, items[oldest])
    requires forall c | c in all :: c.sequence != item.sequence
    requires forall j | 0 <= j < |items| && j != oldest :: Newer(items[j], items[oldest])
    ensures Holds(items[oldest := item], all + [item], limit)
  {
    var kept := items[oldest := item];
    assert kept[oldest] == item;
    forall c, k | c in all + [item] && c !in kept && k in kept ensures Newer(k, c) {
      var j :| 0 <= j < |kept| && kept[j] == k;
      assert Newer(k, items[oldest]);
      if c in items {
        var i :| 0 <= i < |items| && items[i] == c;
        assert kept[i] == items[i] || i == oldest;
      } else {
        assert c in all && Newer(items[oldest], c);
        NewerIsAStrictOrder(k, items[oldest], c);
      }
    }
    forall i, j | 0 <= i < j < |kept| ensures kept[i].sequence != kept[j].sequence {
      assert items[i] in all && items[j] in all;
    }
  }

  lemma IgnoringOlderHolds(items: seq<Candidate>, item: Candidate, limit: nat, all: seq<Candidate>, oldest: nat)
    requires Holds(items, all, limit) && oldest < |items| == limit && !Newer(item, items[oldest])
    requires forall c | c in all :: c.sequence != item.sequence
    requires forall j | 0 <= j < |items| && j != oldest :: Newer(items[j], items[oldest])
    ensures Holds(items, all + [item], limit)
  {
    assert items[oldest] in all;
    NewerIsAStrictOrder(items[oldest], item, item);
    forall c, k | c in all + [item] && c !in items && k in items ensures Newer(k, c) {
      if c == item {
        var j :| 0 <= j < |items| && items[j] == k;
        NewerIsAStrictOrder(k, items[oldest], item);
      }
    }
  }

  // ------------------------------------------------------------- refinement --

  /** Sorting what was held is sorting everything and taking the first `limit`. */
  lemma HeldIsTheTop(kept: seq<Candidate>, all: seq<Candidate>, limit: nat)
    requires Holds(kept, all, limit)
    ensures NewestFirst(kept) == if |all| < limit then NewestFirst(all) else NewestFirst(all)[..limit]
  {
    NewestFirstSorts(kept);
    NewestFirstSorts(all);
    var top := NewestFirst(all)[..|kept|];
    forall i | 0 <= i < |top| ensures top[i] in kept { TopIsHeld(kept, all, limit, i); }
    SortedHasNoRepeats(top);
    SortedHasNoRepeats(NewestFirst(kept));
    assert Members(top) <= Members(kept);
    SubsetOfSameSize(Members(top), Members(kept));
    SortedIsUnique(top, NewestFirst(kept));
  }

  lemma TopIsHeld(kept: seq<Candidate>, all: seq<Candidate>, limit: nat, i: nat)
    requires Holds(kept, all, limit) && i < |kept|
    requires Sorted(NewestFirst(all)) && Members(NewestFirst(all)) == Members(all) && |NewestFirst(all)| == |all|
    ensures NewestFirst(all)[i] in kept
  {
    var s := NewestFirst(all);
    var c := s[i];
    assert c in Members(s);
    if c !in kept {
      forall k | k in kept ensures k in s[..i] {
        assert k in Members(all) && k in Members(s);
        var j :| 0 <= j < |s| && s[j] == k;
        NewerIsAStrictOrder(k, c, k);
      }
      NewestFirstSorts(kept);
      SortedHasNoRepeats(NewestFirst(kept));
      SortedHasNoRepeats(s[..i]);
      SubsetIsSmaller(Members(kept), Members(s[..i]));
      assert false;
    }
  }

  lemma SubsetIsSmaller(a: set<Candidate>, b: set<Candidate>)
    requires a <= b
    ensures |a| <= |b|
  {
    assert |b - a| == |b| - |a|;
  }

  // ----------------------------------------------------------------- search --

  /** All matches, numbered from 1 in the order in which they were met. */
  function Candidates(matches: Record -> bool, records: seq<Record>): seq<Candidate> {
    if records == [] then [] else
      var before := Candidates(matches, records[..|records| - 1]);
      var last := records[|records| - 1];
      if matches(last) then before + [Candidate(last, last.timestamp, |before| + 1)] else before
  }

  lemma {:induction false} CandidatesAreNumbered(matches: Record -> bool, records: seq<Record>)
    ensures var all := Candidates(matches, records);
      Distinct(all) && forall i | 0 <= i < |all| :: all[i].sequence == i + 1
  {
    if records != [] {
      CandidatesAreNumbered(matches, records[..|records| - 1]);
    }
  }

  function RecordsOf(s: seq<Candidate>): (r: seq<Record>)
    ensures |r| == |s| && forall i | 0 <= i < |r| :: r[i] == s[i].record
  {
    seq(|s|, i requires 0 <= i < |s| => s[i].record)
  }

  function Flatten(sources: seq<seq<Record>>): seq<Record> {
    if sources == [] then [] else Flatten(sources[..|sources| - 1]) + sources[|sources| - 1]
  }

  lemma NothingHeld(limit: nat)
    ensures Holds([], [], limit)
  {
  }

  datatype SearchError = BadLimit

  /** Streams every source, never holding more than `limit` candidates. */
  method Search(sources: seq<seq<Record>>, matches: Record -> bool, limit: int)
    returns (r: Result<seq<Record>, SearchError>)
    ensures limit <= 0 <==> r == Err(BadLimit)
    ensures limit > 0 ==>
      var all := NewestFirst(Candidates(matches, Flatten(sources)));
      r == Ok(RecordsOf(if |all| < limit then all else all[..limit]))
  {
    hide Holds, NewestFirst, Distinct, Newer;
    if limit <= 0 { return Err(BadLimit); }
    NothingHeld(limit);
    var kept: seq<Candidate>, sequence := [], 0;
    for i := 0 to |sources|
      invariant Holds(kept, Candidates(matches, Flatten(sources[..i])), limit)
      invariant sequence == |Candidates(matches, Flatten(sources[..i]))|
    {
      ghost var before := Flatten(sources[..i]);
      assert before + sources[i][..0] == before;
      for j := 0 to |sources[i]|
        invariant Holds(kept, Candidates(matches, before + sources[i][..j]), limit)
        invariant sequence == |Candidates(matches, before + sources[i][..j])|
      {
        var record := sources[i][j];
        ghost var all := Candidates(matches, before + sources[i][..j]);
        assert (before + sources[i][..j + 1])[..|before| + j] == before + sources[i][..j];
        if matches(record) {
          sequence := sequence + 1;
          CandidatesAreNumbered(matches, before + sources[i][..j]);
          kept := KeepNewest(kept, Candidate(record, record.timestamp, sequence), limit, all);
        }
      }
      assert sources[i][..|sources[i]|] == sources[i] && sources[..i + 1][..i] == sources[..i];
    }
    assert sources[..|sources|] == sources;
    ghost var all := Candidates(matches, Flatten(sources));
    HeldIsTheTop(kept, all, limit);
    r := Ok(RecordsOf(NewestFirst(kept)));
  }
}
