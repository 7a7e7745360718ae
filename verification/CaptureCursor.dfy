/**
 Incremental pane capture (cmd/tmact/capture_cursor.go): a cursor remembers the hashes of
 the last rows seen, and the next capture reports only what follows them, or declares a
 reset and reports everything.
 */
module CaptureCursor {
  import opened Common

  const MAX_ROWS := 128

  type Hash = string -> int

  datatype PaneInfo = PaneInfo(pane: string, history: int)

  datatype Cursor = Cursor(pane: string, requested: int, nonEmpty: bool, history: int, hashes: seq<int>)

  datatype Reason = Mismatch | HistoryRolled | Ambiguous | Unreconciled

  /** A reset carries the full text. */
  datatype Delta = Delta(text: string, reset: Option<Reason>)

  ghost predicate Injective(hash: Hash) {
    forall a, b | hash(a) == hash(b) :: a == b
  }

  // ------------------------------------------------------------------- rows --

  function LineBreak(text: string): (n: nat)
    ensures n <= |text| && (n < |text| ==> text[n] == '\n')
    ensures forall i | 0 <= i < n :: text[i] != '\n'
  {
    if text == "" || text[0] == '\n' then 0 else 1 + LineBreak(text[1..])
  }

  /** The lines of a text, each with its newline. */
  function Rows(text: string): seq<string>
    decreases |text|
  {
    if text == "" then [] else
      var n := LineBreak(text);
      if n == |text| then [text] else [text[..n + 1]] + Rows(text[n + 1..])
  }

  function Concat(rows: seq<string>): string {
    if rows == [] then "" else rows[0] + Concat(rows[1..])
  }

  lemma {:induction false} RowsMakeTheText(text: string)
    ensures Concat(Rows(text)) == text
    ensures forall i | 0 <= i < |Rows(text)| :: Rows(text)[i] != ""
    decreases |text|
  {
    if text != "" {
      var n := LineBreak(text);
      if n == |text| {
        assert Rows(text)[1..] == [];
      } else {
        RowsMakeTheText(text[n + 1..]);
        assert Rows(text)[1..] == Rows(text[n + 1..]);
        assert text[..n + 1] + text[n + 1..] == text;
      }
    }
  }

  lemma {:induction false} ConcatDistributes(a: seq<string>, b: seq<string>)
    ensures Concat(a + b) == Concat(a) + Concat(b)
  {
    if a == [] {
      assert a + b == b;
    } else {
      ConcatDistributes(a[1..], b);
      assert (a + b)[1..] == a[1..] + b;
    }
  }

  /** Different rests of the same non-empty rows are different texts. */
  lemma {:induction false} RestsDiffer(rows: seq<string>, i: nat, j: nat)
    requires i <= j <= |rows| && forall k | 0 <= k < |rows| :: rows[k] != ""
    ensures Concat(rows[i..]) == Concat(rows[j..]) ==> i == j
  {
    ConcatDistributes(rows[i..j], rows[j..]);
    assert rows[i..j] + rows[j..] == rows[i..];
    if i < j { assert Concat(rows[i..j]) == rows[i] + Concat(rows[i..j][1..]); }
  }

  lemma LineBreakIs(text: string, n: nat)
    requires n <= |text| && (forall i | 0 <= i < n :: text[i] != '\n') && (n < |text| ==> text[n] == '\n')
    ensures LineBreak(text) == n
  {
  }

  lemma RowsStep(text: string, n: nat)
    requires n < |text| && text[n] == '\n' && forall i | 0 <= i < n :: text[i] != '\n'
    ensures Rows(text) == [text[..n + 1]] + Rows(text[n + 1..])
  {
    LineBreakIs(text, n);
  }

  /** The splitting loop, which eats the text from the front. */
  method SplitRows(text: string) returns (rows: seq<string>)
    ensures rows == Rows(text)
  {
    rows := [];
    var rest := text;
    while rest != ""
      invariant rows + Rows(rest) == Rows(text)
      decreases |rest|
    {
      var n := 0;
      while n < |rest| && rest[n] != '\n'
        invariant n <= |rest| && forall i | 0 <= i < n :: rest[i] != '\n'
      {
        n := n + 1;
      }
      if n == |rest| {
        LineBreakIs(rest, n);
        return rows + [rest];
      }
      RowsStep(rest, n);
      rows, rest := rows + [rest[..n + 1]], rest[n + 1..];
    }
  }

  function Hashes(hash: Hash, rows: seq<string>): (r: seq<int>)
    ensures |r| == |rows| && forall i | 0 <= i < |r| :: r[i] == hash(rows[i])
  {
    seq(|rows|, i requires 0 <= i < |rows| => hash(rows[i]))
  }

  function Last(rows: seq<string>, n: nat): seq<string> {
    if |rows| > n then rows[|rows| - n..] else rows
  }

  method NewCursor(hash: Hash, info: PaneInfo, requested: int, nonEmpty: bool, text: string) returns (c: Cursor)
    ensures c == Cursor(info.pane, requested, nonEmpty, info.history, Hashes(hash, Last(Rows(text), MAX_ROWS)))
  {
    var rows := SplitRows(text);
    if |rows| > MAX_ROWS {
      rows := rows[|rows| - MAX_ROWS..];
    }
    c := Cursor(info.pane, requested, nonEmpty, info.history, Hashes(hash, rows));
  }

  // ---------------------------------------------------------------- matches --

  predicate OccursAt<T(==)>(s: seq<T>, pattern: seq<T>, i: int) {
    0 <= i && i + |pattern| <= |s| && s[i..i + |pattern|] == pattern
  }

  predicate Occurs<T(==)>(s: seq<T>, pattern: seq<T>) {
    exists i | 0 <= i <= |s| :: OccursAt(s, pattern, i)
  }

  ghost predicate OccursOnlyAt<T>(s: seq<T>, pattern: seq<T>, i: int) {
    OccursAt(s, pattern, i) && forall j | OccursAt(s, pattern, j) :: j == i
  }

  function Suffix<T>(s: seq<T>, n: nat): seq<T>
    requires n <= |s|
  {
    s[|s| - n..]
  }

  /** The longest suffix of what was seen that occurs in what is seen now has n > 0 rows. */
  ghost predicate Longest<T>(before: seq<T>, now: seq<T>, n: nat) {
    && 0 < n <= |before| && Occurs(now, Suffix(before, n))
    && forall m: nat | n < m <= |before| :: !Occurs(now, Suffix(before, m))
  }

  method CountMatches(now: seq<int>, pattern: seq<int>) returns (start: int, count: nat)
    requires pattern != []
    ensures count == 0 <==> !Occurs(now, pattern)
    ensures count > 0 ==> OccursAt(now, pattern, start)
    ensures count == 1 ==> OccursOnlyAt(now, pattern, start)
    ensures count > 1 ==> !OccursOnlyAt(now, pattern, start)
  {
    start, count := -1, 0;
    var i := 0;
    while i + |pattern| <= |now|
      invariant 0 <= i
      invariant count == 0 ==> forall j | 0 <= j < i :: !OccursAt(now, pattern, j)
      invariant count > 0 ==> 0 <= start < i && OccursAt(now, pattern, start)
      invariant count == 1 ==> forall j | 0 <= j < i && OccursAt(now, pattern, j) :: j == start
      invariant count > 1 ==> exists j | 0 <= j < start :: OccursAt(now, pattern, j)
      decreases |now| - i
    {
      if now[i..i + |pattern|] == pattern {
        assert OccursAt(now, pattern, i);
        start, count := i, count + 1;
      }
      i := i + 1;
    }
  }

  /** What the capture reports, once the cursor is known to belong to the pane and nothing has rolled. */
  ghost predicate Reconciled(before: seq<int>, now: seq<int>, grown: bool, rows: seq<string>, text: string, d: Delta)
    requires |now| == |rows|
  {
    match d.reset
    case None =>
      if before == [] then d.text == text else
        exists n: nat, i :: Longest(before, now, n) && OccursOnlyAt(now, Suffix(before, n), i)
          && (n < |before| ==> grown) && d.text == Concat(rows[i + n..])
    case Some(Ambiguous) =>
      d.text == text && exists n: nat :: Longest(before, now, n) && forall i :: !OccursOnlyAt(now, Suffix(before, n), i)
    case Some(Unreconciled) =>
      && d.text == text && before != []
      && ((forall n: nat | 0 < n <= |before| :: !Occurs(now, Suffix(before, n)))
          || (!grown && exists n: nat, i ::
                n < |before| && Longest(before, now, n) && OccursOnlyAt(now, Suffix(before, n), i)))
    case _ => false
  }

  method IncrementalCapture(hash: Hash, c: Cursor, info: PaneInfo, requested: int, nonEmpty: bool, text: string)
    returns (d: Delta)
    ensures var fits := c.pane == info.pane && c.requested == requested && c.nonEmpty == nonEmpty;
      && (d == Delta(text, Some(Mismatch)) <==> !fits)
      && (d == Delta(text, Some(HistoryRolled)) <==> fits && info.history < c.history)
      && (fits && info.history >= c.history ==>
            Reconciled(c.hashes, Hashes(hash, Rows(text)), info.history > c.history, Rows(text), text, d))
  {
    if c.pane != info.pane || c.requested != requested || c.nonEmpty != nonEmpty {
      return Delta(text, Some(Mismatch));
    }
    if info.history < c.history {
      return Delta(text, Some(HistoryRolled));
    }
    var rows := SplitRows(text);
    var now := Hashes(hash, rows);
    if |c.hashes| == 0 {
      return Delta(text, None);
    }
    var overlap := if |c.hashes| < |now| then |c.hashes| else |now|;
    while overlap > 0
      invariant overlap <= |c.hashes| && overlap <= |now|
      invariant forall m: nat | overlap < m <= |c.hashes| :: !Occurs(now, Suffix(c.hashes, m))
    {
      var start, count := CountMatches(now, c.hashes[|c.hashes| - overlap..]);
      if count > 1 {
        MatchesRepeat(now, Suffix(c.hashes, overlap), start);
        assert Longest(c.hashes, now, overlap);
        return Delta(text, Some(Ambiguous));
      }
      if count == 1 {
        assert Longest(c.hashes, now, overlap) && OccursOnlyAt(now, Suffix(c.hashes, overlap), start);
        if overlap < |c.hashes| && info.history == c.history {
          return Delta(text, Some(Unreconciled));
        }
        return Delta(Concat(rows[start + overlap..]), None);
      }
      overlap := overlap - 1;
    }
    return Delta(text, Some(Unreconciled));
  }

  lemma MatchesRepeat(now: seq<int>, pattern: seq<int>, start: int)
    requires OccursAt(now, pattern, start) && !OccursOnlyAt(now, pattern, start)
    ensures forall i :: !OccursOnlyAt(now, pattern, i)
  {
  }

  // --------------------------------------------------------------- theorems --

  lemma LongestIsUnique(before: seq<int>, now: seq<int>, n: nat, m: nat)
    requires Longest(before, now, n) && Longest(before, now, m)
    ensures n == m
  {
  }

  /** With no collisions, rows match where their hashes match. */
  lemma HashesMatchWhereRowsMatch(hash: Hash, rows: seq<string>, pattern: seq<string>, i: int)
    requires Injective(hash)
    ensures OccursAt(Hashes(hash, rows), Hashes(hash, pattern), i) <==> OccursAt(rows, pattern, i)
  {
    var n := |pattern|;
    if 0 <= i && i + n <= |rows| {
      var part := Hashes(hash, rows)[i..i + n];
      if part == Hashes(hash, pattern) {
        forall k | 0 <= k < n ensures rows[i..i + n][k] == pattern[k] {
          assert part[k] == Hashes(hash, pattern)[k];
        }
      } else {
        assert exists k | 0 <= k < n :: part[k] != Hashes(hash, pattern)[k];
      }
    }
  }

  lemma HashesOfSuffix(hash: Hash, rows: seq<string>, n: nat)
    requires n <= |rows|
    ensures Suffix(Hashes(hash, rows), n) == Hashes(hash, Suffix(rows, n))
  {
  }

  /** Hashes reconcile exactly as the rows themselves would. */
  lemma HashesLoseNothing(hash: Hash, before: seq<string>, rows: seq<string>, n: nat)
    requires Injective(hash) && n <= |before|
    ensures Occurs(Hashes(hash, rows), Suffix(Hashes(hash, before), n)) <==> Occurs(rows, Suffix(before, n))
    ensures forall i ::
      OccursOnlyAt(Hashes(hash, rows), Suffix(Hashes(hash, before), n), i) <==> OccursOnlyAt(rows, Suffix(before, n), i)
  {
    HashesOfSuffix(hash, before, n);
    forall i
      ensures OccursAt(Hashes(hash, rows), Suffix(Hashes(hash, before), n), i) <==> OccursAt(rows, Suffix(before, n), i)
    {
      HashesMatchWhereRowsMatch(hash, rows, Suffix(before, n), i);
    }
  }

  lemma HashesKeepLongest(hash: Hash, before: seq<string>, rows: seq<string>, n: nat)
    requires Injective(hash)
    ensures Longest(Hashes(hash, before), Hashes(hash, rows), n) <==> Longest(before, rows, n)
  {
    forall m | 0 <= m <= |before|
      ensures Occurs(Hashes(hash, rows), Suffix(Hashes(hash, before), m)) <==> Occurs(rows, Suffix(before, m))
    {
      HashesLoseNothing(hash, before, rows, m);
    }
  }

  /**
   Rows the cursor knows are followed by `extra`: either all of them, after whatever lead,
   or, once the others have scrolled away, the last ones at the very top.  The delta is
   exactly `extra` if and only if those rows are the longest suffix of the cursor's rows to
   be found, are found only once, and are all the cursor's rows unless the history grew.
   */
  lemma KnownRowsThenExtra(
    hash: Hash, before: seq<string>, kept: nat, lead: seq<string>, extra: seq<string>, text: string, grown: bool,
    d: Delta)
    requires Injective(hash) && 0 < kept <= |before| && (kept == |before| || lead == [])
    requires Rows(text) == lead + Suffix(before, kept) + extra
    requires Reconciled(Hashes(hash, before), Hashes(hash, Rows(text)), grown, Rows(text), text, d)
    ensures d == Delta(Concat(extra), None) <==>
      && Longest(before, Rows(text), kept) && OccursOnlyAt(Rows(text), Suffix(before, kept), |lead|)
      && (kept < |before| ==> grown)
  {
    hide Rows, Concat, Hashes, Occurs, OccursOnlyAt, Longest, Reconciled;
    var rows, at := Rows(text), |lead|;
    assert rows[at..at + kept] == Suffix(before, kept) && rows[at + kept..] == extra;
    RowsMakeTheText(text);
    HashesKeepLongest(hash, before, rows, kept);
    HashesLoseNothing(hash, before, rows, kept);
    HashesOfSuffix(hash, before, kept);
    HashesMatchWhereRowsMatch(hash, rows, Suffix(before, kept), at);
    KnownCut(Hashes(hash, before), Hashes(hash, rows), rows, grown, text, kept, at, d);
  }

  /** The same in terms of the hashes alone. */
  lemma KnownCut(
    bs: seq<int>, now: seq<int>, rows: seq<string>, grown: bool, text: string, kept: nat, at: nat, d: Delta)
    requires |now| == |rows| && (forall k | 0 <= k < |rows| :: rows[k] != "")
    requires 0 < kept <= |bs| && (kept == |bs| || at == 0) && OccursAt(now, Suffix(bs, kept), at)
    requires Reconciled(bs, now, grown, rows, text, d)
    ensures d == Delta(Concat(rows[at + kept..]), None) <==>
      Longest(bs, now, kept) && OccursOnlyAt(now, Suffix(bs, kept), at) && (kept < |bs| ==> grown)
  {
    hide Concat;
    assert Occurs(now, Suffix(bs, kept));
    if d.reset.None? {
      var n: nat, i :| Longest(bs, now, n) && OccursOnlyAt(now, Suffix(bs, n), i) && (n < |bs| ==> grown)
        && d.text == Concat(rows[i + n..]);
      RestsAreEqual(rows, i + n, at + kept);
      if Longest(bs, now, kept) { LongestIsUnique(bs, now, n, kept); }
    } else if Longest(bs, now, kept) && OccursOnlyAt(now, Suffix(bs, kept), at) {
      forall n | Longest(bs, now, n) ensures n == kept { LongestIsUnique(bs, now, n, kept); }
    }
  }

  lemma RestsAreEqual(rows: seq<string>, i: nat, j: nat)
    requires i <= |rows| && j <= |rows| && forall k | 0 <= k < |rows| :: rows[k] != ""
    ensures Concat(rows[i..]) == Concat(rows[j..]) <==> i == j
  {
    if i <= j { RestsDiffer(rows, i, j); } else { RestsDiffer(rows, j, i); }
  }

  lemma SplitSum(a: string, b: string, n: nat)
    requires n < |a|
    ensures (a + b)[..n + 1] == a[..n + 1] && (a + b)[n + 1..] == a[n + 1..] + b
    ensures a[n + 1..] == "" || a[n + 1..][|a[n + 1..]| - 1] == a[|a| - 1]
  {
  }

  lemma EmptyHasNoRows()
    ensures Rows("") == []
  {
  }

  lemma AppendAssociates(a: seq<string>, b: seq<string>, c: seq<string>)
    ensures a + (b + c) == a + b + c
  {
  }

  lemma RowsOfSum(first: string, more: string, n: nat)
    requires n < |first| && first[n] == '\n' && forall i | 0 <= i < n :: first[i] != '\n'
    ensures Rows(first + more) == [first[..n + 1]] + Rows(first[n + 1..] + more)
  {
    hide Rows, LineBreak;
    SplitSum(first, more, n);
    RowsStep(first + more, n);
  }

  /** A text that ends a line, with more text after it. */
  lemma {:induction false} RowsAppend(first: string, more: string)
    requires first == "" || first[|first| - 1] == '\n'
    ensures Rows(first + more) == Rows(first) + Rows(more)
    decreases |first|
  {
    hide LineBreak, Rows;
    EmptyHasNoRows();
    if first == "" {
      assert first + more == more;
    } else {
      assert first[|first| - 1] == '\n';
      var n := LineBreak(first);
      var rest := first[n + 1..];
      SplitSum(first, more, n);
      RowsAppend(rest, more);
      RowsOfSum(first, more, n);
      RowsStep(first, n);
      AppendAssociates([first[..n + 1]], Rows(rest), Rows(more));
    }
  }

  /**
   A cursor taken of `first`, then a capture of `first` and `more` (with `first` ending a
   line and no hash collisions): the delta is exactly `more`, or the reset says that the
   rows the cursor remembers are ambiguous, which happens just when they occur elsewhere too.
   */
  lemma NothingIsLostOrRepeated(hash: Hash, c: Cursor, first: string, more: string, grown: bool, d: Delta)
    requires Injective(hash) && (first == "" || first[|first| - 1] == '\n')
    requires c.hashes == Hashes(hash, Last(Rows(first), MAX_ROWS))
    requires Reconciled(c.hashes, Hashes(hash, Rows(first + more)), grown, Rows(first + more), first + more, d)
    ensures var known := Last(Rows(first), MAX_ROWS); var at := |Rows(first)| - |known|;
      d == if first == "" || OccursOnlyAt(Rows(first + more), known, at) then Delta(more, None)
           else Delta(first + more, Some(Ambiguous))
  {
    hide Concat, Reconciled, Hashes, OccursOnlyAt, Longest, LineBreak;
    RowsAppend(first, more);
    RowsMakeTheText(more);
    if first == "" {
      assert first + more == more;
      NothingKnown(hash, c, more, grown, d);
    } else {
      var all, known := Rows(first), Last(Rows(first), MAX_ROWS);
      var lead := all[..|all| - |known|];
      assert all != [] && Suffix(known, |known|) == known && all == lead + known;
      AllKnown(hash, known, lead, Rows(more), first + more, grown, d);
    }
  }

  lemma NothingKnown(hash: Hash, c: Cursor, text: string, grown: bool, d: Delta)
    requires c.hashes == [] && Reconciled(c.hashes, Hashes(hash, Rows(text)), grown, Rows(text), text, d)
    ensures d == Delta(text, None)
  {
  }

  /** The case of a cursor whose rows are all still there. */
  lemma AllKnown(
    hash: Hash, known: seq<string>, lead: seq<string>, extra: seq<string>, text: string, grown: bool, d: Delta)
    requires Injective(hash) && known != [] && Rows(text) == lead + known + extra
    requires Reconciled(Hashes(hash, known), Hashes(hash, Rows(text)), grown, Rows(text), text, d)
    ensures d == if OccursOnlyAt(Rows(text), known, |lead|) then Delta(Concat(extra), None)
                 else Delta(text, Some(Ambiguous))
  {
    hide Rows, Concat, Reconciled, Hashes, OccursOnlyAt;
    var n, rows := |known|, Rows(text);
    assert Suffix(known, n) == known;
    assert rows[|lead|..|lead| + n] == known;
    assert OccursAt(rows, known, |lead|) && Longest(known, rows, n);
    KnownRowsThenExtra(hash, known, n, lead, extra, text, grown, d);
    if !OccursOnlyAt(rows, known, |lead|) {
      AmbiguityIsDeclared(hash, known, rows, |lead|, text, grown, d);
    }
  }

  lemma AmbiguityIsDeclared(
    hash: Hash, known: seq<string>, rows: seq<string>, at: nat, text: string, grown: bool, d: Delta)
    requires Injective(hash) && known != [] && OccursAt(rows, known, at) && !OccursOnlyAt(rows, known, at)
    requires Reconciled(Hashes(hash, known), Hashes(hash, rows), grown, rows, text, d)
    ensures d == Delta(text, Some(Ambiguous))
  {
    var n := |known|;
    var hs, now := Hashes(hash, known), Hashes(hash, rows);
    assert Suffix(known, n) == known && Suffix(hs, n) == hs;
    HashesLoseNothing(hash, known, rows, n);
    HashesKeepLongest(hash, known, rows, n);
    assert Longest(known, rows, n);
    forall m | Longest(hs, now, m) ensures m == n { LongestIsUnique(hs, now, n, m); }
    HashesMatchWhereRowsMatch(hash, rows, known, at);
    MatchesRepeat(now, hs, at);
    assert Occurs(now, Suffix(hs, n));
  }

  /**
   Once rows have scrolled away, output that repeats them is swallowed without a reset:
   after the rows a, b the pane shows b, a, b, and the two new rows are not reported.
   */
  method ScrolledRepeatIsSwallowed(hash: Hash, info: PaneInfo, later: PaneInfo) returns (d: Delta)
    requires Injective(hash) && later.pane == info.pane && later.history > info.history
    ensures Rows("a\nb\n") == ["a\n", "b\n"] && Rows("b\na\nb\n") == ["b\n", "a\n", "b\n"]
    ensures d == Delta("", None)
  {
    hide Rows, Hashes, Reconciled, Occurs, OccursOnlyAt, Longest;
    ThreeRows();
    var c := NewCursor(hash, info, 3, false, "a\nb\n");
    d := IncrementalCapture(hash, c, later, 3, false, "b\na\nb\n");
    BothRowsAtTheEnd();
    AllKnown(hash, ["a\n", "b\n"], ["b\n"], [], "b\na\nb\n", true, d);
    assert Concat([]) == "";
  }

  lemma BothRowsAtTheEnd()
    ensures ["b\n", "a\n", "b\n"] == ["b\n"] + ["a\n", "b\n"] + []
    ensures OccursOnlyAt(["b\n", "a\n", "b\n"], ["a\n", "b\n"], 1)
  {
    var rows, pair := ["b\n", "a\n", "b\n"], ["a\n", "b\n"];
    assert rows[1..3] == pair;
    forall i | OccursAt(rows, pair, i) ensures i == 1 {
      assert rows[i..i + 2][0] == "a\n";
      assert rows[0] == "b\n" && "b\n"[0] != "a\n"[0];
    }
  }

  lemma ThreeRows()
    ensures Rows("a\nb\n") == ["a\n", "b\n"] && Rows("b\na\nb\n") == ["b\n", "a\n", "b\n"]
  {
    RowsStep("b\na\nb\n", 1);
    RowsStep("a\nb\n", 1);
    RowsStep("b\n", 1);
    assert "b\na\nb\n"[..2] == "b\n" && "b\na\nb\n"[2..] == "a\nb\n";
    assert "a\nb\n"[..2] == "a\n" && "a\nb\n"[2..] == "b\n";
    assert "b\n"[2..] == "";
    assert "b\n"[..2] == "b\n";
  }
}
