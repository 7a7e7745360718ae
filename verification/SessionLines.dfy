/**
 Reading a session log line by line (internal/sessionlog/stream.go), and why what has
 been read up to the end of a line may be kept when more is appended.
 */
module SessionLines {
  newtype Byte = b: int | 0 <= b < 256

  const NEWLINE: Byte := 10
  const RETURN: Byte := 13
  const MAX_RECORD_BYTES := 16 * 1024 * 1024

  datatype Provider = Claude | Codex

  datatype Record = Record(timestamp: string, kind: string, tool: string, command: string, subcommand: string)

  /** What normalising one line yields; Blank is a line of white space. */
  datatype Verdict = Blank | Malformed | Parsed(record: Record, known: bool)

  type Parser = (Provider, seq<Byte>) -> Verdict

  datatype Stats = Stats(lines: nat, records: nat, malformed: nat, unknown: nat, oversized: nat)

  datatype Reading = Reading(stats: Stats, records: seq<Record>)

  const NOTHING := Reading(Stats(0, 0, 0, 0, 0), [])

  function AddStats(a: Stats, b: Stats): Stats {
    Stats(a.lines + b.lines, a.records + b.records, a.malformed + b.malformed, a.unknown + b.unknown,
          a.oversized + b.oversized)
  }

  function Add(a: Reading, b: Reading): Reading {
    Reading(AddStats(a.stats, b.stats), a.records + b.records)
  }

  lemma AddIsAMonoid(a: Reading, b: Reading, c: Reading)
    ensures Add(Add(a, b), c) == Add(a, Add(b, c)) && Add(a, NOTHING) == a == Add(NOTHING, a)
  {
    assert (a.records + b.records) + c.records == a.records + (b.records + c.records);
  }

  // ---------------------------------------------------------------- lines --

  /** The index of the first newline, or the length. */
  function LineEnd(s: seq<Byte>): (n: nat)
    ensures n <= |s| && (n < |s| ==> s[n] == NEWLINE)
    ensures forall i | 0 <= i < n :: s[i] != NEWLINE
  {
    if s == [] || s[0] == NEWLINE then 0 else 1 + LineEnd(s[1..])
  }

  /** A carriage return before the newline belongs to the line ending. */
  function DropReturn(line: seq<Byte>): seq<Byte> {
    if line != [] && line[|line| - 1] == RETURN then line[..|line| - 1] else line
  }

  /** What one line without its ending contributes. */
  function ReadLine(parser: Parser, provider: Provider, line: seq<Byte>): Reading {
    if line == [] then NOTHING
    else if |line| > MAX_RECORD_BYTES then Reading(Stats(1, 0, 0, 0, 1), [])
    else match parser(provider, line)
      case Blank => Reading(Stats(1, 0, 0, 0, 0), [])
      case Malformed => Reading(Stats(1, 0, 1, 0, 0), [])
      case Parsed(record, known) => Reading(Stats(1, 1, 0, if known then 0 else 1, 0), [record])
  }

  /** What a whole stream contributes. */
  function ReadAll(parser: Parser, provider: Provider, s: seq<Byte>): Reading
    decreases |s|
  {
    if s == [] then NOTHING else
      var n := LineEnd(s);
      if n == |s| then ReadLine(parser, provider, s)
      else Add(ReadLine(parser, provider, DropReturn(s[..n])), ReadAll(parser, provider, s[n + 1..]))
  }

  predicate EndsWithNewline(s: seq<Byte>) {
    s != [] && s[|s| - 1] == NEWLINE
  }

  lemma {:induction false} LineEndOfPrefix(a: seq<Byte>, b: seq<Byte>)
    requires LineEnd(a) < |a|
    ensures LineEnd(a + b) == LineEnd(a)
  {
    if a[0] != NEWLINE {
      LineEndOfPrefix(a[1..], b);
      assert (a + b)[1..] == a[1..] + b;
    }
  }

  lemma LineEndIs(s: seq<Byte>, n: nat)
    requires n <= |s| && (forall i | 0 <= i < n :: s[i] != NEWLINE) && (n < |s| ==> s[n] == NEWLINE)
    ensures LineEnd(s) == n
  {
  }

  lemma ReadHead(parser: Parser, provider: Provider, s: seq<Byte>)
    requires EndsWithNewline(s)
    ensures LineEnd(s) < |s|
    ensures ReadAll(parser, provider, s) ==
      Add(ReadLine(parser, provider, DropReturn(s[..LineEnd(s)])), ReadAll(parser, provider, s[LineEnd(s) + 1..]))
  {
    hide ReadLine, Add, DropReturn;
    assert s[|s| - 1] == NEWLINE;
  }

  lemma ReadHeadOf(parser: Parser, provider: Provider, s: seq<Byte>, n: nat)
    requires n < |s| && LineEnd(s) == n
    ensures ReadAll(parser, provider, s) ==
      Add(ReadLine(parser, provider, DropReturn(s[..n])), ReadAll(parser, provider, s[n + 1..]))
  {
    hide ReadLine, Add, DropReturn;
  }

  lemma SplitSum(a: seq<Byte>, b: seq<Byte>, n: nat)
    requires n < |a|
    ensures (a + b)[..n] == a[..n] && (a + b)[n + 1..] == a[n + 1..] + b
    ensures EndsWithNewline(a) ==> a[n + 1..] == [] || EndsWithNewline(a[n + 1..])
  {
  }

  /** Reading a stream that stopped at the end of a line and later the rest is reading all of it. */
  lemma {:induction false} ReadingDistributes(parser: Parser, provider: Provider, a: seq<Byte>, b: seq<Byte>)
    requires a == [] || EndsWithNewline(a)
    ensures ReadAll(parser, provider, a + b) == Add(ReadAll(parser, provider, a), ReadAll(parser, provider, b))
    decreases |a|
  {
    hide ReadLine, Add, DropReturn, LineEnd;
    if a == [] {
      assert a + b == b;
      AddIsAMonoid(ReadAll(parser, provider, b), NOTHING, NOTHING);
    } else {
      ReadHead(parser, provider, a);
      var n := LineEnd(a);
      LineEndOfPrefix(a, b);
      ReadHeadOf(parser, provider, a + b, n);
      var head, rest := a[..n], a[n + 1..];
      SplitSum(a, b, n);
      ReadingDistributes(parser, provider, rest, b);
      AddIsAMonoid(ReadLine(parser, provider, DropReturn(head)), ReadAll(parser, provider, rest),
                   ReadAll(parser, provider, b));
    }
  }

  /** Without the newline the second part may finish a line the first part left open. */
  lemma OpenLineDoesNotDistribute(parser: Parser, record: Record)
    requires parser(Claude, [1, 2]) == Parsed(record, true)
    requires parser(Claude, [1]) == Malformed && parser(Claude, [2]) == Malformed
    ensures ReadAll(parser, Claude, [1] + [2]) != Add(ReadAll(parser, Claude, [1]), ReadAll(parser, Claude, [2]))
  {
    hide LineEnd;
    var whole: seq<Byte>, left: seq<Byte>, right: seq<Byte> := [1, 2], [1], [2];
    assert left + right == whole;
    LineEndIs(whole, 2);
    LineEndIs(left, 1);
    LineEndIs(right, 1);
    assert ReadAll(parser, Claude, whole).stats.malformed == 0;
    assert ReadAll(parser, Claude, left).stats.malformed == 1;
  }

  lemma RecordsAreCounted(parser: Parser, provider: Provider, s: seq<Byte>)
    ensures var r := ReadAll(parser, provider, s); |r.records| == r.stats.records && r.stats.unknown <= r.stats.records
    decreases |s|
  {
    if s != [] && LineEnd(s) < |s| {
      RecordsAreCounted(parser, provider, s[LineEnd(s) + 1..]);
    }
  }

  /** One turn of the reader's loop, with the line in s[from..to]. */
  lemma ReadStep(parser: Parser, provider: Provider, s: seq<Byte>, from: nat, to: nat)
    requires from <= to <= |s| && from < |s|
    requires (forall i | from <= i < to :: s[i] != NEWLINE) && (to < |s| ==> s[to] == NEWLINE)
    ensures ReadAll(parser, provider, s[from..]) ==
      if to < |s| then Add(ReadLine(parser, provider, DropReturn(s[from..to])), ReadAll(parser, provider, s[to + 1..]))
      else ReadLine(parser, provider, s[from..])
  {
    hide LineEnd, ReadLine, Add, AddStats, DropReturn;
    var t := s[from..];
    LineEndIs(t, to - from);
    if to < |s| {
      assert t[..to - from] == s[from..to];
      assert t[to - from + 1..] == s[to + 1..];
    }
  }

  method FindNewline(s: seq<Byte>, from: nat) returns (to: nat)
    requires from <= |s|
    ensures from <= to <= |s| && (to < |s| ==> s[to] == NEWLINE)
    ensures forall i | from <= i < to :: s[i] != NEWLINE
  {
    to := from;
    while to < |s| && s[to] != NEWLINE
      invariant from <= to <= |s| && forall i | from <= i < to :: s[i] != NEWLINE
    {
      to := to + 1;
    }
  }

  /** The reader's loop: line after line from `offset`, counting as it goes. */
  method StreamFrom(parser: Parser, provider: Provider, s: seq<Byte>, offset: nat) returns (r: Reading)
    requires offset <= |s|
    ensures r == ReadAll(parser, provider, s[offset..])
  {
    hide ReadLine, Add, AddStats, LineEnd, DropReturn;
    r := NOTHING;
    var pos := offset;
    AddIsAMonoid(ReadAll(parser, provider, s[offset..]), NOTHING, NOTHING);
    while pos < |s|
      invariant offset <= pos <= |s|
      invariant Add(r, ReadAll(parser, provider, s[pos..])) == ReadAll(parser, provider, s[offset..])
    {
      var to := FindNewline(s, pos);
      ReadStep(parser, provider, s, pos, to);
      if to < |s| {
        var line := ReadLine(parser, provider, DropReturn(s[pos..to]));
        AddIsAMonoid(r, line, ReadAll(parser, provider, s[to + 1..]));
        r := Add(r, line);
        pos := to + 1;
      } else {
        var line := ReadLine(parser, provider, s[pos..]);
        AddIsAMonoid(Add(r, line), NOTHING, NOTHING);
        r := Add(r, line);
        pos := |s|;
        assert s[pos..] == [];
      }
    }
    assert s[pos..] == [];
    AddIsAMonoid(r, NOTHING, NOTHING);
  }
}
