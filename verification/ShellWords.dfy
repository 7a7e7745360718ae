/**
 Printing arguments for a POSIX shell and splitting such a command again
 (cmd/tmact/ask_reply_cmd.go, internal/dispatch/run.go, cmd/tmact/loop_lifecycle_cmd.go).
 A character stands for one byte.
 */
module ShellWords {
  import opened Common

  // ---------------------------------------------------------------- quoting --

  predicate SafeChar(c: char) {
    'a' <= c <= 'z' || 'A' <= c <= 'Z' || '0' <= c <= '9' || c in "_@%+=:,./-"
  }

  /** The value with each ' written as '\'' (close the quotes, an escaped quote, open them again). */
  function Escaped(value: string): string {
    if value == "" then ""
    else (if value[0] == '\'' then "'\\''" else [value[0]]) + Escaped(value[1..])
  }

  /** shellQuote: always in single quotes. */
  function ShellQuote(value: string): string {
    "'" + Escaped(value) + "'"
  }

  predicate AllSafe(value: string) {
    forall c | c in value :: SafeChar(c)
  }

  /** quoteShellArg: bare when every character is harmless. */
  function QuoteShellArg(value: string): string {
    if value != "" && AllSafe(value) then value else ShellQuote(value)
  }

  datatype Style = Always | WhenNeeded

  function Quoted(style: Style, value: string): string {
    if style.Always? then ShellQuote(value) else QuoteShellArg(value)
  }

  /** A command line: the arguments, each printed in its own style, one space between them. */
  function Printed(args: seq<string>, style: nat -> Style): string {
    if args == [] then ""
    else if |args| == 1 then Quoted(style(0), args[0])
    else Quoted(style(0), args[0]) + " " + Printed(args[1..], (i: nat) => style(i + 1))
  }

  // -------------------------------------------------------------- splitting --

  predicate IsSpace(c: char) {
    c in " \t\n\r" || c == 11 as char || c == 12 as char
  }

  function TrimLeft(s: string): string {
    if s != "" && IsSpace(s[0]) then TrimLeft(s[1..]) else s
  }

  function TrimRight(s: string): string {
    if s != "" && IsSpace(s[|s| - 1]) then TrimRight(s[..|s| - 1]) else s
  }

  /** Without surrounding white space and without one pair of surrounding double quotes. */
  function Stripped(command: string): string {
    var s := TrimRight(TrimLeft(command));
    if |s| >= 2 && s[0] == '"' && s[|s| - 1] == '"' then s[1..|s| - 1] else s
  }

  function Flush(words: seq<string>, current: string): seq<string> {
    if current == "" then words else words + [current]
  }

  /** The words from here on, given the words so far, the word being read and the open quote. */
  function Scan(s: string, words: seq<string>, current: string, quote: Option<char>): seq<string>
    decreases |s|
  {
    if s == "" then Flush(words, current)
    else if quote.Some? then
      if s[0] == quote.value then Scan(s[1..], words, current, None)
      else if s[0] == '\\' && quote.value == '"' && |s| > 1 then Scan(s[2..], words, current + [s[1]], quote)
      else Scan(s[1..], words, current + [s[0]], quote)
    else if s[0] == '\'' || s[0] == '"' then Scan(s[1..], words, current, Some(s[0]))
    else if s[0] == '\\' then
      if |s| > 1 then Scan(s[2..], words, current + [s[1]], quote) else Scan(s[1..], words, current, quote)
    else if s[0] in " \t\r\n" then Scan(s[1..], Flush(words, current), "", quote)
    else Scan(s[1..], words, current + [s[0]], quote)
  }

  /** The words of a command. */
  function Split(command: string): seq<string> {
    Scan(Stripped(command), [], "", None)
  }

  /** splitShellWords, one byte at a time. */
  method SplitShellWords(command: string) returns (words: seq<string>)
    ensures words == Split(command)
  {
    var s := Stripped(command);
    words := [];
    var current, quote: Option<char>, i := "", None, 0;
    while i < |s|
      invariant 0 <= i <= |s| && Scan(s[i..], words, current, quote) == Split(command)
      decreases |s| - i
    {
      var c := s[i];
      assert s[i..][1..] == s[i + 1..];
      if i + 1 < |s| { assert s[i..][2..] == s[i + 2..]; }
      if quote.Some? {
        if c == quote.value {
          quote := None;
        } else if c == '\\' && quote.value == '"' && i + 1 < |s| {
          i := i + 1;
          current := current + [s[i]];
        } else {
          current := current + [c];
        }
      } else if c == '\'' || c == '"' {
        quote := Some(c);
      } else if c == '\\' {
        if i + 1 < |s| {
          i := i + 1;
          current := current + [s[i]];
        }
      } else if c in " \t\r\n" {
        if |current| > 0 {
          words := words + [current];
          current := "";
        }
      } else {
        current := current + [c];
      }
      i := i + 1;
    }
    assert s[i..] == "";
    if |current| > 0 {
      words := words + [current];
    }
  }

  // -------------------------------------------------------------- round trip --

  lemma ScanQuoteInside(more: string, words: seq<string>, current: string)
    ensures Scan(['\'', '\\', '\'', '\''] + more, words, current, Some('\''))
            == Scan(more, words, current + ['\''], Some('\''))
  {
    var a, b, c := ['\'', '\\', '\'', '\''] + more, ['\\', '\'', '\''] + more, ['\''] + more;
    assert a[1..] == b && b[2..] == c && c[1..] == more;
    assert Scan(a, words, current, Some('\'')) == Scan(b, words, current, None);
    assert Scan(b, words, current, None) == Scan(c, words, current + ['\''], None);
  }

  lemma {:induction false} ScanEscaped(value: string, rest: string, words: seq<string>, current: string)
    ensures Scan(Escaped(value) + "'" + rest, words, current, Some('\'')) == Scan(rest, words, current + value, None)
  {
    var s := Escaped(value) + "'" + rest;
    if value == "" {
      assert s[1..] == rest && current + value == current;
    } else {
      var more := Escaped(value[1..]) + "'" + rest;
      ScanEscaped(value[1..], rest, words, current + [value[0]]);
      assert current + [value[0]] + value[1..] == current + value;
      if value[0] == '\'' {
        assert s == ['\'', '\\', '\'', '\''] + more;
        ScanQuoteInside(more, words, current);
      } else {
        assert s == [value[0]] + more && s[1..] == more;
      }
    }
  }

  lemma {:induction false} ScanSafe(value: string, rest: string, words: seq<string>, current: string)
    requires AllSafe(value)
    ensures Scan(value + rest, words, current, None) == Scan(rest, words, current + value, None)
  {
    if value == "" {
      assert value + rest == rest && current + value == current;
    } else {
      assert SafeChar(value[0]);
      ScanSafe(value[1..], rest, words, current + [value[0]]);
      assert (value + rest)[1..] == value[1..] + rest;
      assert current + [value[0]] + value[1..] == current + value;
    }
  }

  /** A printed argument is read back as exactly that argument, whatever follows. */
  lemma ScanQuoted(style: Style, value: string, rest: string, words: seq<string>, current: string)
    ensures Scan(Quoted(style, value) + rest, words, current, None) == Scan(rest, words, current + value, None)
  {
    if style.WhenNeeded? && value != "" && AllSafe(value) {
      ScanSafe(value, rest, words, current);
    } else {
      var s := ShellQuote(value) + rest;
      assert s[1..] == Escaped(value) + "'" + rest;
      ScanEscaped(value, rest, words, current);
    }
  }

  function Kept(arg: string): seq<string> {
    if arg == "" then [] else [arg]
  }

  function NonEmpty(args: seq<string>): seq<string> {
    if args == [] then [] else Kept(args[0]) + NonEmpty(args[1..])
  }

  lemma ScanFirst(style: Style, value: string, more: string, words: seq<string>)
    ensures Scan(Quoted(style, value) + " " + more, words, "", None) == Scan(more, Flush(words, value), "", None)
    ensures Scan(Quoted(style, value), words, "", None) == Flush(words, value)
  {
    hide Quoted;
    var first := Quoted(style, value);
    assert first + " " + more == first + (" " + more) && (" " + more)[1..] == more;
    assert first + "" == first && "" + value == value;
    ScanQuoted(style, value, " " + more, words, "");
    ScanQuoted(style, value, "", words, "");
  }

  lemma FlushKeeps(words: seq<string>, value: string, rest: seq<string>)
    ensures Flush(words, value) + rest == words + (Kept(value) + rest)
    ensures Flush(words, value) == words + Kept(value)
  {
  }

  lemma {:induction false} ScanPrinted(args: seq<string>, style: nat -> Style, words: seq<string>)
    ensures Scan(Printed(args, style), words, "", None) == words + NonEmpty(args)
    decreases |args|
  {
    hide Quoted, Flush, Kept;
    if args == [] {
      assert words + [] == words;
      FlushKeeps(words, "", []);
      assert Flush(words, "") == words by { EmptyIsDropped(words); }
    } else {
      var more := Printed(args[1..], (i: nat) => style(i + 1));
      ScanFirst(style(0), args[0], more, words);
      FlushKeeps(words, args[0], NonEmpty(args[1..]));
      if |args| == 1 {
        assert NonEmpty(args[1..]) == [] && Kept(args[0]) + [] == Kept(args[0]);
      } else {
        ScanPrinted(args[1..], (i: nat) => style(i + 1), Flush(words, args[0]));
      }
    }
  }

  lemma EmptyIsDropped(words: seq<string>)
    ensures Flush(words, "") == words
  {
  }

  lemma QuotedEnds(style: Style, value: string)
    ensures var q := Quoted(style, value); q != "" && PlainEnd(q[0]) && PlainEnd(q[|q| - 1])
  {
    if style.WhenNeeded? && value != "" && AllSafe(value) {
      assert SafeChar(value[0]) && SafeChar(value[|value| - 1]);
    }
  }

  /** Neither trimmed nor taken for a surrounding double quote. */
  predicate PlainEnd(c: char) {
    SafeChar(c) || c == '\''
  }

  lemma {:induction false} PrintedEnds(args: seq<string>, style: nat -> Style)
    requires args != []
    ensures var p := Printed(args, style); p != "" && PlainEnd(p[0]) && PlainEnd(p[|p| - 1])
    decreases |args|
  {
    QuotedEnds(style(0), args[0]);
    if |args| > 1 { PrintedEnds(args[1..], (i: nat) => style(i + 1)); }
  }

  /** Splitting a printed command gives back exactly the arguments that are not empty, for all strings. */
  lemma SplitUndoesPrinting(args: seq<string>, style: nat -> Style)
    ensures Split(Printed(args, style)) == NonEmpty(args)
  {
    hide Scan, Quoted;
    if args != [] { PrintedEnds(args, style); }
    assert Stripped(Printed(args, style)) == Printed(args, style);
    ScanPrinted(args, style, []);
  }

  lemma {:induction false} NonEmptyDistributes(a: seq<string>, b: seq<string>)
    ensures NonEmpty(a + b) == NonEmpty(a) + NonEmpty(b)
  {
    if a == [] {
      assert a + b == b;
    } else {
      hide Kept;
      NonEmptyDistributes(a[1..], b);
      assert (a + b)[1..] == a[1..] + b && (a + b)[0] == a[0];
      var head := Kept(a[0]);
      assert head + (NonEmpty(a[1..]) + NonEmpty(b)) == head + NonEmpty(a[1..]) + NonEmpty(b);
    }
  }

  // ----------------------------------------------------------- run directory --

  const FLAG := "--run-dir"

  predicate IsRunDirFlag(word: string) {
    word == FLAG || FLAG + "=" <= word
  }

  /** The first directory named in the words. */
  function FirstRunDir(words: seq<string>): string {
    if words == [] then ""
    else if words[0] == FLAG && |words| > 1 then words[1]
    else if FLAG + "=" <= words[0] then words[0][|FLAG| + 1..]
    else FirstRunDir(words[1..])
  }

  method RunDirFromLoopStartCommand(command: string) returns (dir: string)
    ensures dir == FirstRunDir(Split(command))
  {
    var words := SplitShellWords(command);
    for i := 0 to |words|
      invariant FirstRunDir(words[i..]) == FirstRunDir(words)
    {
      assert words[i..][1..] == words[i + 1..];
      if words[i] == FLAG && i + 1 < |words| { return words[i + 1]; }
      if FLAG + "=" <= words[i] { return words[i][|FLAG| + 1..]; }
    }
    assert words[|words|..] == [];
    dir := "";
  }

  lemma {:induction false} FirstRunDirAfter(before: seq<string>, rest: seq<string>)
    requires forall w | w in before :: !IsRunDirFlag(w)
    ensures FirstRunDir(before + rest) == FirstRunDir(rest)
  {
    if before == [] {
      assert before + rest == rest;
    } else {
      assert !IsRunDirFlag(before[0]);
      FirstRunDirAfter(before[1..], rest);
      assert (before + rest)[1..] == before[1..] + rest;
    }
  }

  lemma {:induction false} NonEmptyMembers(args: seq<string>)
    ensures forall w | w in NonEmpty(args) :: w in args && w != ""
  {
    if args != [] { NonEmptyMembers(args[1..]); }
  }

  lemma NonEmptyMiddle(before: seq<string>, middle: seq<string>, after: seq<string>)
    ensures NonEmpty(before + middle + after) == NonEmpty(before) + (NonEmpty(middle) + NonEmpty(after))
  {
    hide NonEmpty;
    NonEmptyDistributes(before + middle, after);
    NonEmptyDistributes(before, middle);
  }

  /** The directory of `--run-dir dir` is recovered just when it is not empty or nothing but empty words follow. */
  lemma RunDirIsRecovered(before: seq<string>, dir: string, after: seq<string>, style: nat -> Style)
    requires forall w | w in before :: !IsRunDirFlag(w)
    ensures var found := FirstRunDir(Split(Printed(before + [FLAG, dir] + after, style)));
      && (found == dir <==> dir != "" || NonEmpty(after) == [])
      && (dir == "" && NonEmpty(after) != [] ==> found == NonEmpty(after)[0])
  {
    hide Split, Printed, FirstRunDir, NonEmpty, IsRunDirFlag;
    SplitUndoesPrinting(before + [FLAG, dir] + after, style);
    NonEmptyMiddle(before, [FLAG, dir], after);
    NonEmptyMembers(before);
    NonEmptyMembers(after);
    NonEmptyPair(FLAG, dir);
    FirstRunDirAfter(NonEmpty(before), [FLAG] + Kept(dir) + NonEmpty(after));
    FlagThenWords(dir, NonEmpty(after));
    if NonEmpty(after) != [] { assert NonEmpty(after)[0] in NonEmpty(after); }
  }

  /** With an empty directory the word after it is taken instead. */
  lemma EmptyRunDirTakesNextWord(style: nat -> Style)
    ensures FirstRunDir(Split(Printed(["start", FLAG, "", "loop.yaml"], style))) == "loop.yaml"
  {
    hide Split, Printed, FirstRunDir;
    assert ["start"] + [FLAG, ""] + ["loop.yaml"] == ["start", FLAG, "", "loop.yaml"];
    assert "start"[0] == 's';
    RunDirIsRecovered(["start"], "", ["loop.yaml"], style);
    NonEmptyPair("loop.yaml", "");
  }

  lemma NonEmptyPair(a: string, b: string)
    requires a != ""
    ensures NonEmpty([a, b]) == [a] + Kept(b)
    ensures NonEmpty([a]) == [a]
  {
    assert [a, b][1..] == [b] && [b][1..] == [] && [a][1..] == [];
    assert NonEmpty([b]) == Kept(b) + [];
  }

  lemma FlagThenWords(dir: string, after: seq<string>)
    ensures FirstRunDir([FLAG] + Kept(dir) + after) == if dir != "" then dir else if after != [] then after[0] else ""
  {
    var words := [FLAG] + Kept(dir) + after;
    assert words[0] == FLAG;
    if |words| == 1 {
      assert words == [FLAG] && words[1..] == [];
      assert FirstRunDir(words[1..]) == "";
      assert !(FLAG + "=" <= FLAG);
    } else if dir != "" {
      assert words[1] == dir;
    } else {
      assert words[1] == after[0];
    }
  }

  /** The directory of `--run-dir=dir` is always recovered. */
  lemma RunDirAfterEqualsIsRecovered(before: seq<string>, dir: string, after: seq<string>, style: nat -> Style)
    requires forall w | w in before :: !IsRunDirFlag(w)
    ensures FirstRunDir(Split(Printed(before + [FLAG + "=" + dir] + after, style))) == dir
  {
    var word := FLAG + "=" + dir;
    hide Split, Printed, NonEmpty, IsRunDirFlag;
    SplitUndoesPrinting(before + [word] + after, style);
    NonEmptyMiddle(before, [word], after);
    NonEmptyMembers(before);
    NonEmptyPair(word, "");
    FirstRunDirAfter(NonEmpty(before), [word] + NonEmpty(after));
    EqualsWord(dir, NonEmpty(after));
  }

  lemma EqualsWord(dir: string, after: seq<string>)
    ensures FirstRunDir([FLAG + "=" + dir] + after) == dir
  {
    var word := FLAG + "=" + dir;
    assert FLAG + "=" <= word && |word| > |FLAG| && word[|FLAG| + 1..] == dir;
    assert ([word] + after)[0] == word;
  }
}
