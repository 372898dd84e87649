/** The command line of the Windows service, as the installer quotes it and as
    Windows takes it apart again (install.ps1). */
module WindowsQuoting {
  import opened Text

  function Backslashes(n: nat): (s: string)
    ensures |s| == n && forall i :: 0 <= i < n ==> s[i] == '\\'
  {
    if n == 0 then "" else ['\\'] + Backslashes(n - 1)
  }

  /** How many backslashes `s` starts with. */
  function LeadingBackslashes(s: string): (n: nat)
    ensures n <= |s|
    ensures forall i :: 0 <= i < n ==> s[i] == '\\'
    ensures n < |s| ==> s[n] != '\\'
  {
    if s != "" && s[0] == '\\' then 1 + LeadingBackslashes(s[1..]) else 0
  }

  // ---------------------------------------------------------------- installer

  /** Replaces every match of (\\*)" by $1$1\": at each position, from the left,
      a run of backslashes that a quote follows. */
  function EscapeQuotes(s: string): string {
    var n := LeadingBackslashes(s);
    if n < |s| && s[n] == '"' then Backslashes(2 * n + 1) + (['"'] + EscapeQuotes(s[n + 1..]))
    else if s == "" then ""
    else [s[0]] + EscapeQuotes(s[1..])
  }

  /** Replaces the match of (\\+)$ by $1$1: the backslashes at the end. */
  function DoubleTrailing(s: string): string {
    var n := LeadingBackslashes(s);
    if n > 0 && n == |s| then Backslashes(2 * n)
    else if s == "" then ""
    else [s[0]] + DoubleTrailing(s[1..])
  }

  function Escaped(s: string): string {
    DoubleTrailing(EscapeQuotes(s))
  }

  predicate OneLine(s: string) {
    '\r' !in s && '\n' !in s
  }

  function Quoted(s: string): string {
    ['"'] + (Escaped(s) + ['"'])
  }

  /** The arguments, each with a blank in front. */
  function ArgumentText(args: seq<string>): string {
    if args == [] then "" else [' '] + (Quoted(args[0]) + ArgumentText(args[1..]))
  }

  function ConvertToWindowsCommandLineArgument(value: string): Option<string> {
    if !OneLine(value) then None
    else
      var escaped := EscapeQuotes(value);
      var doubled := DoubleTrailing(escaped);
      Some(['"'] + (doubled + ['"']))
  }

  function JoinWith(items: seq<string>, separator: string): string {
    if items == [] then ""
    else if |items| == 1 then items[0]
    else items[0] + (separator + JoinWith(items[1..], separator))
  }

  /** The service's command line; refused if any part has a line break. */
  method JoinWindowsCommandLine(filePath: string, arguments: seq<string>) returns (line: Option<string>)
    ensures line.Some? <==>
      && '\r' !in filePath && '\n' !in filePath
      && forall i :: 0 <= i < |arguments| ==> '\r' !in arguments[i] && '\n' !in arguments[i]
    ensures line.Some? ==> line.value == Quoted(filePath) + ArgumentText(arguments)
  {
    var first := ConvertToWindowsCommandLineArgument(filePath);
    if first.None? {
      return None;
    }
    var items := [first.value];
    for k := 0 to |arguments|
      invariant forall i :: 0 <= i < k ==> OneLine(arguments[i])
      invariant |items| == k + 1 && items[0] == Quoted(filePath)
      invariant forall i :: 0 <= i < k ==> items[i + 1] == Quoted(arguments[i])
    {
      var item := ConvertToWindowsCommandLineArgument(arguments[k]);
      if item.None? {
        return None;
      }
      items := items + [item.value];
    }
    JoinIsArgumentText(items, arguments);
    return Some(JoinWith(items, " "));
  }

  lemma {:induction false} JoinIsArgumentText(items: seq<string>, args: seq<string>)
    requires |items| == |args| + 1
    requires forall i :: 0 <= i < |args| ==> items[i + 1] == Quoted(args[i])
    ensures JoinWith(items, " ") == items[0] + ArgumentText(args)
  {
    hide Quoted;
    if args == [] {
      assert items[0] + "" == items[0];
    } else {
      JoinIsArgumentText(items[1..], args[1..]);
      assert " " == [' '];
    }
  }

  // ------------------------------------------------------------------ Windows

  /** What two quotes in a row mean inside quotes: an end and a beginning, as
      documented, or a quote that stays inside or ends it, as observed. */
  datatype DoubledQuote = Toggles | StaysInside | GoesOutside

  predicate IsBlank(c: char) {
    c == ' ' || c == '\t'
  }

  /** One argument and what is left of the line, by the rules of
      CommandLineToArgvW: 2n backslashes and a quote are n backslashes and the
      quote begins or ends quoting; 2n+1 and a quote are n and a quote;
      backslashes before anything else are themselves. */
  function ParseArgument(s: string, inQuotes: bool, rule: DoubledQuote): (r: (string, string))
    ensures |r.1| <= |s|
    ensures s != "" && !IsBlank(s[0]) ==> |r.1| < |s|
    decreases |s|
  {
    var n := LeadingBackslashes(s);
    if s == "" then ("", "")
    else if n < |s| && s[n] == '"' then
      if n % 2 == 1 then
        var p := ParseArgument(s[n + 1..], inQuotes, rule);
        (Backslashes(n / 2) + (['"'] + p.0), p.1)
      else if inQuotes && !rule.Toggles? && n + 1 < |s| && s[n + 1] == '"' then
        var p := ParseArgument(s[n + 2..], rule.StaysInside?, rule);
        (Backslashes(n / 2) + (['"'] + p.0), p.1)
      else
        var p := ParseArgument(s[n + 1..], !inQuotes, rule);
        (Backslashes(n / 2) + p.0, p.1)
    else if n > 0 then
      var p := ParseArgument(s[n..], inQuotes, rule);
      (Backslashes(n) + p.0, p.1)
    else if IsBlank(s[0]) && !inQuotes then ("", s)
    else
      var p := ParseArgument(s[1..], inQuotes, rule);
      ([s[0]] + p.0, p.1)
  }

  function ParseArguments(s: string, rule: DoubledQuote): seq<string>
    decreases |s|
  {
    if s == "" then []
    else if IsBlank(s[0]) then ParseArguments(s[1..], rule)
    else
      var p := ParseArgument(s, false, rule);
      [p.0] + ParseArguments(p.1, rule)
  }

  /** The program's name has rules of its own: a quote ends it, whatever comes
      before it. */
  function CommandLineToArgv(line: string, rule: DoubledQuote): seq<string> {
    if line != "" && line[0] == '"' then
      var n := UpTo(line[1..], '"');
      [line[1..][..n]] + ParseArguments(if n + 1 < |line| then line[n + 2..] else "", rule)
    else
      var n := UpTo(line, ' ');
      [line[..n]] + ParseArguments(line[n..], rule)
  }

  // ---------------------------------------------------- runs of backslashes

  /** A string is a run of backslashes, or one and another character and a
      shorter string. */
  lemma Split(s: string) returns (n: nat, c: char, tail: string)
    ensures s == Backslashes(n) || (c != '\\' && s == Backslashes(n) + ([c] + tail) && |tail| < |s|)
  {
    n := LeadingBackslashes(s);
    if n == |s| {
      assert s == Backslashes(n);
      c, tail := ' ', "";
    } else {
      c, tail := s[n], s[n + 1..];
      assert s == Backslashes(n) + ([c] + tail);
    }
  }

  lemma Peel(n: nat, rest: string)
    requires n > 0
    ensures (Backslashes(n) + rest)[0] == '\\' && (Backslashes(n) + rest)[1..] == Backslashes(n - 1) + rest
    ensures Backslashes(n) + rest == ['\\'] + (Backslashes(n - 1) + rest)
  {
  }

  lemma {:induction false} LeadingOf(n: nat, rest: string)
    requires rest == "" || rest[0] != '\\'
    ensures LeadingBackslashes(Backslashes(n) + rest) == n
  {
    if n > 0 {
      Peel(n, rest);
      LeadingOf(n - 1, rest);
    } else {
      assert Backslashes(n) + rest == rest;
    }
  }

  lemma AfterChunk(n: nat, c: char, rest: string)
    ensures (Backslashes(n) + ([c] + rest))[n + 1..] == rest && (Backslashes(n) + ([c] + rest))[n] == c
    ensures |Backslashes(n) + ([c] + rest)| == n + 1 + |rest|
  {
  }

  lemma EscapeQuotesAtQuote(n: nat, rest: string)
    ensures EscapeQuotes(Backslashes(n) + (['"'] + rest)) == Backslashes(2 * n + 1) + (['"'] + EscapeQuotes(rest))
  {
    LeadingOf(n, ['"'] + rest);
    AfterChunk(n, '"', rest);
  }

  lemma {:induction false} EscapeQuotesPast(n: nat, c: char, rest: string)
    requires c != '"' && c != '\\'
    ensures EscapeQuotes(Backslashes(n) + ([c] + rest)) == Backslashes(n) + ([c] + EscapeQuotes(rest))
  {
    hide Backslashes, LeadingBackslashes;
    LeadingOf(n, [c] + rest);
    AfterChunk(n, c, rest);
    if n == 0 {
      NoBackslash([c] + rest);
      NoBackslash([c] + EscapeQuotes(rest));
      assert ([c] + rest)[1..] == rest;
    } else {
      Peel(n, [c] + rest);
      Peel(n, [c] + EscapeQuotes(rest));
      EscapeQuotesPast(n - 1, c, rest);
    }
  }

  lemma NoBackslash(rest: string)
    ensures Backslashes(0) + rest == rest
  {
  }

  lemma {:induction false} EscapeQuotesAtEnd(n: nat)
    ensures EscapeQuotes(Backslashes(n)) == Backslashes(n)
  {
    LeadingOf(n, "");
    assert Backslashes(n) + "" == Backslashes(n);
    if n > 0 {
      assert Backslashes(n)[1..] == Backslashes(n - 1);
      EscapeQuotesAtEnd(n - 1);
    }
  }

  lemma {:induction false} DoubleTrailingPast(n: nat, c: char, rest: string)
    requires c != '\\'
    ensures DoubleTrailing(Backslashes(n) + ([c] + rest)) == Backslashes(n) + ([c] + DoubleTrailing(rest))
  {
    hide Backslashes, LeadingBackslashes;
    LeadingOf(n, [c] + rest);
    AfterChunk(n, c, rest);
    if n == 0 {
      NoBackslash([c] + rest);
      NoBackslash([c] + DoubleTrailing(rest));
      assert ([c] + rest)[1..] == rest;
    } else {
      Peel(n, [c] + rest);
      Peel(n, [c] + DoubleTrailing(rest));
      DoubleTrailingPast(n - 1, c, rest);
    }
  }

  lemma DoubleTrailingAtEnd(n: nat)
    ensures DoubleTrailing(Backslashes(n)) == Backslashes(2 * n)
  {
    LeadingOf(n, "");
    assert Backslashes(n) + "" == Backslashes(n);
  }

  // What the two passes together make of a chunk.

  lemma EscapedAtEnd(n: nat)
    ensures Escaped(Backslashes(n)) == Backslashes(2 * n)
  {
    hide EscapeQuotes, DoubleTrailing, Backslashes;
    EscapeQuotesAtEnd(n);
    DoubleTrailingAtEnd(n);
  }

  lemma EscapedAtQuote(n: nat, rest: string)
    ensures Escaped(Backslashes(n) + (['"'] + rest)) == Backslashes(2 * n + 1) + (['"'] + Escaped(rest))
  {
    hide EscapeQuotes, DoubleTrailing, Backslashes;
    EscapeQuotesAtQuote(n, rest);
    DoubleTrailingPast(2 * n + 1, '"', EscapeQuotes(rest));
  }

  lemma EscapedPast(n: nat, c: char, rest: string)
    requires c != '"' && c != '\\'
    ensures Escaped(Backslashes(n) + ([c] + rest)) == Backslashes(n) + ([c] + Escaped(rest))
  {
    hide EscapeQuotes, DoubleTrailing, Backslashes;
    EscapeQuotesPast(n, c, rest);
    DoubleTrailingPast(n, c, EscapeQuotes(rest));
  }

  // --------------------------------------------------------------- round trip

  lemma ParseAtQuote(n: nat, rest: string, inQuotes: bool, rule: DoubledQuote)
    requires rest == "" || rest[0] != '"'
    ensures var p := ParseArgument(rest, if n % 2 == 1 then inQuotes else !inQuotes, rule);
            ParseArgument(Backslashes(n) + (['"'] + rest), inQuotes, rule)
            == (Backslashes(n / 2) + (if n % 2 == 1 then ['"'] + p.0 else p.0), p.1)
  {
    LeadingOf(n, ['"'] + rest);
    AfterChunk(n, '"', rest);
  }

  lemma ParseAtEscapedQuote(n: nat, rest: string, inQuotes: bool, rule: DoubledQuote)
    ensures var p := ParseArgument(rest, inQuotes, rule);
            ParseArgument(Backslashes(2 * n + 1) + (['"'] + rest), inQuotes, rule)
            == (Backslashes(n) + (['"'] + p.0), p.1)
  {
    LeadingOf(2 * n + 1, ['"'] + rest);
    AfterChunk(2 * n + 1, '"', rest);
  }

  lemma ParseOne(c: char, rest: string, rule: DoubledQuote)
    requires c != '\\' && c != '"'
    ensures var p := ParseArgument(rest, true, rule);
            ParseArgument([c] + rest, true, rule) == ([c] + p.0, p.1)
  {
    assert LeadingBackslashes([c] + rest) == 0;
    assert ([c] + rest)[1..] == rest;
  }

  lemma ParsePast(n: nat, c: char, rest: string, rule: DoubledQuote)
    requires c != '\\' && c != '"'
    ensures var p := ParseArgument(rest, true, rule);
            ParseArgument(Backslashes(n) + ([c] + rest), true, rule) == (Backslashes(n) + ([c] + p.0), p.1)
  {
    hide Backslashes, LeadingBackslashes;
    ParseOne(c, rest, rule);
    if n == 0 {
      hide ParseArgument;
      NoBackslash([c] + rest);
      NoBackslash([c] + ParseArgument(rest, true, rule).0);
    } else {
      LeadingOf(n, [c] + rest);
      AfterChunk(n, c, rest);
      assert (Backslashes(n) + ([c] + rest))[n..] == [c] + rest;
    }
  }

  lemma Associate(a: string, b: string, c: string, d: string)
    ensures (a + (b + c)) + d == a + (b + (c + d))
  {
  }

  /** Inside its quotes an escaped argument reads back as itself. */
  lemma {:induction false} EscapedReadsBack(a: string, rest: string, rule: DoubledQuote)
    requires rest == "" || IsBlank(rest[0])
    ensures ParseArgument(Escaped(a) + (['"'] + rest), true, rule) == (a, rest)
    decreases |a|
  {
    hide Escaped, Backslashes, ParseArgument;
    var end := ['"'] + rest;
    var n, c, tail := Split(a);
    if a == Backslashes(n) {
      EscapedAtEnd(n);
      ParseAtQuote(2 * n, rest, true, rule);
      ParseOutside(rest, rule);
      assert Backslashes(n) + "" == Backslashes(n);
    } else {
      EscapedReadsBack(tail, rest, rule);
      if c == '"' {
        EscapedAtQuote(n, tail);
        Associate(Backslashes(2 * n + 1), ['"'], Escaped(tail), end);
        ParseAtEscapedQuote(n, Escaped(tail) + end, true, rule);
      } else {
        EscapedPast(n, c, tail);
        Associate(Backslashes(n), [c], Escaped(tail), end);
        ParsePast(n, c, Escaped(tail) + end, rule);
      }
    }
  }

  lemma ParseOutside(rest: string, rule: DoubledQuote)
    requires rest == "" || IsBlank(rest[0])
    ensures ParseArgument(rest, false, rule) == ("", rest)
  {
  }

  lemma QuotedReadsBack(a: string, rest: string, rule: DoubledQuote)
    requires rest == "" || IsBlank(rest[0])
    ensures ParseArgument(Quoted(a) + rest, false, rule) == (a, rest)
  {
    hide Escaped;
    var body := Escaped(a) + (['"'] + rest);
    EscapedReadsBack(a, rest, rule);
    assert Quoted(a) + rest == ['"'] + body;
    assert LeadingBackslashes(['"'] + body) == 0;
    assert (['"'] + body)[1..] == body;
    assert Backslashes(0) + a == a;
  }

  /** Windows reads back exactly the arguments the installer joined, for every
      list of arguments and whatever doubled quotes mean. */
  lemma {:induction false} ArgumentsRoundTrip(args: seq<string>, rule: DoubledQuote)
    ensures ParseArguments(ArgumentText(args), rule) == args
  {
    if args != [] {
      hide ParseArgument, Escaped;
      var rest := ArgumentText(args[1..]);
      assert rest == "" || IsBlank(rest[0]);
      QuotedReadsBack(args[0], rest, rule);
      ArgumentsRoundTrip(args[1..], rule);
      var text := Quoted(args[0]) + rest;
      assert ArgumentText(args)[1..] == text && text[0] == '"';
    }
  }

  // ------------------------------------------------------- the program's name

  /** A path that its own quotes can hold as it is. */
  predicate PlainPath(path: string) {
    '"' !in path && (path == "" || path[|path| - 1] != '\\')
  }

  lemma {:induction false} UpToIn(s: string, c: char, n: nat)
    requires n < |s| && s[n] == c && c !in s[..n]
    ensures UpTo(s, c) == n
  {
    if n > 0 {
      assert s[0] == s[..n][0];
      assert s[1..][..n - 1] == s[..n][1..];
      UpToIn(s[1..], c, n - 1);
    }
  }

  /** Up to its first quote an escaped path is the path exactly if the path is
      plain. */
  lemma {:induction false} EscapedPathIff(path: string, rest: string)
    ensures var text := Escaped(path) + (['"'] + rest);
            && UpTo(text, '"') < |text|
            && (text[..UpTo(text, '"')] == path <==> PlainPath(path))
            && (PlainPath(path) ==> text[UpTo(text, '"') + 1..] == rest)
    decreases |path|
  {
    hide Escaped, UpTo, Backslashes, PlainPath;
    var end := ['"'] + rest;
    var n, c, tail := Split(path);
    if path == Backslashes(n) {
      EscapedAtEnd(n);
      EndsAtQuote(n, rest);
    } else if c == '"' {
      EscapedAtQuote(n, tail);
      Associate(Backslashes(2 * n + 1), ['"'], Escaped(tail), end);
      StopsAtQuote(n, tail, Escaped(tail) + end);
    } else {
      EscapedPast(n, c, tail);
      Associate(Backslashes(n), [c], Escaped(tail), end);
      EscapedPathIff(tail, rest);
      UpToPast(n, c, Escaped(tail) + end, tail);
      PlainTail(n, c, tail);
    }
  }

  lemma EndsAtQuote(n: nat, rest: string)
    ensures var text := Backslashes(2 * n) + (['"'] + rest);
            && UpTo(text, '"') == 2 * n < |text| && text[2 * n + 1..] == rest
            && (text[..2 * n] == Backslashes(n) <==> n == 0)
            && (PlainPath(Backslashes(n)) <==> n == 0)
  {
    var text := Backslashes(2 * n) + (['"'] + rest);
    AfterChunk(2 * n, '"', rest);
    UpToIn(text, '"', 2 * n);
  }

  lemma StopsAtQuote(n: nat, tail: string, more: string)
    ensures var text, path := Backslashes(2 * n + 1) + (['"'] + more), Backslashes(n) + (['"'] + tail);
            UpTo(text, '"') == 2 * n + 1 < |text| && text[..2 * n + 1] != path && !PlainPath(path)
  {
    var text, path := Backslashes(2 * n + 1) + (['"'] + more), Backslashes(n) + (['"'] + tail);
    AfterChunk(2 * n + 1, '"', more);
    AfterChunk(n, '"', tail);
    UpToIn(text, '"', 2 * n + 1);
    assert text[..2 * n + 1][n] == '\\' && path[n] == '"';
  }

  /** A quote is found behind a chunk where it is found behind nothing. */
  lemma UpToPast(n: nat, c: char, tail: string, path: string)
    requires c != '"' && UpTo(tail, '"') < |tail|
    ensures var text, m := Backslashes(n) + ([c] + tail), UpTo(tail, '"');
            && UpTo(text, '"') == n + 1 + m
            && text[n + 1 + m + 1..] == tail[m + 1..]
            && (text[..n + 1 + m] == Backslashes(n) + ([c] + path) <==> tail[..m] == path)
  {
    hide UpTo, Backslashes;
    var text, m := Backslashes(n) + ([c] + tail), UpTo(tail, '"');
    AfterChunk(n, c, tail);
    assert text[..n + 1 + m] == Backslashes(n) + ([c] + tail[..m]);
    UpToIn(text, '"', n + 1 + m);
    AfterChunk(n, c, tail[..m]);
    AfterChunk(n, c, path);
  }

  lemma PlainTail(n: nat, c: char, tail: string)
    requires c != '"' && c != '\\'
    ensures PlainPath(Backslashes(n) + ([c] + tail)) <==> PlainPath(tail)
  {
    var path := Backslashes(n) + ([c] + tail);
    AfterChunk(n, c, tail);
    assert '"' in tail ==> '"' in path;
  }

  /** The whole line, program included, round-trips exactly when the path has
      no quote in it and no backslash at its end. */
  lemma CommandLineRoundTripIff(path: string, args: seq<string>, rule: DoubledQuote)
    ensures CommandLineToArgv(Quoted(path) + ArgumentText(args), rule) == [path] + args <==> PlainPath(path)
  {
    hide Escaped, PlainPath, ParseArguments, ArgumentText;
    var rest := ArgumentText(args);
    var text, line := Escaped(path) + (['"'] + rest), Quoted(path) + rest;
    assert line == ['"'] + text;
    assert line[1..] == text;
    EscapedPathIff(path, rest);
    ArgumentsRoundTrip(args, rule);
    var n := UpTo(text, '"');
    if PlainPath(path) {
      assert line[n + 2..] == text[n + 1..];
    } else {
      assert CommandLineToArgv(line, rule)[0] == text[..n];
    }
  }
}
