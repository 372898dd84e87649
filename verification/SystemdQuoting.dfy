/** The arguments of the systemd service, as the installer quotes them and as
    systemd takes them apart again (install.sh). */
module SystemdQuoting {
  import opened Text

  // ---------------------------------------------------------------- installer

  /** ${value//c/with} */
  function ReplaceAll(s: string, c: char, with: string): string {
    if s == "" then "" else (if s[0] == c then with else [s[0]]) + ReplaceAll(s[1..], c, with)
  }

  function Escaped(value: string): string {
    ReplaceAll(ReplaceAll(ReplaceAll(ReplaceAll(value, '\\', "\\\\"), '"', "\\\""), '%', "%%"), '$', "$$")
  }

  function Quoted(value: string): string {
    ['"'] + (Escaped(value) + ['"'])
  }

  /** The arguments with a blank between any two. */
  function Joined(args: seq<string>): string {
    if args == [] then ""
    else if |args| == 1 then Quoted(args[0])
    else Joined(args[..|args| - 1]) + ([' '] + Quoted(args[|args| - 1]))
  }

  method SystemdEscapeArg(arg: string) returns (quoted: Option<string>)
    ensures quoted.Some? <==> '\n' !in arg && '\r' !in arg
    ensures quoted.Some? ==> quoted.value == Quoted(arg)
  {
    if '\n' in arg || '\r' in arg {
      return None;
    }
    var value := arg;
    value := ReplaceAll(value, '\\', "\\\\");
    value := ReplaceAll(value, '"', "\\\"");
    value := ReplaceAll(value, '%', "%%");
    value := ReplaceAll(value, '$', "$$");
    return Some(['"'] + (value + ['"']));
  }

  /** The words of the service's command; refused if any has a line break. */
  method SystemdJoinArgs(args: seq<string>) returns (line: Option<string>)
    ensures line.Some? <==> forall i :: 0 <= i < |args| ==> '\n' !in args[i] && '\r' !in args[i]
    ensures line.Some? ==> line.value == Joined(args)
  {
    hide Quoted;
    var first := true;
    var out := "";
    for k := 0 to |args|
      invariant first <==> k == 0
      invariant out == Joined(args[..k])
      invariant forall i :: 0 <= i < k ==> '\n' !in args[i] && '\r' !in args[i]
    {
      assert args[..k + 1][..k] == args[..k];
      if !first {
        out := out + [' '];
      }
      first := false;
      var quoted := SystemdEscapeArg(args[k]);
      if quoted.None? {
        return None;
      }
      if k > 0 {
        assert (Joined(args[..k]) + [' ']) + quoted.value == Joined(args[..k]) + ([' '] + quoted.value);
      }
      out := out + quoted.value;
    }
    assert args[..|args|] == args;
    return Some(out);
  }

  // ------------------------------------------------------------------ systemd

  predicate IsBlank(c: char) {
    c == ' ' || c == '\t' || c == '\n' || c == '\r'
  }

  /** The escapes of one character of systemd.syntax(7). */
  function Unescape(c: char): Option<char> {
    match c
    case 'a' => Some('\U{7}')
    case 'b' => Some('\U{8}')
    case 'f' => Some('\U{C}')
    case 'n' => Some('\n')
    case 'r' => Some('\r')
    case 't' => Some('\t')
    case 'v' => Some('\U{B}')
    case 's' => Some(' ')
    case '\\' => Some('\\')
    case '"' => Some('"')
    case '\'' => Some('\'')
    case _ => None
  }

  /** One word, its quotes and escapes undone, and what is left of the line;
      None if a quote is left open or an escape is of another kind. */
  function ReadWord(s: string, quote: Option<char>): (r: Option<(string, string)>)
    ensures r.Some? ==> |r.value.1| <= |s|
    ensures r.Some? && quote.None? && s != "" && !IsBlank(s[0]) ==> |r.value.1| < |s|
  {
    if s == "" then
      if quote.None? then Some(("", "")) else None
    else if s[0] == '\\' then
      if |s| == 1 || Unescape(s[1]).None? then None else Put(Unescape(s[1]).value, ReadWord(s[2..], quote))
    else if quote.None? then
      if IsBlank(s[0]) then Some(("", s))
      else if s[0] == '"' || s[0] == '\'' then ReadWord(s[1..], Some(s[0]))
      else Put(s[0], ReadWord(s[1..], quote))
    else if s[0] == quote.value then ReadWord(s[1..], None)
    else Put(s[0], ReadWord(s[1..], quote))
  }

  function Put(c: char, r: Option<(string, string)>): Option<(string, string)> {
    if r.None? then None else Some(([c] + r.value.0, r.value.1))
  }

  /** Undoes `cc`; None if a single `c` calls for a specifier or a variable. */
  function Undouble(s: string, c: char): Option<string> {
    if s == "" then Some("")
    else if s[0] != c then
      var rest := Undouble(s[1..], c);
      if rest.None? then None else Some([s[0]] + rest.value)
    else if |s| == 1 || s[1] != c then None
    else
      var rest := Undouble(s[2..], c);
      if rest.None? then None else Some([c] + rest.value)
  }

  /** What a word of the line becomes: first its specifiers are expanded, and
      when the service starts its variables. */
  function ExpandWord(word: string): Option<string> {
    var expanded := Undouble(word, '%');
    if expanded.None? then None else Undouble(expanded.value, '$')
  }

  /** The argument list a line stands for on its own. */
  function ReadArgs(s: string): Option<seq<string>>
    decreases |s|
  {
    if s == "" then Some([])
    else if IsBlank(s[0]) then ReadArgs(s[1..])
    else
      var word := ReadWord(s, None);
      if word.None? then None
      else
        var arg, rest := ExpandWord(word.value.0), ReadArgs(word.value.1);
        if arg.None? || rest.None? then None else Some([arg.value] + rest.value)
  }

  // --------------------------------------------------------------- round trip

  lemma {:induction false} ReplaceAllParts(a: string, b: string, c: char, with: string)
    ensures ReplaceAll(a + b, c, with) == ReplaceAll(a, c, with) + ReplaceAll(b, c, with)
  {
    if a == "" {
      assert a + b == b;
    } else {
      assert (a + b)[1..] == a[1..] + b;
      ReplaceAllParts(a[1..], b, c, with);
    }
  }

  lemma ReplaceOne(a: char, c: char, with: string)
    ensures ReplaceAll([a], c, with) == if a == c then with else [a]
  {
    assert [a][1..] == "";
  }

  lemma ReplaceTwo(a: char, b: char, c: char, with: string)
    requires a != c && b != c
    ensures ReplaceAll([a, b], c, with) == [a, b]
  {
    assert [a, b][1..] == [b];
    ReplaceOne(b, c, with);
  }

  function EscapedChar(c: char): string {
    if c == '\\' then ['\\', '\\'] else if c == '"' then ['\\', '"'] else if c == '%' then ['%', '%']
    else if c == '$' then ['$', '$'] else [c]
  }

  lemma EscapedOne(c: char)
    ensures Escaped([c]) == EscapedChar(c)
  {
    ReplaceOne(c, '\\', "\\\\");
    ReplaceOne(c, '"', "\\\"");
    ReplaceOne(c, '%', "%%");
    ReplaceOne(c, '$', "$$");
    ReplaceTwo('\\', '\\', '"', "\\\"");
    ReplaceTwo('\\', '\\', '%', "%%");
    ReplaceTwo('\\', '\\', '$', "$$");
    ReplaceTwo('\\', '"', '%', "%%");
    ReplaceTwo('\\', '"', '$', "$$");
    ReplaceTwo('%', '%', '$', "$$");
  }

  lemma EscapedParts(a: string, b: string)
    ensures Escaped(a + b) == Escaped(a) + Escaped(b)
  {
    hide ReplaceAll;
    ReplaceAllParts(a, b, '\\', "\\\\");
    var a1, b1 := ReplaceAll(a, '\\', "\\\\"), ReplaceAll(b, '\\', "\\\\");
    ReplaceAllParts(a1, b1, '"', "\\\"");
    var a2, b2 := ReplaceAll(a1, '"', "\\\""), ReplaceAll(b1, '"', "\\\"");
    ReplaceAllParts(a2, b2, '%', "%%");
    var a3, b3 := ReplaceAll(a2, '%', "%%"), ReplaceAll(b2, '%', "%%");
    ReplaceAllParts(a3, b3, '$', "$$");
  }

  /** The four passes together escape character by character. */
  lemma EscapedStep(c: char, rest: string)
    ensures Escaped([c] + rest) == EscapedChar(c) + Escaped(rest)
  {
    hide Escaped, EscapedChar;
    EscapedParts([c], rest);
    EscapedOne(c);
  }

  /** What is left of an argument once quoting is undone. */
  function Doubled(a: string): string {
    if a == "" then "" else (if a[0] == '%' || a[0] == '$' then [a[0], a[0]] else [a[0]]) + Doubled(a[1..])
  }

  lemma ReadEscapedChar(c: char, rest: string)
    ensures var r := ReadWord(rest, Some('"'));
            ReadWord(EscapedChar(c) + rest, Some('"'))
            == if c == '%' || c == '$' then Put(c, Put(c, r)) else Put(c, r)
  {
    var s := EscapedChar(c) + rest;
    if |EscapedChar(c)| == 1 {
      assert s[1..] == rest;
    } else {
      assert s[2..] == rest;
      if c == '%' || c == '$' {
        assert s[1..] == [c] + rest && s[1..][1..] == rest;
        assert ReadWord([c] + rest, Some('"')) == Put(c, ReadWord(rest, Some('"')));
      }
    }
  }

  lemma Reassociate(a: string, b: string, c: string)
    ensures (a + b) + c == a + (b + c)
  {
  }

  lemma EndReads(rest: string)
    requires rest == "" || IsBlank(rest[0])
    ensures ReadWord(['"'] + rest, Some('"')) == Some(("", rest))
  {
    assert (['"'] + rest)[1..] == rest;
    assert ReadWord(rest, None) == Some(("", rest));
  }

  lemma {:induction false} EscapedReads(a: string, rest: string)
    requires rest == "" || IsBlank(rest[0])
    ensures ReadWord(Escaped(a) + (['"'] + rest), Some('"')) == Some((Doubled(a), rest))
  {
    var end := ['"'] + rest;
    if a == "" {
      hide ReadWord;
      EndReads(rest);
      assert Escaped(a) + end == end;
    } else {
      hide Escaped, EscapedChar;
      var c, tail := a[0], a[1..];
      assert a == [c] + tail;
      EscapedStep(c, tail);
      EscapedReads(tail, rest);
      Reassociate(EscapedChar(c), Escaped(tail), end);
      ReadEscapedChar(c, Escaped(tail) + end);
      hide ReadWord;
      assert [c] + ([c] + Doubled(tail)) == [c, c] + Doubled(tail);
    }
  }

  /** `a` with every dollar doubled. */
  function Dollars(a: string): string {
    if a == "" then "" else (if a[0] == '$' then ['$', '$'] else [a[0]]) + Dollars(a[1..])
  }

  lemma UndoublePast(d: char, s: string, c: char)
    ensures var r := Undouble(s, c);
            d != c && r.Some? ==> Undouble([d] + s, c) == Some([d] + r.value)
    ensures var r := Undouble(s, c);
            r.Some? ==> Undouble([c, c] + s, c) == Some([c] + r.value)
  {
    assert ([d] + s)[1..] == s && ([c, c] + s)[2..] == s;
  }

  lemma {:induction false} PercentsUndone(a: string)
    ensures Undouble(Doubled(a), '%') == Some(Dollars(a))
  {
    if a != "" {
      hide Undouble;
      PercentsUndone(a[1..]);
      var c, rest := a[0], Doubled(a[1..]);
      UndoublePast(c, rest, '%');
      if c == '$' {
        UndoublePast(c, [c] + rest, '%');
        assert [c] + ([c] + rest) == [c, c] + rest;
        assert [c] + ([c] + Dollars(a[1..])) == [c, c] + Dollars(a[1..]);
      }
    } else {
      assert Doubled(a) == "";
    }
  }

  lemma {:induction false} DollarsUndone(a: string)
    ensures Undouble(Dollars(a), '$') == Some(a)
  {
    if a != "" {
      hide Undouble;
      DollarsUndone(a[1..]);
      UndoublePast(a[0], Dollars(a[1..]), '$');
      assert a == [a[0]] + a[1..];
    } else {
      assert Dollars(a) == "";
    }
  }

  lemma QuotedReads(a: string, rest: string)
    requires rest == "" || IsBlank(rest[0])
    ensures ReadWord(Quoted(a) + rest, None) == Some((Doubled(a), rest))
    ensures ExpandWord(Doubled(a)) == Some(a)
  {
    hide Escaped, Undouble;
    EscapedReads(a, rest);
    assert (Quoted(a) + rest)[1..] == Escaped(a) + (['"'] + rest);
    PercentsUndone(a);
    DollarsUndone(a);
  }

  /** One more argument, and what follows it, read back. */
  lemma OneMoreArg(a: string, rest: string, more: seq<string>)
    requires rest == "" || IsBlank(rest[0])
    requires ReadArgs(rest) == Some(more)
    ensures ReadArgs(Quoted(a) + rest) == Some([a] + more)
    ensures ReadArgs([' '] + (Quoted(a) + rest)) == Some([a] + more)
  {
    QuotedReads(a, rest);
    assert (Quoted(a) + rest)[0] == '"';
    hide Quoted, ReadWord, ExpandWord;
    assert ([' '] + (Quoted(a) + rest))[1..] == Quoted(a) + rest;
  }

  lemma Regroup(a: string, b: string, c: string, d: string)
    ensures (a + (b + c)) + d == a + (b + (c + d))
  {
  }

  lemma Reattach(args: seq<string>, more: seq<string>)
    requires args != []
    ensures args[..|args| - 1] + ([args[|args| - 1]] + more) == args + more
  {
  }

  lemma {:induction false} JoinedReads(args: seq<string>, rest: string, more: seq<string>)
    requires rest == "" || IsBlank(rest[0])
    requires args != [] && ReadArgs(rest) == Some(more)
    ensures ReadArgs(Joined(args) + rest) == Some(args + more)
  {
    var init, last := args[..|args| - 1], args[|args| - 1];
    hide ReadArgs, Quoted;
    OneMoreArg(last, rest, more);
    if |args| == 1 {
      assert args + more == [last] + more;
    } else {
      var tail := [' '] + (Quoted(last) + rest);
      JoinedReads(init, tail, [last] + more);
      Regroup(Joined(init), [' '], Quoted(last), rest);
      Reattach(args, more);
    }
  }

  /** systemd reads back exactly the arguments the installer joined, for every
      list of arguments. */
  lemma SystemdRoundTrip(args: seq<string>)
    ensures ReadArgs(Joined(args)) == Some(args)
  {
    if args != [] {
      JoinedReads(args, "", []);
      assert Joined(args) + "" == Joined(args) && args + [] == args;
    }
  }
}
