/** Quoting of Windows command-line arguments, against the documented rules by which
    Microsoft C and C++ programs split their command line. */
module ArgumentQuoting {
  import opened Text

  function Slashes(n: nat): (s: string)
    ensures |s| == n && forall i :: 0 <= i < n ==> s[i] == '\\'
  {
    seq(n, _ => '\\')
  }

  // The text after the opening quote, with n backslashes read and not yet written.
  function Escaped(n: nat, s: string): string
    decreases |s|
  {
    if s == "" then Slashes(2 * n) + "\""
    else if s[0] == '\\' then Escaped(n + 1, s[1..])
    else if s[0] == '"' then Slashes(2 * n + 1) + "\"" + Escaped(0, s[1..])
    else Slashes(n) + [s[0]] + Escaped(0, s[1..])
  }

  function Quoted(s: string): string {
    "\"" + Escaped(0, s)
  }

  method QuoteWindowsArgument(argument: string) returns (quoted: string)
    ensures quoted == Quoted(argument)
  {
    quoted := "\"";
    var backslashCount := 0;
    for i := 0 to |argument|
      invariant backslashCount <= i
      invariant quoted + Escaped(backslashCount, argument[i..]) == Quoted(argument)
    {
      var character := argument[i];
      var rest := argument[i..];
      assert rest[0] == character && rest[1..] == argument[i + 1..];
      if character == '\\' {
        backslashCount := backslashCount + 1;
        continue;
      }
      if character == '"' {
        quoted := quoted + Slashes(backslashCount * 2 + 1);
        quoted := quoted + "\"";
        backslashCount := 0;
        continue;
      }
      if backslashCount > 0 {
        quoted := quoted + Slashes(backslashCount);
        backslashCount := 0;
      }
      quoted := quoted + [character];
    }
    if backslashCount > 0 {
      quoted := quoted + Slashes(backslashCount * 2);
    }
    quoted := quoted + "\"";
  }

  // ---- The receiving side ----

  // An argument and the text from its end on.
  datatype Parsed = Parsed(arg: string, rest: string)

  function Before(prefix: string, p: Parsed): Parsed {
    Parsed(prefix + p.arg, p.rest)
  }

  // The number of leading backslashes.
  function Run(t: string): (n: nat)
    ensures n <= |t|
  {
    if t == "" || t[0] != '\\' then 0 else 1 + Run(t[1..])
  }

  // What one step of the scan adds, how far it reads, and whether quotes stay open or the argument ends.
  datatype Lexeme = Lexeme(text: string, read: nat, inQuotes: bool, ends: bool)

  // 2n backslashes before a quote stand for n and the quote delimits; 2n+1 stand for n and a literal
  // quote; elsewhere they stand for themselves.  Two quotes inside quotes are one literal quote.
  function Scan(t: string, inQuotes: bool): (l: Lexeme)
    ensures l.read <= |t| && (!l.ends ==> 0 < l.read)
  {
    var n := Run(t);
    if n == |t| then Lexeme(t, n, inQuotes, true)
    else if t[n] == '"' then
      if n % 2 == 1 then Lexeme(Slashes(n / 2) + "\"", n + 1, inQuotes, false)
      else if inQuotes && n + 1 < |t| && t[n + 1] == '"' then Lexeme(Slashes(n / 2) + "\"", n + 2, inQuotes, false)
      else Lexeme(Slashes(n / 2), n + 1, !inQuotes, false)
    else if !inQuotes && IsBlank(t[n]) then Lexeme(t[..n], n, inQuotes, true)
    else Lexeme(t[..n + 1], n + 1, inQuotes, false)
  }

  function Argument(t: string, inQuotes: bool): (p: Parsed)
    ensures |p.rest| <= |t|
    decreases |t|
  {
    var l := Scan(t, inQuotes);
    if l.ends then Parsed(l.text, t[l.read..]) else Before(l.text, Argument(t[l.read..], l.inQuotes))
  }

  // The first word, the program, knows quotes but no escapes.
  function Program(t: string, inQuotes: bool): (p: Parsed)
    ensures '"' !in p.arg
  {
    if t == "" then Parsed("", "")
    else if t[0] == '"' then Program(t[1..], !inQuotes)
    else if !inQuotes && IsBlank(t[0]) then Parsed("", t)
    else Before([t[0]], Program(t[1..], inQuotes))
  }

  function Arguments(t: string): seq<string>
    decreases |t|
  {
    if t == "" then []
    else if IsBlank(t[0]) then Arguments(t[1..])
    else
      var p := Argument(t, false);
      if |p.rest| < |t| then [p.arg] + Arguments(p.rest) else [p.arg]
  }

  // ---- Parsing undoes quoting ----

  predicate Ends(tail: string) {
    tail == "" || IsBlank(tail[0])
  }

  lemma {:induction false} RunOf(n: nat, t: string)
    requires t == "" || t[0] != '\\'
    ensures Run(Slashes(n) + t) == n
  {
    if n != 0 {
      assert (Slashes(n) + t)[1..] == Slashes(n - 1) + t;
      RunOf(n - 1, t);
    }
  }

  lemma ScanQuote(k: nat, t: string)
    requires k % 2 == 1 || t == "" || t[0] != '"'
    ensures Scan(Slashes(k) + ("\"" + t), true)
      == if k % 2 == 1 then Lexeme(Slashes(k / 2) + "\"", k + 1, true, false)
         else Lexeme(Slashes(k / 2), k + 1, false, false)
  {
    RunOf(k, "\"" + t);
  }

  lemma ScanPlain(n: nat, c: char, t: string)
    requires c != '\\' && c != '"'
    ensures Scan(Slashes(n) + ([c] + t), true) == Lexeme(Slashes(n) + [c], n + 1, true, false)
  {
    RunOf(n, [c] + t);
    assert (Slashes(n) + ([c] + t))[..n + 1] == Slashes(n) + [c];
  }

  lemma Unfold(t: string, l: Lexeme, e: string)
    requires Scan(t, true) == l && !l.ends && t[l.read..] == e
    ensures Argument(t, true) == Before(l.text, Argument(e, l.inQuotes))
  {
  }

  lemma ScanEnd(tail: string)
    requires Ends(tail)
    ensures Argument(tail, false) == Parsed("", tail)
  {
  }

  lemma QuoteStep(n: nat, e: string)
    ensures Argument(Slashes(2 * n + 1) + ("\"" + e), true) == Before(Slashes(n) + "\"", Argument(e, true))
  {
    var t := Slashes(2 * n + 1) + ("\"" + e);
    ScanQuote(2 * n + 1, e);
    assert t[2 * n + 2..] == e;
    Unfold(t, Lexeme(Slashes(n) + "\"", 2 * n + 2, true, false), e);
  }

  lemma EndStep(n: nat, tail: string)
    requires Ends(tail)
    ensures Argument(Slashes(2 * n) + ("\"" + tail), true) == Parsed(Slashes(n), tail)
  {
    var t := Slashes(2 * n) + ("\"" + tail);
    ScanQuote(2 * n, tail);
    assert t[2 * n + 1..] == tail;
    Unfold(t, Lexeme(Slashes(n), 2 * n + 1, false, false), tail);
    ScanEnd(tail);
    assert Slashes(n) + "" == Slashes(n);
  }

  lemma PlainStep(n: nat, c: char, e: string)
    requires c != '\\' && c != '"'
    ensures Argument(Slashes(n) + ([c] + e), true) == Before(Slashes(n) + [c], Argument(e, true))
  {
    var t := Slashes(n) + ([c] + e);
    ScanPlain(n, c, e);
    assert t[n + 1..] == e;
    Unfold(t, Lexeme(Slashes(n) + [c], n + 1, true, false), e);
  }

  lemma Regrouped(a: string, c: char, x: string, tail: string)
    ensures (a + [c] + x) + tail == a + ([c] + (x + tail))
  {
  }

  lemma EscapedIs(n: nat, s: string, tail: string)
    requires s != "" && s[0] != '\\'
    ensures Escaped(n, s) + tail
         == Slashes(if s[0] == '"' then 2 * n + 1 else n) + ([s[0]] + (Escaped(0, s[1..]) + tail))
  {
    var x := Escaped(0, s[1..]);
    if s[0] == '"' {
      assert Escaped(n, s) == Slashes(2 * n + 1) + [s[0]] + x;
      Regrouped(Slashes(2 * n + 1), s[0], x, tail);
    } else {
      assert Escaped(n, s) == Slashes(n) + [s[0]] + x;
      Regrouped(Slashes(n), s[0], x, tail);
    }
  }

  lemma Together(a: string, s: string)
    requires s != ""
    ensures a + s == a + [s[0]] + (Slashes(0) + s[1..])
  {
    assert Slashes(0) + s[1..] == s[1..];
  }

  lemma {:induction false} ParsingUndoesEscaping(n: nat, s: string, tail: string)
    requires Ends(tail)
    ensures Argument(Escaped(n, s) + tail, true) == Parsed(Slashes(n) + s, tail)
    decreases |s|
  {
    hide Argument, Scan, Run;
    if s == "" {
      EndStep(n, tail);
      assert Escaped(n, s) + tail == Slashes(2 * n) + ("\"" + tail);
      assert Slashes(n) + s == Slashes(n);
    } else if s[0] == '\\' {
      ParsingUndoesEscaping(n + 1, s[1..], tail);
      assert Slashes(n) + s == Slashes(n + 1) + s[1..];
    } else {
      ParsingUndoesEscaping(0, s[1..], tail);
      EscapedIs(n, s, tail);
      Together(Slashes(n), s);
      if s[0] == '"' {
        QuoteStep(n, Escaped(0, s[1..]) + tail);
      } else {
        PlainStep(n, s[0], Escaped(0, s[1..]) + tail);
      }
    }
  }

  lemma {:induction false} ParsingUndoesQuoting(s: string, tail: string)
    requires Ends(tail)
    ensures Argument(Quoted(s) + tail, false) == Parsed(s, tail)
  {
    var t := Quoted(s) + tail;
    assert t[1..] == Escaped(0, s) + tail;
    EscapedStarts(s, tail);
    ParsingUndoesEscaping(0, s, tail);
    assert Slashes(0) + s == s;
  }

  lemma EscapedStarts(s: string, tail: string)
    ensures Escaped(0, s) + tail != ""
  {
    if s != "" && s[0] == '\\' { EscapedIsLong(1, s[1..]); }
  }

  lemma EscapedIsLong(n: nat, s: string)
    ensures Escaped(n, s) != ""
    decreases |s|
  {
    if s != "" && s[0] == '\\' { EscapedIsLong(n + 1, s[1..]); }
  }

  // A whole command line of quoted arguments splits into them again.
  function CommandLine(args: seq<string>): string {
    if args == [] then "" else " " + Quoted(args[0]) + CommandLine(args[1..])
  }

  lemma {:induction false} SplittingUndoesJoining(args: seq<string>)
    ensures Arguments(CommandLine(args)) == args
  {
    if args != [] {
      var line, tail := CommandLine(args), CommandLine(args[1..]);
      var t := Quoted(args[0]) + tail;
      assert line[1..] == t;
      ParsingUndoesQuoting(args[0], tail);
      SplittingUndoesJoining(args[1..]);
    }
  }

  // ---- The program name ----

  function Trailing(n: nat, s: string): nat
    decreases |s|
  {
    if s == "" then n else if s[0] == '\\' then Trailing(n + 1, s[1..]) else Trailing(0, s[1..])
  }

  lemma {:induction false} TrailingIsNone(n: nat, s: string)
    ensures Trailing(n, s) == 0 <==> if s == "" then n == 0 else s[|s| - 1] != '\\'
    decreases |s|
  {
    if s != "" {
      TrailingIsNone(if s[0] == '\\' then n + 1 else 0, s[1..]);
    }
  }

  lemma {:induction false} EscapedWithoutQuotes(n: nat, s: string)
    requires '"' !in s
    ensures Escaped(n, s) == Slashes(n) + s + Slashes(Trailing(n, s)) + "\""
    decreases |s|
  {
    if s == "" {
      assert Slashes(2 * n) == Slashes(n) + Slashes(n);
    } else if s[0] == '\\' {
      EscapedWithoutQuotes(n + 1, s[1..]);
      assert Slashes(n + 1) + s[1..] == Slashes(n) + s;
    } else {
      EscapedWithoutQuotes(0, s[1..]);
      assert Slashes(n) + [s[0]] + (Slashes(0) + s[1..]) == Slashes(n) + s;
    }
  }

  lemma {:induction false} ProgramInQuotes(s: string, tail: string)
    requires '"' !in s && Ends(tail)
    ensures Program(s + "\"" + tail, true) == Parsed(s, tail)
  {
    var t := s + "\"" + tail;
    if s == "" {
      assert t[1..] == tail;
    } else {
      assert t[1..] == s[1..] + "\"" + tail;
      ProgramInQuotes(s[1..], tail);
    }
  }

  // As the first word, a quoted path is read back exactly when it has no quote and does not end in
  // a backslash.
  lemma {:induction false} ProgramReadsBack(path: string, tail: string)
    requires Ends(tail)
    ensures Program(Quoted(path) + tail, false) == Parsed(path, tail)
      <==> '"' !in path && (path == "" || path[|path| - 1] != '\\')
  {
    if '"' !in path {
      var extra := Slashes(Trailing(0, path));
      EscapedWithoutQuotes(0, path);
      TrailingIsNone(0, path);
      ProgramInQuotes(path + extra, tail);
      var t := Quoted(path) + tail;
      assert t[1..] == path + extra + "\"" + tail;
      assert |path + extra| == |path| + Trailing(0, path);
      if Trailing(0, path) == 0 { assert path + extra == path; }
    }
  }
}
