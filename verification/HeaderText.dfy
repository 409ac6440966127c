/** Requests written out as text, and what the header scans of `HeaderParse` read back from them. */
module HeaderText {
  import opened Basics
  import opened Text
  import opened HeaderParse

  datatype Header = Header(name: string, value: string)

  predicate IsHeader(h: Header) {
    '\r' !in h.name && ':' !in h.name && '\r' !in h.value
  }

  function LineOf(h: Header): string {
    h.name + [':'] + h.value
  }

  function LinesOf(headers: seq<Header>): (lines: seq<string>)
    ensures |lines| == |headers| && forall i :: 0 <= i < |lines| ==> lines[i] == LineOf(headers[i])
  {
    seq(|headers|, i requires 0 <= i < |headers| => LineOf(headers[i]))
  }

  // The request line, the headers, the blank line and the body.
  function Request(first: string, headers: seq<Header>, body: string): string {
    Join([first] + LinesOf(headers), CRLF) + (BLANK_LINE + body)
  }

  // No carriage return inside, and nothing empty after the first.
  predicate Clean(lines: seq<string>) {
    lines != [] && '\r' !in lines[0] && forall i :: 1 <= i < |lines| ==> lines[i] != "" && '\r' !in lines[i]
  }

  // ---- Where the breaks are ----

  lemma AtReads(s: string, pattern: string, i: nat, k: nat)
    ensures At(s, pattern, i) && k < |pattern| ==> i + k < |s| && s[i + k] == pattern[k]
  {
    if At(s, pattern, i) && k < |pattern| { assert s[i..i + |pattern|][k] == s[i + k]; }
  }

  lemma NoBreakInside(line: string, rest: string, pattern: string, i: nat)
    requires '\r' !in line && i < |line| && pattern != "" && pattern[0] == '\r'
    ensures !At(line + rest, pattern, i)
  {
    var s := line + rest;
    assert line[i] in line && s[i] == line[i];
    AtReads(s, pattern, i, 0);
  }

  // A search for something that starts with a carriage return passes over a line.
  lemma {:induction false} SkipLine(line: string, rest: string, pattern: string, from: nat)
    requires '\r' !in line && from <= |line| && pattern != "" && pattern[0] == '\r'
    ensures FindFrom(line + rest, pattern, from) == FindFrom(line + rest, pattern, |line|)
    decreases |line| - from
  {
    if from < |line| {
      NoBreakInside(line, rest, pattern, from);
      SkipLine(line, rest, pattern, from + 1);
    }
  }

  lemma {:induction false} FoundInRest(line: string, rest: string, pattern: string, i: nat)
    requires FindFrom(rest, pattern, 0) == Some(i)
    ensures FindFrom(line + rest, pattern, |line|) == Some(|line| + i)
  {
    var s := line + rest;
    assert s[|line|..|s|] == rest;
    hide FindFrom;
    FindInSlice(s, pattern, |line|, |s|, 0);
    assert At(s, pattern, |line| + i) by { AtInSlice(s, pattern, |line|, |s|, i); }
    FindsTheFirst(s, pattern, |line|, |line| + i);
  }

  lemma BreakFirst(line: string, rest: string)
    requires '\r' !in line
    ensures FindFrom(line + (CRLF + rest), CRLF, 0) == Some(|line|)
  {
    var s := line + (CRLF + rest);
    SkipLine(line, CRLF + rest, CRLF, 0);
    assert s[|line|..|line| + 2] == CRLF;
    FindsHere(s, CRLF, |line|);
  }

  // After a break that a nonempty line follows, no blank line starts.
  lemma NoBlankAtBreak(line: string, rest: string)
    requires rest != "" && rest[0] != '\r'
    ensures !At(CRLF + rest, BLANK_LINE, 0) && !At(CRLF + rest, BLANK_LINE, 1)
  {
    var s := CRLF + rest;
    assert s[1] == '\n' && s[2] == rest[0];
    AtReads(s, BLANK_LINE, 0, 2);
    AtReads(s, BLANK_LINE, 1, 0);
  }

  lemma BlankLineAfter(line: string, body: string)
    requires '\r' !in line
    ensures FindFrom(line + (BLANK_LINE + body), BLANK_LINE, 0) == Some(|line|)
  {
    var s := line + (BLANK_LINE + body);
    SkipLine(line, BLANK_LINE + body, BLANK_LINE, 0);
    assert s[|line|..|line| + 4] == BLANK_LINE;
    FindsHere(s, BLANK_LINE, |line|);
  }

  lemma {:induction false} BlankLineEndsTheHead(lines: seq<string>, body: string)
    requires Clean(lines)
    ensures FindFrom(Join(lines, CRLF) + (BLANK_LINE + body), BLANK_LINE, 0) == Some(|Join(lines, CRLF)|)
  {
    hide FindFrom;
    if |lines| == 1 {
      BlankLineAfter(lines[0], body);
    } else {
      var tail, more := BLANK_LINE + body, Join(lines[1..], CRLF);
      BlankLineEndsTheHead(lines[1..], body);
      MoreStarts(lines[1..]);
      PastTheBreak(lines[0], more + tail, |more|);
      assert Join(lines, CRLF) + tail == lines[0] + (CRLF + (more + tail));
    }
  }

  lemma MoreStarts(lines: seq<string>)
    requires lines != [] && lines[0] != "" && '\r' !in lines[0]
    ensures Join(lines, CRLF) != "" && Join(lines, CRLF)[0] == lines[0][0] != '\r'
  {
    assert lines[0][0] in lines[0];
  }

  lemma {:induction false} PastTheBreak(line: string, rest: string, i: nat)
    requires '\r' !in line && rest != "" && rest[0] != '\r' && FindFrom(rest, BLANK_LINE, 0) == Some(i)
    ensures FindFrom(line + (CRLF + rest), BLANK_LINE, 0) == Some(|line| + 2 + i)
  {
    FoundInRest(CRLF, rest, BLANK_LINE, i);
    NoBlankAtBreak(line, rest);
    assert FindFrom(CRLF + rest, BLANK_LINE, 0) == Some(2 + i);
    FoundInRest(line, CRLF + rest, BLANK_LINE, 2 + i);
    SkipLine(line, CRLF + rest, BLANK_LINE, 0);
  }

  // ---- The lines read back ----

  lemma {:induction false} SplittingUndoesJoiningLines(lines: seq<string>)
    requires lines != [] && forall i :: 0 <= i < |lines| ==> '\r' !in lines[i]
    ensures Split(Join(lines, CRLF), CRLF) == lines
  {
    if |lines| == 1 {
      NoBreakAtAll(lines[0]);
      SplitNone(lines[0], CRLF);
    } else {
      var first, more := lines[0], Join(lines[1..], CRLF);
      assert Join(lines, CRLF) == first + (CRLF + more);
      BreakFirst(first, more);
      assert (first + (CRLF + more))[..|first|] == first && (first + (CRLF + more))[|first| + 2..] == more;
      SplitOff(first + (CRLF + more), CRLF, |first|);
      SplittingUndoesJoiningLines(lines[1..]);
    }
  }

  lemma NoBreakAtAll(line: string)
    requires '\r' !in line
    ensures FindFrom(line, CRLF, 0) == None
  {
    SkipLine(line, "", CRLF, 0);
    assert line + "" == line;
  }

  lemma {:induction false} LinesReadBack(first: string, headers: seq<Header>, body: string)
    requires '\r' !in first && headers != [] && forall h :: h in headers ==> IsHeader(h)
    ensures Lines(Request(first, headers, body)) == LinesOf(headers)
  {
    var lines := LinesOf(headers);
    HeadersAreClean(first, headers);
    JoinOfMore(first, lines);
    hide *;
    BlankLineEndsTheHead([first] + lines, body);
    HeadIsRead(first, lines, body);
    RequestIs(first, headers, body);
  }

  lemma RequestIs(first: string, headers: seq<Header>, body: string)
    ensures Request(first, headers, body) == Join([first] + LinesOf(headers), CRLF) + (BLANK_LINE + body)
  {
  }

  lemma Reassociate(first: string, more: string, tail: string)
    ensures first + CRLF + more + tail == first + (CRLF + (more + tail))
    ensures (first + CRLF + more + tail)[|first| + 2..|first| + 2 + |more|] == more
  {
  }

  lemma HeadIsRead(first: string, lines: seq<string>, body: string)
    requires '\r' !in first && lines != [] && forall i :: 0 <= i < |lines| ==> '\r' !in lines[i]
    requires Join([first] + lines, CRLF) == first + CRLF + Join(lines, CRLF)
    requires var head := Join([first] + lines, CRLF);
      FindFrom(head + (BLANK_LINE + body), BLANK_LINE, 0) == Some(|head|)
    ensures Lines(Join([first] + lines, CRLF) + (BLANK_LINE + body)) == lines
  {
    hide FindFrom, SplitFrom, Join;
    var more, tail := Join(lines, CRLF), BLANK_LINE + body;
    var raw := first + CRLF + more + tail;
    Reassociate(first, more, tail);
    BreakFirst(first, more + tail);
    SplittingUndoesJoiningLines(lines);
    SplitInPart(raw, more, CRLF, |first| + 2, |first| + 2 + |more|, 0);
  }

  lemma JoinOfMore(first: string, lines: seq<string>)
    requires lines != []
    ensures Join([first] + lines, CRLF) == first + CRLF + Join(lines, CRLF)
  {
    assert ([first] + lines)[1..] == lines;
  }

  lemma HeadersAreClean(first: string, headers: seq<Header>)
    requires '\r' !in first && forall h :: h in headers ==> IsHeader(h)
    ensures Clean([first] + LinesOf(headers))
    ensures forall i :: 0 <= i < |headers| ==> '\r' !in LinesOf(headers)[i]
  {
    forall i | 0 <= i < |headers| ensures LinesOf(headers)[i] != "" && '\r' !in LinesOf(headers)[i] {
      assert IsHeader(headers[i]);
    }
  }

  // ---- The values read back ----

  // The values of the headers with the name, in order.
  function Given(headers: seq<Header>, name: string): seq<string> {
    if headers == [] then []
    else (if SameName(Trim(headers[0].name), name) then [headers[0].value] else []) + Given(headers[1..], name)
  }

  lemma OneHeader(h: Header, name: string)
    requires IsHeader(h)
    ensures OnLine(LineOf(h), Named(name)) == if SameName(Trim(h.name), name) then [h.value] else []
  {
    FoundAfter(h.name, ':', h.value);
    assert LineOf(h)[..|h.name|] == h.name && LineOf(h)[|h.name| + 1..] == h.value;
  }

  lemma {:induction false} MatchingIsGiven(headers: seq<Header>, name: string)
    requires forall h :: h in headers ==> IsHeader(h)
    ensures Matching(LinesOf(headers), Named(name)) == Given(headers, name)
  {
    if headers != [] {
      OneHeader(headers[0], name);
      MatchingIsGiven(headers[1..], name);
      assert LinesOf(headers)[1..] == LinesOf(headers[1..]);
    }
  }

  // From a request written with these headers the scans read exactly their values, and the plain lookup the
  // trimmed value of the first header of that name, whatever the body holds.
  lemma {:induction false} HeadersReadBack(first: string, headers: seq<Header>, body: string, name: string)
    requires '\r' !in first && headers != [] && forall h :: h in headers ==> IsHeader(h)
    ensures var raw, given := Request(first, headers, body), Given(headers, name);
      && ValuesOf(raw, name) == given
      && FindHeader(raw, name) == if given == [] then "" else Trim(given[0])
  {
    LinesReadBack(first, headers, body);
    MatchingIsGiven(headers, name);
  }

  // ---- A length reads back ----

  // One more digit at the end.
  lemma OneMoreDigit(p: string, d: nat)
    requires d < 10 && DigitsAt(p, 0, |p|)
    ensures var s := p + [DIGITS[d]]; DigitsAt(s, 0, |s|) && Number(s) == 10 * Number(p) + d
  {
    var s := p + [DIGITS[d]];
    DigitIs(d);
    assert s[..|p|] == p[..|p|];
    PrefixNumber(s, p, |p|);
  }

  lemma {:induction false} DecimalIsNumber(n: nat)
    ensures var s := Decimal(n);
      DigitsAt(s, 0, |s|) && Number(s) == n && n < Pow10(|s|) && (0 < n ==> Pow10(|s| - 1) <= n)
  {
    var p := if n < 10 then "" else Decimal(n / 10);
    assert Decimal(n) == p + [DIGITS[n % 10]];
    if 10 <= n { DecimalIsNumber(n / 10); }
    assert n == 10 * (n / 10) + n % 10;
    OneMoreDigit(p, n % 10);
    hide Decimal, NumberAt, DigitsAt;
  }

  lemma DigitIs(d: nat)
    requires d < 10
    ensures '0' <= DIGITS[d] <= '9' && DIGITS[d] as int - '0' as int == d
  {
  }

  lemma {:induction false} PrefixNumber(s: string, t: string, count: nat)
    requires count <= |s| && count <= |t| && s[..count] == t[..count]
    ensures NumberAt(s, 0, count) == NumberAt(t, 0, count)
  {
    if count != 0 {
      assert s[count - 1] == s[..count][count - 1] == t[count - 1];
      assert s[..count - 1] == s[..count][..count - 1] == t[..count - 1];
      PrefixNumber(s, t, count - 1);
    }
  }

  // A decimal is a length exactly if it is below 10^18.
  lemma {:induction false} LengthsAreDecimals(n: nat)
    ensures IsLength(Decimal(n)) <==> n < 1_000_000_000_000_000_000
  {
    var s := Decimal(n);
    DecimalIsNumber(n);
    Pow10Of18();
    if |s| <= 18 { Pow10Grows(|s|, 18); } else { Pow10Grows(18, |s| - 1); }
  }

  lemma {:induction false} DigitsStayWhole(s: string)
    requires s != "" && DigitsAt(s, 0, |s|)
    ensures Trim(s) == s && Members(s, Trim) == [s]
  {
    assert '0' <= s[0] <= '9' && '0' <= s[|s| - 1] <= '9';
    assert First(s) == 0 && End(s) == |s| && s[0..|s|] == s;
    forall i | 0 <= i < |s| ensures !At(s, ",", i) { AtReads(s, ",", i, 0); }
    assert FindFrom(s, ",", 0) == None;
  }

  // A request that gives a decimal as its one Content-Length is read as valid with that value exactly if the
  // number is below 10^18.
  lemma {:induction false} ContentLengthReadsBack(first: string, n: nat, body: string)
    requires '\r' !in first
    ensures ContentLength(Request(first, [Header("Content-Length", Decimal(n))], body))
         == if n < 1_000_000_000_000_000_000 then Outcome(true, true, n) else Outcome(true, false, 0)
  {
    hide *;
    var s := Decimal(n);
    var h := Header("Content-Length", s);
    DecimalIsNumber(n);
    DigitsHaveNoBreak(s);
    NameReadsBack();
    LengthHeader(h);
    OneValue(first, h, body);
    OneLength(Request(first, [h], body), s);
    DecimalIsJudged(s, n);
  }

  lemma LengthHeader(h: Header)
    requires '\r' !in h.name && ':' !in h.name && '\r' !in h.value
    ensures IsHeader(h)
  {
  }

  lemma OneLength(raw: string, s: string)
    requires ValuesOf(raw, "Content-Length") == [s]
    ensures ContentLength(raw) == JudgeAll([s])
  {
    hide ValuesOf, JudgeAll;
  }

  lemma {:induction false} DecimalIsJudged(s: string, n: nat)
    requires s == Decimal(n)
    ensures JudgeAll([s]) == if n < 1_000_000_000_000_000_000 then Outcome(true, true, n) else Outcome(true, false, 0)
  {
    DecimalIsNumber(n);
    LengthsAreDecimals(n);
    DigitsStayWhole(s);
    hide Decimal, Members, Trim, Number, NumberAt, DigitsAt, IsLength, Pow10;
    OneMember(s);
  }

  lemma DigitsHaveNoBreak(s: string)
    requires DigitsAt(s, 0, |s|)
    ensures '\r' !in s
  {
  }

  lemma OneMember(s: string)
    requires Members(s, Trim) == [s]
    ensures AllMembers([s], Trim) == [s]
  {
    hide Members;
    assert [s][..0] == [] && AllMembers([], Trim) == [];
  }

  lemma OneValue(first: string, h: Header, body: string)
    requires '\r' !in first && IsHeader(h) && SameName(Trim(h.name), "Content-Length")
    ensures ValuesOf(Request(first, [h], body), "Content-Length") == [h.value]
  {
    hide SameName, Trim;
    HeadersReadBack(first, [h], body, "Content-Length");
    assert [h][1..] == [] && Given([], "Content-Length") == [];
  }

  lemma TrimmedAlready(s: string)
    requires s != "" && !IsBlank(s[0]) && !IsBlankOrCr(s[|s| - 1])
    ensures Trim(s) == s
  {
    assert s[0..|s|] == s;
  }

  lemma NameReadsBack()
    ensures SameName(Trim("Content-Length"), "Content-Length")
    ensures '\r' !in "Content-Length" && ':' !in "Content-Length"
  {
    hide SameName, Trim;
    TrimmedAlready("Content-Length");
    SameNameIgnoresCase("Content-Length", "Content-Length");
  }
}
