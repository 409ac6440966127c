/** Content-Length extraction and header lookup over the bytes of a raw HTTP request. */
module HeaderParse {
  import opened Basics
  import opened Text

  const CRLF := "\r\n"
  const BLANK_LINE := "\r\n\r\n"

  predicate IsBlankOrCr(c: char) {
    IsBlank(c) || c == '\r'
  }

  // find_first_not_of(" \t"), or the length.
  function First(s: string): (n: nat)
    ensures n <= |s|
  {
    if s == "" || !IsBlank(s[0]) then 0 else 1 + First(s[1..])
  }

  // One past find_last_not_of(" \t\r"), or 0.
  function End(s: string): (n: nat)
    ensures n <= |s| && (0 < n ==> !IsBlankOrCr(s[n - 1]))
  {
    if s == "" || !IsBlankOrCr(s[|s| - 1]) then |s| else End(s[..|s| - 1])
  }

  lemma {:induction false} SkippedAreBlank(s: string, i: nat)
    requires i < First(s)
    ensures IsBlank(s[i])
  {
    if 0 < i { SkippedAreBlank(s[1..], i - 1); }
  }

  // substr(first, last - first + 1).  A text of only blanks and CRs has no last: the count
  // then wraps to 0 when first is 0, and otherwise reaches past the end.
  function Trim(s: string): string {
    var first, end := First(s), End(s);
    if first == |s| then ""
    else if end == 0 then if first == 0 then "" else s[first..]
    else if end <= first then assert false by { SkippedAreBlank(s, end - 1); } ""
    else s[first..end]
  }

  lemma {:induction false} CutIsBlank(s: string, i: nat)
    requires End(s) <= i < |s|
    ensures IsBlankOrCr(s[i])
  {
    if i < |s| - 1 { CutIsBlank(s[..|s| - 1], i); }
  }

  // A text with more than blanks and CRs is cut to its middle: blanks off the front, blanks and CRs
  // off the end.
  lemma {:induction false} TrimTakesTheMiddle(s: string) returns (m: nat, n: nat)
    requires exists i :: 0 <= i < |s| && !IsBlankOrCr(s[i])
    ensures m < n <= |s| && Trim(s) == s[m..n] && !IsBlank(s[m]) && !IsBlankOrCr(s[n - 1])
    ensures (forall i :: 0 <= i < m ==> IsBlank(s[i])) && (forall i :: n <= i < |s| ==> IsBlankOrCr(s[i]))
  {
    m, n := First(s), End(s);
    forall i | 0 <= i < m ensures IsBlank(s[i]) { SkippedAreBlank(s, i); }
    forall i | n <= i < |s| ensures IsBlankOrCr(s[i]) { CutIsBlank(s, i); }
    if m < |s| { FirstIsNotBlank(s); }
  }

  // One with nothing else becomes empty, unless a blank comes before a CR: then only those blanks go.
  lemma {:induction false} TrimOfBlanks(s: string)
    requires forall i :: 0 <= i < |s| ==> IsBlankOrCr(s[i])
    ensures Trim(s) == "" <==> s == "" || !IsBlank(s[0]) || '\r' !in s
    ensures Trim(s) != "" ==> '\r' == Trim(s)[0] && Trim(s) == s[First(s)..]
  {
    if First(s) < |s| {
      FirstIsNotBlank(s);
      assert s[First(s)] == '\r';
    } else {
      forall i | 0 <= i < |s| ensures s[i] != '\r' { SkippedAreBlank(s, i); }
    }
    assert End(s) == 0;
  }

  lemma {:induction false} FirstIsNotBlank(s: string)
    requires First(s) < |s|
    ensures !IsBlank(s[First(s)])
  {
    if IsBlank(s[0]) { FirstIsNotBlank(s[1..]); }
  }

  // Equal without case.
  predicate SameName(a: string, b: string) {
    |a| == |b| && (a == "" || (LowerChar(a[0]) == LowerChar(b[0]) && SameName(a[1..], b[1..])))
  }

  // Names are the same exactly if they are in lower case.
  lemma {:induction false} SameNameIgnoresCase(a: string, b: string)
    ensures SameName(a, b) <==> Lower(a) == Lower(b)
  {
    if |a| == |b| && a != "" {
      SameNameIgnoresCase(a[1..], b[1..]);
      assert Lower(a) == [LowerChar(a[0])] + Lower(a[1..]) && Lower(b) == [LowerChar(b[0])] + Lower(b[1..]);
      assert Lower(a)[1..] == Lower(a[1..]) && Lower(b)[1..] == Lower(b[1..]);
    }
  }

  // The loop that decides it.
  method EqualsIgnoreCase(a: string, b: string) returns (same: bool)
    ensures same <==> SameName(a, b)
  {
    if |a| != |b| { return false; }
    for i := 0 to |a|
      invariant SameName(a, b) <==> SameName(a[i..], b[i..])
    {
      if LowerChar(a[i]) != LowerChar(b[i]) { return false; }
      assert a[i..][1..] == a[i + 1..] && b[i..][1..] == b[i + 1..];
    }
    same := true;
  }

  // ---- What a request says ----

  function BlockEnd(raw: string): (n: nat)
    ensures n <= |raw|
  {
    match FindFrom(raw, BLANK_LINE, 0)
    case Some(h) => h
    case None => |raw|
  }

  // The lines of the head after the request line.
  function Lines(raw: string): seq<string> {
    match FindFrom(raw, CRLF, 0)
    case None => []
    case Some(p) => if p + 2 <= BlockEnd(raw) then SplitFrom(raw, CRLF, p + 2, BlockEnd(raw)) else []
  }

  predicate HasName(text: string, name: string) {
    SameName(Trim(text), name)
  }

  function Named(name: string): string -> bool {
    text => HasName(text, name)
  }

  // The raw value of a line whose text up to the first colon is the name.
  function OnLine(line: string, isName: string -> bool): seq<string> {
    var colon := FindFrom(line, ":", 0);
    if colon.Some? && isName(line[..colon.value]) then [line[colon.value + 1..]] else []
  }

  function Matching(lines: seq<string>, isName: string -> bool): seq<string> {
    if lines == [] then [] else OnLine(lines[0], isName) + Matching(lines[1..], isName)
  }

  // The raw values of that name in the lines of the head.
  function ValuesOf(raw: string, name: string): seq<string> {
    Matching(Lines(raw), Named(name))
  }

  // The comma-separated members of one value, from a position on.
  function MembersFrom(value: string, at: nat, trim: string -> string): (r: seq<string>)
    requires at <= |value|
    ensures r != []
    decreases |value| - at
  {
    match FindFrom(value, ",", at)
    case None => [trim(value[at..])]
    case Some(c) => [trim(value[at..c])] + MembersFrom(value, c + 1, trim)
  }

  function Members(value: string, trim: string -> string): (r: seq<string>)
    ensures r != []
  {
    MembersFrom(value, 0, trim)
  }

  function AllMembers(values: seq<string>, trim: string -> string): seq<string> {
    if values == [] then [] else AllMembers(values[..|values| - 1], trim) + Members(values[|values| - 1], trim)
  }

  function Number(s: string): int {
    NumberAt(s, 0, |s|)
  }

  predicate IsLength(s: string) {
    1 <= |s| <= 18 && DigitsAt(s, 0, |s|)
  }

  datatype Outcome = Outcome(present: bool, valid: bool, value: nat)

  // Every member is a length, and all of them say the same.
  predicate Agree(members: seq<string>) {
    forall m :: m in members ==> IsLength(m) && Number(m) == Number(members[0])
  }

  function Judge(members: seq<string>): (o: Outcome)
    requires members != []
  {
    if Agree(members) then Outcome(true, true, NaturalNumber(members[0])) else Outcome(true, false, 0)
  }

  function NaturalNumber(s: string): (n: nat)
    requires IsLength(s)
    ensures n == Number(s) && n < 1_000_000_000_000_000_000
  {
    NumberIsBounded(s, |s|);
    assert Pow10(|s|) <= Pow10(18) by { Pow10Grows(|s|, 18); }
    assert Pow10(18) == 1_000_000_000_000_000_000 by { Pow10Of18(); }
    Number(s)
  }

  function ContentLength(raw: string): Outcome {
    var values := ValuesOf(raw, "Content-Length");
    if values == [] then Outcome(false, false, 0) else JudgeAll(values)
  }

  function JudgeAll(values: seq<string>): Outcome
    requires values != []
  {
    Judge(AllMembers(values, Trim))
  }

  function FindHeader(raw: string, name: string): string {
    var values := ValuesOf(raw, name);
    if values == [] then "" else Trim(values[0])
  }

  // ---- Digits ----

  lemma {:induction false} Pow10Grows(m: nat, n: nat)
    requires m <= n
    ensures Pow10(m) <= Pow10(n)
  {
    if m < n { Pow10Grows(m, n - 1); }
  }

  lemma Pow10Of18()
    ensures Pow10(18) == 1_000_000_000_000_000_000
  {
    assert Pow10(3) == 1000;
    assert Pow10(6) == 1_000_000;
    assert Pow10(9) == 1_000_000_000;
    assert Pow10(12) == 1_000_000_000_000;
    assert Pow10(15) == 1_000_000_000_000_000;
  }

  lemma {:induction false} NumberIsBounded(s: string, count: nat)
    requires count <= |s| && DigitsAt(s, 0, count)
    ensures 0 <= NumberAt(s, 0, count) < Pow10(count)
  {
    if count != 0 { NumberIsBounded(s, count - 1); }
  }

  // ---- The scan ----

  // No line break straddles the end of the block.
  lemma BlockEndsAtLine(raw: string)
    ensures 0 < BlockEnd(raw) ==> !At(raw, CRLF, BlockEnd(raw) - 1)
  {
    var end := BlockEnd(raw);
    if end < |raw| { assert raw[end] == BLANK_LINE[0] == raw[end..end + 4][0]; }
    if 0 < end < |raw| { assert raw[end] == raw[end - 1..end + 1][1]; }
  }

  function LineEnd(raw: string, at: nat, stop: nat): (n: nat)
    requires at < stop <= |raw|
    ensures at <= n <= stop
  {
    var found := FindFrom(raw, CRLF, at);
    if found == None || found.value > stop then stop else found.value
  }

  // What one turn of the scan finds between two positions.
  function Found(raw: string, at: nat, end: nat, isName: string -> bool): seq<string>
    requires at <= end <= |raw|
  {
    var colon := FindFrom(raw, ":", at);
    if colon.Some? && colon.value < end && isName(raw[at..colon.value]) then [raw[colon.value + 1..end]] else []
  }

  function Scan(raw: string, at: nat, stop: nat, isName: string -> bool): seq<string>
    requires stop <= |raw|
    decreases stop + 2 - at
  {
    if stop <= at then []
    else
      var end := LineEnd(raw, at, stop);
      Found(raw, at, end, isName) + Scan(raw, end + 2, stop, isName)
  }

  // Searching the colon in the whole request and then comparing it with the line's end is
  // searching it in the line.
  lemma {:induction false} FoundIsOnLine(raw: string, at: nat, end: nat, isName: string -> bool)
    requires at <= end <= |raw|
    ensures Found(raw, at, end, isName) == OnLine(raw[at..end], isName)
  {
    FindInSlice(raw, ":", at, end, 0);
    var colon, line := FindFrom(raw, ":", at), raw[at..end];
    if colon.Some? && colon.value < end {
      assert line[..colon.value - at] == raw[at..colon.value];
      assert line[colon.value - at + 1..] == raw[colon.value + 1..end];
    }
  }

  lemma MatchingFirst(all: seq<string>, line: string, more: seq<string>, isName: string -> bool)
    requires all == [line] + more
    ensures Matching(all, isName) == OnLine(line, isName) + Matching(more, isName)
  {
    assert all[1..] == more;
  }

  // The line the scan reads is the first line of the block, which no line break straddles.
  lemma {:induction false} FirstLine(raw: string, at: nat, stop: nat)
    requires at < stop <= |raw| && !At(raw, CRLF, stop - 1)
    ensures var end := LineEnd(raw, at, stop);
      SplitFrom(raw, CRLF, at, stop)
        == [raw[at..end]] + if end + 2 <= stop then SplitFrom(raw, CRLF, end + 2, stop) else []
  {
  }

  lemma EmptyLine(isName: string -> bool)
    ensures Matching([""], isName) == []
  {
    assert FindFrom("", ":", 0) == None;
  }

  // What the scan finds in the rest of the block after a line.
  function Later(raw: string, at: nat, stop: nat, isName: string -> bool): seq<string>
    requires stop <= |raw|
  {
    if at <= stop then Matching(SplitFrom(raw, CRLF, at, stop), isName) else []
  }

  lemma OneLine(raw: string, at: nat, stop: nat, isName: string -> bool)
    requires at < stop <= |raw| && !At(raw, CRLF, stop - 1)
    ensures var end := LineEnd(raw, at, stop);
      Matching(SplitFrom(raw, CRLF, at, stop), isName)
        == Found(raw, at, end, isName) + Later(raw, end + 2, stop, isName)
  {
    hide FindFrom, SplitFrom, LineEnd, OnLine, Found;
    var end := LineEnd(raw, at, stop);
    FoundIsOnLine(raw, at, end, isName);
    FirstLine(raw, at, stop);
    var more := if end + 2 <= stop then SplitFrom(raw, CRLF, end + 2, stop) else [];
    MatchingFirst(SplitFrom(raw, CRLF, at, stop), raw[at..end], more, isName);
  }

  // The scan by positions finds what the lines of the block have, as no line break straddles its end.
  lemma {:induction false} ScanIsSplit(raw: string, at: nat, stop: nat, isName: string -> bool)
    requires stop <= |raw| && (0 < stop ==> !At(raw, CRLF, stop - 1))
    ensures Scan(raw, at, stop, isName) == Later(raw, at, stop, isName)
    decreases stop + 2 - at
  {
    hide FindFrom, LineEnd, Found, Matching;
    if at == stop {
      EmptyLine(isName);
      assert raw[at..stop] == "";
    } else if at < stop {
      OneLine(raw, at, stop, isName);
      ScanIsSplit(raw, LineEnd(raw, at, stop) + 2, stop, isName);
    }
  }

  lemma {:induction false} ValuesAreScanned(raw: string, first: nat, name: string)
    requires FindFrom(raw, CRLF, 0) == Some(first)
    ensures ValuesOf(raw, name) == Scan(raw, first + 2, BlockEnd(raw), Named(name))
  {
    hide FindFrom, SplitFrom, BlockEnd, Scan;
    BlockEndsAtLine(raw);
    ScanIsSplit(raw, first + 2, BlockEnd(raw), Named(name));
  }

  lemma {:induction false} AllMembersOfOneMore(values: seq<string>, value: string, trim: string -> string)
    ensures AllMembers(values + [value], trim) == AllMembers(values, trim) + Members(value, trim)
  {
    assert (values + [value])[..|values|] == values;
  }

  // The body of both scans: the raw value on the line, if its name is the one sought.
  method ReadLine(raw: string, lineStart: nat, lineEnd: nat, isName: string -> bool) returns (value: Option<string>)
    requires lineStart <= lineEnd <= |raw|
    ensures Found(raw, lineStart, lineEnd, isName) == if value.Some? then [value.value] else []
  {
    var colon := FindFrom(raw, ":", lineStart);
    if colon.Some? && colon.value < lineEnd {
      if isName(raw[lineStart..colon.value]) { return Some(raw[colon.value + 1..lineEnd]); }
    }
    value := None;
  }

  lemma ScanStep(raw: string, at: nat, stop: nat, isName: string -> bool, found: Option<string>)
    requires at < stop <= |raw|
    requires Found(raw, at, LineEnd(raw, at, stop), isName) == if found.Some? then [found.value] else []
    ensures var rest := Scan(raw, LineEnd(raw, at, stop) + 2, stop, isName);
      Scan(raw, at, stop, isName) == if found.Some? then [found.value] + rest else rest
  {
    var rest := Scan(raw, LineEnd(raw, at, stop) + 2, stop, isName);
    assert [] + rest == rest;
  }

  // The loop over the lines, up to the first match.
  method FirstMatch(raw: string, start: nat, blockEnd: nat, isName: string -> bool) returns (value: Option<string>)
    requires blockEnd <= |raw|
    ensures var all := Scan(raw, start, blockEnd, isName); value == if all == [] then None else Some(all[0])
  {
    var lineStart := start;
    while lineStart < blockEnd
      invariant Scan(raw, start, blockEnd, isName) == Scan(raw, lineStart, blockEnd, isName)
      decreases blockEnd + 2 - lineStart
    {
      var lineEnd := LineEnd(raw, lineStart, blockEnd);
      value := ReadLine(raw, lineStart, lineEnd, isName);
      ScanStep(raw, lineStart, blockEnd, isName, value);
      if value.Some? { return; }
      lineStart := lineEnd + 2;
    }
    value := None;
  }

  method FindHeaderValueCaseInsensitive(raw: string, name: string) returns (value: string)
    ensures value == FindHeader(raw, name)
  {
    var first := FindFrom(raw, CRLF, 0);
    if first == None { return ""; }
    var found := FirstMatch(raw, first.value + 2, BlockEnd(raw), Named(name));
    ValuesAreScanned(raw, first.value, name);
    value := if found.Some? then Trim(found.value) else "";
  }

  // The inner loop: the members of one raw value.
  method PushMembers(values: seq<string>, rawValue: string, trim: string -> string) returns (r: seq<string>)
    ensures r == values + Members(rawValue, trim)
  {
    hide FindFrom;
    r := values;
    var tokenStart := 0;
    while tokenStart <= |rawValue|
      invariant tokenStart <= |rawValue|
      invariant values + Members(rawValue, trim) == r + MembersFrom(rawValue, tokenStart, trim)
    {
      var comma := FindFrom(rawValue, ",", tokenStart);
      if comma == None { return r + [trim(rawValue[tokenStart..])]; }
      var member := trim(rawValue[tokenStart..comma.value]);
      tokenStart := comma.value + 1;
      Regroup(r, member, MembersFrom(rawValue, tokenStart, trim));
      r := r + [member];
    }
  }

  lemma Units(a: seq<string>)
    ensures [] + a == a + [] == a
  {
  }

  // The innermost loop: a length of at most 18 digits, in 64-bit arithmetic.
  method ParseLength(value: string) returns (ok: bool, parsed: nat)
    ensures ok <==> IsLength(value)
    ensures ok ==> parsed == Number(value) && parsed < 1_000_000_000_000_000_000
  {
    parsed := 0;
    if value == "" || |value| > 18 { return false, 0; }
    for k := 0 to |value|
      invariant DigitsAt(value, 0, k) && parsed == NumberAt(value, 0, k) && parsed < Pow10(k)
    {
      if value[k] < '0' || '9' < value[k] { return false, 0; }
      Pow10Grows(k + 1, 18);
      Pow10Of18();
      parsed := (parsed * 10 + (value[k] as int - '0' as int)) % TWO_POW_64;
    }
    Pow10Grows(|value|, 18);
    Pow10Of18();
    ok := true;
  }

  // The last loop: one common value.
  method CommonLength(values: seq<string>) returns (outcome: Outcome)
    requires values != []
    ensures outcome == Judge(values)
  {
    outcome := Outcome(true, false, 0);
    var haveExpected, expected := false, 0;
    for i := 0 to |values|
      invariant haveExpected <==> 0 < i
      invariant forall j :: 0 <= j < i ==> IsLength(values[j]) && Number(values[j]) == expected
    {
      assert values[i] in values;
      var ok, parsed := ParseLength(values[i]);
      if !ok { return; }
      if !haveExpected {
        expected, haveExpected := parsed, true;
        continue;
      }
      if parsed != expected { return; }
    }
    assert Agree(values);
    outcome := Outcome(true, true, expected);
  }

  // After the turns before a position: the values found so far and those the scan finds from there make up
  // all, and the members pushed are those of the former.
  predicate Collected(raw: string, at: nat, stop: nat, isName: string -> bool, trim: string -> string, all: seq<string>,
                      seen: seq<string>, values: seq<string>)
    requires stop <= |raw|
  {
    all == seen + Scan(raw, at, stop, isName) && values == AllMembers(seen, trim)
  }

  function Seen(seen: seq<string>, found: Option<string>): seq<string> {
    if found.Some? then seen + [found.value] else seen
  }

  lemma {:induction false} TurnKeepsCollected(
      raw: string, at: nat, stop: nat, isName: string -> bool, trim: string -> string, all: seq<string>,
      seen: seq<string>, values: seq<string>, found: Option<string>)
    requires at < stop <= |raw| && Collected(raw, at, stop, isName, trim, all, seen, values)
    requires Found(raw, at, LineEnd(raw, at, stop), isName) == if found.Some? then [found.value] else []
    ensures Collected(raw, LineEnd(raw, at, stop) + 2, stop, isName, trim, all, Seen(seen, found),
                      if found.Some? then values + Members(found.value, trim) else values)
    ensures Seen(seen, found) != [] <==> seen != [] || found.Some?
  {
    ScanStep(raw, at, stop, isName, found);
    if found.Some? {
      Regroup(seen, found.value, Scan(raw, LineEnd(raw, at, stop) + 2, stop, isName));
      AllMembersOfOneMore(seen, found.value, trim);
    }
  }

  lemma CollectedAtStart(raw: string, at: nat, stop: nat, isName: string -> bool, trim: string -> string)
    requires stop <= |raw|
    ensures Collected(raw, at, stop, isName, trim, Scan(raw, at, stop, isName), [], [])
  {
    Units(Scan(raw, at, stop, isName));
    assert AllMembers([], trim) == [];
  }

  lemma CollectedAtEnd(raw: string, at: nat, stop: nat, isName: string -> bool, trim: string -> string,
                       all: seq<string>, seen: seq<string>, values: seq<string>)
    requires stop <= |raw| && stop <= at && Collected(raw, at, stop, isName, trim, all, seen, values)
    ensures seen == all && values == AllMembers(all, trim)
  {
    Units(seen);
  }

  method PushFound(present: bool, values: seq<string>, found: Option<string>, trim: string -> string)
    returns (p: bool, r: seq<string>)
    ensures p == (present || found.Some?)
    ensures r == if found.Some? then values + Members(found.value, trim) else values
  {
    p, r := present, values;
    if found.Some? {
      p := true;
      r := PushMembers(values, found.value, trim);
    }
  }

  // The loop over the lines, collecting the members of every match.
  method CollectMembers(raw: string, start: nat, blockEnd: nat, isName: string -> bool, trim: string -> string)
    returns (present: bool, values: seq<string>)
    requires blockEnd <= |raw|
    ensures var all := Scan(raw, start, blockEnd, isName); values == AllMembers(all, trim) && (present <==> all != [])
  {
    var lineStart := start;
    ghost var all, seen: seq<string> := Scan(raw, start, blockEnd, isName), [];
    present, values := false, [];
    CollectedAtStart(raw, start, blockEnd, isName, trim);
    while lineStart < blockEnd
      invariant Collected(raw, lineStart, blockEnd, isName, trim, all, seen, values)
      invariant present <==> seen != []
      decreases blockEnd + 2 - lineStart
    {
      var lineEnd := LineEnd(raw, lineStart, blockEnd);
      var found := ReadLine(raw, lineStart, lineEnd, isName);
      TurnKeepsCollected(raw, lineStart, blockEnd, isName, trim, all, seen, values, found);
      seen := Seen(seen, found);
      present, values := PushFound(present, values, found, trim);
      lineStart := lineEnd + 2;
    }
    CollectedAtEnd(raw, lineStart, blockEnd, isName, trim, all, seen, values);
  }

  method ParseContentLengthHeader(raw: string) returns (outcome: Outcome)
    ensures outcome == ContentLength(raw)
  {
    var first := FindFrom(raw, CRLF, 0);
    if first == None { return Outcome(false, false, 0); }
    var present, values := CollectMembers(raw, first.value + 2, BlockEnd(raw), Named("Content-Length"), Trim);
    ValuesAreScanned(raw, first.value, "Content-Length");
    if !present { return Outcome(false, false, 0); }
    outcome := CommonLength(values);
  }

  // ---- What the result means ----

  lemma {:induction false} MembersOfAll(values: seq<string>, m: string)
    ensures m in AllMembers(values, Trim) <==> exists v :: v in values && m in Members(v, Trim)
  {
    if values != [] {
      var before, last := values[..|values| - 1], values[|values| - 1];
      MembersOfAll(before, m);
      assert values == before + [last];
      if v :| v in values && m in Members(v, Trim) { assert v in before || v == last; }
      if m in Members(last, Trim) { assert last in values; }
    }
  }

  // Every member of every such header is 1 to 18 digits, with one common value.
  ghost predicate AllSay(values: seq<string>, n: nat) {
    forall v, m :: v in values && m in Members(v, Trim) ==> IsLength(m) && Number(m) == n
  }

  lemma {:induction false} ValidIffAllSayTheSame(raw: string)
    ensures var values, o := ValuesOf(raw, "Content-Length"), ContentLength(raw);
      && (o.present <==> values != [])
      && (o.valid <==> values != [] && exists n :: AllSay(values, n))
      && (o.valid ==> AllSay(values, o.value) && o.value < 1_000_000_000_000_000_000)
  {
    var values, o := ValuesOf(raw, "Content-Length"), ContentLength(raw);
    if values != [] { JudgedAll(values, Judge(AllMembers(values, Trim))); }
  }

  lemma {:induction false} JudgedAll(values: seq<string>, o: Outcome)
    requires values != [] && AllMembers(values, Trim) != [] && o == Judge(AllMembers(values, Trim))
    ensures o.present && (o.valid <==> exists n :: AllSay(values, n))
    ensures o.valid ==> AllSay(values, o.value) && o.value < 1_000_000_000_000_000_000
  {
    var members := AllMembers(values, Trim);
    forall m ensures m in members <==> exists v :: v in values && m in Members(v, Trim) {
      MembersOfAll(values, m);
    }
    if Agree(members) {
      assert members[0] in members;
      var n := NaturalNumber(members[0]);
      assert AllSay(values, n);
    }
    if n :| AllSay(values, n) {
      assert members[0] in members;
      assert Agree(members);
    }
  }

  lemma FirstBreak(raw: string, h: nat)
    requires At(raw, BLANK_LINE, h)
    ensures FindFrom(raw, CRLF, 0).Some? && FindFrom(raw, CRLF, 0).value <= h
  {
    assert raw[h..h + 2] == raw[h..h + 4][..2];
    FindsTheFirst(raw, CRLF, 0, h);
  }

  lemma {:induction false} HeadIsShared(raw: string, h: nat, other: string)
    requires FindFrom(raw, BLANK_LINE, 0) == Some(h) && h + 4 <= |other| && raw[0..h + 4] == other[0..h + 4]
    ensures BlockEnd(other) == BlockEnd(raw) == h && FindFrom(other, CRLF, 0) == FindFrom(raw, CRLF, 0)
  {
    FindInSharedPrefix(raw, other, BLANK_LINE, h + 4, h);
    FirstBreak(raw, h);
    FindInSharedPrefix(raw, other, CRLF, h + 4, FindFrom(raw, CRLF, 0).value);
  }

  lemma {:induction false} LinesAreShared(raw: string, other: string, at: nat, stop: nat, end: nat)
    requires at <= stop <= end && end <= |raw| && end <= |other| && raw[0..end] == other[0..end]
    ensures SplitFrom(raw, CRLF, at, stop) == SplitFrom(other, CRLF, at, stop)
  {
    assert raw[at..stop] == raw[0..end][at..stop] == other[at..stop];
    SplitInPart(raw, raw[at..stop], CRLF, at, stop, 0);
    SplitInPart(other, raw[at..stop], CRLF, at, stop, 0);
  }

  // Nothing after the blank line that ends the head is ever looked at.
  lemma {:induction false} OnlyTheHeadMatters(raw: string, h: nat, other: string, name: string)
    requires FindFrom(raw, BLANK_LINE, 0) == Some(h) && h + 4 <= |other| && raw[0..h + 4] == other[0..h + 4]
    ensures ContentLength(other) == ContentLength(raw) && FindHeader(other, name) == FindHeader(raw, name)
  {
    ValuesAreShared(raw, h, other, name);
    ValuesAreShared(raw, h, other, "Content-Length");
  }

  lemma ValuesAreShared(raw: string, h: nat, other: string, name: string)
    requires FindFrom(raw, BLANK_LINE, 0) == Some(h) && h + 4 <= |other| && raw[0..h + 4] == other[0..h + 4]
    ensures ValuesOf(other, name) == ValuesOf(raw, name)
  {
    HeadIsShared(raw, h, other);
    FirstBreak(raw, h);
    var from := FindFrom(raw, CRLF, 0).value + 2;
    if from <= h { LinesAreShared(raw, other, from, h, h + 4); }
    assert Lines(raw) == Lines(other);
  }

  // ---- Agreement of the two lookups ----

  lemma {:induction false} EndIsPast(s: string, i: nat)
    requires i < |s| && !IsBlankOrCr(s[i])
    ensures i < End(s)
  {
    if IsBlankOrCr(s[|s| - 1]) { EndIsPast(s[..|s| - 1], i); }
  }

  lemma {:induction false} FirstIs(s: string, i: nat)
    requires i < |s| && !IsBlank(s[i]) && forall k :: 0 <= k < i ==> IsBlank(s[k])
    ensures First(s) == i
  {
    if 0 < i { FirstIs(s[1..], i - 1); }
  }

  lemma {:induction false} EndOfSuffix(s: string, from: nat)
    requires from < End(s)
    ensures End(s[from..]) == End(s) - from
  {
    var t := s[from..];
    if IsBlankOrCr(s[|s| - 1]) {
      assert t[..|t| - 1] == s[..|s| - 1][from..];
      EndOfSuffix(s[..|s| - 1], from);
    }
  }

  // A trimmed text that is a length has its bounds where the scans stop.
  lemma {:induction false} TrimBounds(s: string)
    requires IsLength(Trim(s))
    ensures First(s) < End(s) && Trim(s) == s[First(s)..End(s)]
  {
    assert Trim(s)[0] == s[First(s)];
    EndIsPast(s, First(s));
  }

  lemma {:induction false} TrimOfTrimmed(x: string)
    requires IsLength(Trim(x))
    ensures Trim(x[First(x)..]) == Trim(x) && Trim(Trim(x)) == Trim(x)
  {
    TrimBounds(x);
    var f, e, m := First(x), End(x), Trim(x);
    assert x[f] == m[0];
    EndOfSuffix(x, f);
    assert x[f..][0..e - f] == m && m[0..|m|] == m;
  }

  lemma {:induction false} TrimWithComma(v: string, c: nat)
    requires FindFrom(v, ",", 0) == Some(c) && IsLength(Trim(v[..c]))
    ensures var f := First(v[..c]); f < c < End(v) && Trim(v) == v[f..End(v)]
  {
    var x := v[..c];
    TrimBounds(x);
    var f := First(x);
    assert v[f] == x[f] == Trim(x)[0];
    forall k | 0 <= k < f ensures IsBlank(v[k]) {
      SkippedAreBlank(x, k);
      assert v[k] == x[k];
    }
    FirstIs(v, f);
    assert v[c] == v[c..c + 1][0];
    EndIsPast(v, c);
  }

  lemma LengthsHaveNoComma(m: string)
    requires IsLength(m)
    ensures FindFrom(m, ",", 0) == None
  {
    forall i | 0 <= i < |m| ensures !At(m, ",", i) {
      assert m[i..i + 1][0] == m[i];
    }
  }

  lemma {:induction false} TrimmedStartsAlike(v: string, c: nat, f: nat, e: nat)
    requires FindFrom(v, ",", 0) == Some(c) && f <= c < e <= |v|
    ensures Members(v[f..e], Trim)[0] == Trim(v[..c][f..])
  {
    FirstFromHere(v, c, f);
    FindInSlice(v, ",", f, e, 0);
    assert v[f..e][0..c - f] == v[..c][f..];
  }

  lemma {:induction false} FirstMemberOfTrimmed(v: string)
    requires IsLength(Members(v, Trim)[0])
    ensures Members(Trim(v), Trim)[0] == Members(v, Trim)[0]
  {
    var comma := FindFrom(v, ",", 0);
    if comma.Some? {
      var c := comma.value;
      TrimWithComma(v, c);
      TrimOfTrimmed(v[..c]);
      TrimmedStartsAlike(v, c, First(v[..c]), End(v));
    } else {
      TrimOfTrimmed(v);
      LengthsHaveNoComma(Trim(v));
    }
  }

  lemma {:induction false} FirstFromHere(v: string, c: nat, from: nat)
    requires FindFrom(v, ",", 0) == Some(c) && from <= c
    ensures FindFrom(v, ",", from) == Some(c)
  {
    FindsTheFirst(v, ",", from, c);
    var i := FindFrom(v, ",", from).value;
    FindsTheFirst(v, ",", 0, i);
  }

  // When the length is valid, the first list member of the plain header lookup says the same.
  lemma {:induction false} LookupsAgree(raw: string)
    requires ContentLength(raw).valid
    ensures var m := Members(FindHeader(raw, "Content-Length"), Trim)[0];
      IsLength(m) && Number(m) == ContentLength(raw).value
  {
    ValidIffAllSayTheSame(raw);
    var values := ValuesOf(raw, "Content-Length");
    FirstSays(values, ContentLength(raw).value);
  }

  lemma MemberSays(values: seq<string>, v: string, m: string, n: nat)
    requires AllSay(values, n) && v in values && m in Members(v, Trim)
    ensures IsLength(m) && Number(m) == n
  {
  }

  lemma FirstSays(values: seq<string>, n: nat)
    requires values != [] && AllSay(values, n)
    ensures var m := Members(Trim(values[0]), Trim)[0]; IsLength(m) && Number(m) == n
  {
    MemberSays(values, values[0], Members(values[0], Trim)[0], n);
    FirstMemberOfTrimmed(values[0]);
  }
}
