/** Text as bytes: the character classes of the C locale, the order of texts, decimal digits, searching for a
    pattern, and splitting at a separator. */
module Text {
  import opened Basics

  function LowerChar(c: char): char {
    if 'A' <= c <= 'Z' then c + ' ' else c // ' ' is 0x20, the distance between the cases
  }

  function Lower(s: string): (r: string)
    ensures |r| == |s|
    ensures forall i :: 0 <= i < |s| ==> r[i] == LowerChar(s[i])
  {
    seq(|s|, i requires 0 <= i < |s| => LowerChar(s[i]))
  }

  predicate IsBlank(c: char) {
    c == ' ' || c == '\t'
  }

  predicate IsSpace(c: char) {
    c == ' ' || '\t' <= c <= '\r'
  }

  // The number of leading characters of s that satisfy p.
  function Leading(s: string, p: char -> bool): (n: nat)
    ensures n <= |s|
    ensures forall i :: 0 <= i < n ==> p(s[i])
    ensures n < |s| ==> !p(s[n])
  {
    if s == "" || !p(s[0]) then 0 else 1 + Leading(s[1..], p)
  }

  // The length of s without its trailing characters that satisfy p.
  function WithoutTrailing(s: string, p: char -> bool): (n: nat)
    ensures n <= |s|
    ensures forall i :: n <= i < |s| ==> p(s[i])
    ensures 0 < n ==> !p(s[n - 1])
  {
    if s == "" || !p(s[|s| - 1]) then |s| else WithoutTrailing(s[..|s| - 1], p)
  }

  // std::string's operator<, which is also SQLite's BINARY collation.
  predicate LexLess(a: string, b: string) {
    b != "" && (a == "" || a[0] < b[0] || (a[0] == b[0] && LexLess(a[1..], b[1..])))
  }

  // std::to_string of an unsigned value.
  function Decimal(n: nat): (s: string)
    ensures s != ""
  {
    (if n < 10 then "" else Decimal(n / 10)) + [DIGITS[n % 10]]
  }

  const DIGITS := "0123456789"

  lemma DigitsAreDistinct(i: nat, j: nat)
    requires i < 10 && j < 10 && DIGITS[i] == DIGITS[j]
    ensures i == j
  {
  }

  lemma {:induction false} DecimalIsInjective(m: nat, n: nat)
    requires Decimal(m) == Decimal(n)
    ensures m == n
  {
    var s := Decimal(m);
    assert DIGITS[m % 10] == s[|s| - 1] == DIGITS[n % 10];
    DigitsAreDistinct(m % 10, n % 10);
    assert s[..|s| - 1] == (if m < 10 then "" else Decimal(m / 10)) == if n < 10 then "" else Decimal(n / 10);
    if 10 <= m { DecimalIsInjective(m / 10, n / 10); }
  }

  function Pow10(n: nat): nat {
    if n == 0 then 1 else 10 * Pow10(n - 1)
  }

  // The value of count decimal digits from a position on.
  function NumberAt(s: string, from: nat, count: nat): int
    requires from + count <= |s|
  {
    if count == 0 then 0 else 10 * NumberAt(s, from, count - 1) + (s[from + count - 1] as int - '0' as int)
  }

  predicate DigitsAt(s: string, from: nat, count: nat)
    requires from + count <= |s|
  {
    forall i :: from <= i < from + count ==> '0' <= s[i] <= '9'
  }

  // The pattern occurs at a position.
  predicate At(s: string, pattern: string, i: nat) {
    i + |pattern| <= |s| && s[i..i + |pattern|] == pattern
  }

  // std::string::find.
  function FindFrom(s: string, pattern: string, from: nat): (r: Option<nat>)
    requires from <= |s|
    ensures r.Some? ==> from <= r.value && At(s, pattern, r.value)
    decreases |s| - from
  {
    if At(s, pattern, from) then Some(from) else if from == |s| then None else FindFrom(s, pattern, from + 1)
  }

  lemma FindsHere(s: string, pattern: string, i: nat)
    requires At(s, pattern, i)
    ensures FindFrom(s, pattern, i) == Some(i)
  {
  }

  lemma {:induction false} FindsTheFirst(s: string, pattern: string, from: nat, i: nat)
    requires from <= i && At(s, pattern, i)
    ensures FindFrom(s, pattern, from).Some? && FindFrom(s, pattern, from).value <= i
    decreases i - from
  {
    if from < i { FindsTheFirst(s, pattern, from + 1, i); }
  }

  lemma NotFound(s: string, c: char)
    requires c !in s
    ensures FindFrom(s, [c], 0) == None
  {
    forall i | 0 <= i < |s| ensures !At(s, [c], i) {
      assert s[i] == s[i..i + 1][0];
    }
  }

  lemma FoundAfter(first: string, c: char, rest: string)
    requires c !in first
    ensures FindFrom(first + [c] + rest, [c], 0) == Some(|first|)
  {
    var s := first + [c] + rest;
    assert s[|first|..|first| + 1] == [c];
    FindsTheFirst(s, [c], 0, |first|);
    var i := FindFrom(s, [c], 0).value;
    assert s[i] == s[i..i + 1][0] && s[..|first|] == first;
  }

  lemma SliceOfSlice(s: string, lo: nat, hi: nat, i: nat, j: nat)
    requires i <= j && lo + j <= hi <= |s|
    ensures s[lo..hi][i..j] == s[lo + i..lo + j]
  {
    var part, whole := s[lo..hi][i..j], s[lo + i..lo + j];
    forall k | 0 <= k < j - i ensures part[k] == whole[k] {
      assert part[k] == s[lo..hi][i + k] == s[lo + (i + k)];
    }
  }

  lemma AtInSlice(s: string, pattern: string, lo: nat, hi: nat, i: nat)
    requires lo <= hi <= |s|
    ensures At(s[lo..hi], pattern, i) <==> lo + i + |pattern| <= hi && At(s, pattern, lo + i)
  {
    if lo + i + |pattern| <= hi {
      SliceOfSlice(s, lo, hi, i, i + |pattern|);
    }
  }

  lemma {:induction false} FindInPart(s: string, t: string, pattern: string, lo: nat, hi: nat, from: nat)
    requires lo + from <= hi <= |s| && t == s[lo..hi]
    ensures var whole := FindFrom(s, pattern, lo + from);
      FindFrom(t, pattern, from)
        == if whole.Some? && whole.value + |pattern| <= hi then Some(whole.value - lo) else None
    decreases hi - lo - from
  {
    hide At;
    AtInSlice(s, pattern, lo, hi, from);
    if !At(t, pattern, from) && lo + from < hi {
      FindInPart(s, t, pattern, lo, hi, from + 1);
    }
  }

  // Searching a slice is searching the text within the slice's bounds.
  lemma FindInSlice(s: string, pattern: string, lo: nat, hi: nat, from: nat)
    requires lo + from <= hi <= |s|
    ensures var whole := FindFrom(s, pattern, lo + from);
      FindFrom(s[lo..hi], pattern, from)
        == if whole.Some? && whole.value + |pattern| <= hi then Some(whole.value - lo) else None
  {
    FindInPart(s, s[lo..hi], pattern, lo, hi, from);
  }

  // An occurrence within a shared prefix is found in both texts.
  lemma FindInSharedPrefix(s: string, t: string, pattern: string, end: nat, i: nat)
    requires end <= |s| && end <= |t| && s[0..end] == t[0..end]
    requires FindFrom(s, pattern, 0) == Some(i) && i + |pattern| <= end
    ensures FindFrom(t, pattern, 0) == Some(i)
  {
    FindInSlice(s, pattern, 0, end, 0);
    FindInSlice(t, pattern, 0, end, 0);
  }

  // The pieces between separators, from one position to another.
  function SplitFrom(s: string, separator: string, at: nat, end: nat): (pieces: seq<string>)
    requires separator != "" && at <= end <= |s|
    ensures pieces != []
    decreases end - at
  {
    var found := FindFrom(s, separator, at);
    if found.Some? && found.value + |separator| <= end then
      [s[at..found.value]] + SplitFrom(s, separator, found.value + |separator|, end)
    else [s[at..end]]
  }

  function Split(s: string, separator: string): seq<string>
    requires separator != ""
  {
    SplitFrom(s, separator, 0, |s|)
  }

  function Join(pieces: seq<string>, separator: string): string {
    if pieces == [] then ""
    else if |pieces| == 1 then pieces[0]
    else pieces[0] + separator + Join(pieces[1..], separator)
  }

  lemma SplitStep(s: string, separator: string, at: nat, i: nat, end: nat)
    requires separator != "" && at <= end <= |s| && FindFrom(s, separator, at) == Some(i) && i + |separator| <= end
    ensures SplitFrom(s, separator, at, end) == [s[at..i]] + SplitFrom(s, separator, i + |separator|, end)
  {
  }

  lemma SplitLast(s: string, separator: string, at: nat, end: nat)
    requires separator != "" && at <= end <= |s|
    requires FindFrom(s, separator, at) == None || end < FindFrom(s, separator, at).value + |separator|
    ensures SplitFrom(s, separator, at, end) == [s[at..end]]
  {
  }

  lemma {:induction false} SplitInPart(s: string, t: string, separator: string, lo: nat, hi: nat, at: nat)
    requires separator != "" && lo + at <= hi <= |s| && t == s[lo..hi]
    ensures SplitFrom(t, separator, at, hi - lo) == SplitFrom(s, separator, lo + at, hi)
    decreases hi - at
  {
    hide *;
    FindInPart(s, t, separator, lo, hi, at);
    var found, part := FindFrom(s, separator, lo + at), FindFrom(t, separator, at);
    if part.Some? {
      var i := part.value;
      SplitInPart(s, t, separator, lo, hi, i + |separator|);
      SplitStep(t, separator, at, i, hi - lo);
      SplitStep(s, separator, lo + at, lo + i, hi);
      SliceOfSlice(s, lo, hi, at, i);
    } else {
      SplitLast(t, separator, at, hi - lo);
      SplitLast(s, separator, lo + at, hi);
      SliceOfSlice(s, lo, hi, at, hi - lo);
    }
  }

  // The first separator takes off the first piece.
  lemma SplitOff(s: string, separator: string, i: nat)
    requires separator != "" && FindFrom(s, separator, 0) == Some(i)
    ensures Split(s, separator) == [s[..i]] + Split(s[i + |separator|..], separator)
  {
    hide FindFrom, SplitFrom;
    var from := i + |separator|;
    var rest := s[from..];
    assert rest == s[from..|s|];
    assert s[0..i] == s[..i];
    SplitStep(s, separator, 0, i, |s|);
    SplitInPart(s, rest, separator, from, |s|, 0);
    assert Split(s, separator) == [s[..i]] + SplitFrom(s, separator, from, |s|);
    assert Split(rest, separator) == SplitFrom(s, separator, from, |s|);
  }

  lemma SplitNone(s: string, separator: string)
    requires separator != "" && FindFrom(s, separator, 0) == None
    ensures Split(s, separator) == [s]
  {
    assert s[0..|s|] == s;
  }

  lemma ThreeSlices(s: string, a: nat, b: nat, c: nat, d: nat)
    requires a <= b <= c <= d <= |s|
    ensures s[a..d] == s[a..b] + s[b..c] + s[c..d]
  {
  }

  lemma {:induction false} JoiningUndoesSplittingFrom(s: string, separator: string, at: nat, end: nat)
    requires separator != "" && at <= end <= |s|
    ensures Join(SplitFrom(s, separator, at, end), separator) == s[at..end]
    decreases end - at
  {
    hide FindFrom;
    var found := FindFrom(s, separator, at);
    if found.Some? && found.value + |separator| <= end {
      var i := found.value;
      JoiningUndoesSplittingFrom(s, separator, i + |separator|, end);
      ThreeSlices(s, at, i, i + |separator|, end);
    }
  }

  lemma {:induction false} JoiningUndoesSplitting(s: string, separator: string)
    requires separator != ""
    ensures Join(Split(s, separator), separator) == s
  {
    JoiningUndoesSplittingFrom(s, separator, 0, |s|);
    assert s[0..|s|] == s;
  }

  lemma {:induction false} PiecesFromHaveNoSeparator(s: string, c: char, at: nat, end: nat)
    requires at <= end <= |s|
    ensures forall p :: p in SplitFrom(s, [c], at, end) ==> c !in p
    decreases end - at
  {
    var found := FindFrom(s, [c], at);
    forall k | at <= k < |s| && s[k] == c ensures found.Some? && found.value <= k {
      assert s[k..k + 1] == [c];
      FindsTheFirst(s, [c], at, k);
    }
    if found.Some? && found.value + 1 <= end { PiecesFromHaveNoSeparator(s, c, found.value + 1, end); }
  }

  lemma {:induction false} PiecesHaveNoSeparator(s: string, c: char)
    ensures forall p :: p in Split(s, [c]) ==> c !in p
  {
    PiecesFromHaveNoSeparator(s, c, 0, |s|);
  }
}
