/** Route segments, patterns with "*" segments, and the method lookup of the admin API. */
module Routes {
  import opened Basics
  import opened Text

  method SplitRouteSegments(path: string) returns (segments: seq<string>)
    ensures segments == Split(path, "/")
  {
    segments := [];
    var start := 0;
    ghost var rest := Split(path, "/");
    while start <= |path|
      invariant start <= |path|
      invariant rest == SplitFrom(path, "/", start, |path|)
      invariant segments + rest == Split(path, "/")
    {
      var slash := FindFrom(path, "/", start);
      var segment := path[start..if slash == None then |path| else slash.value];
      if slash == None { return segments + [segment]; }
      start := slash.value + 1;
      ghost var more := SplitFrom(path, "/", start, |path|);
      Regroup(segments, segment, more);
      segments, rest := segments + [segment], more;
    }
  }

  // ---- Patterns ----

  predicate SegmentMatches(segment: string, pattern: string) {
    if pattern == "*" then segment != "" else segment == pattern
  }

  predicate SegmentsMatch(path: seq<string>, pattern: seq<string>) {
    |path| == |pattern| && forall i :: 0 <= i < |path| ==> SegmentMatches(path[i], pattern[i])
  }

  method RoutePatternMatches(path: string, pattern: string) returns (matches: bool)
    ensures matches <==> SegmentsMatch(Split(path, "/"), Split(pattern, "/"))
  {
    var pathSegments := SplitRouteSegments(path);
    var patternSegments := SplitRouteSegments(pattern);
    if |pathSegments| != |patternSegments| { return false; }
    for i := 0 to |pathSegments|
      invariant forall j :: 0 <= j < i ==> SegmentMatches(pathSegments[j], patternSegments[j])
    {
      if patternSegments[i] == "*" {
        if pathSegments[i] == "" { return false; }
        continue;
      }
      if pathSegments[i] != patternSegments[i] { return false; }
    }
    matches := true;
  }

  predicate IsFiller(fill: string) {
    fill != "" && '/' !in fill
  }

  // The pattern's segments with each "*" replaced by the text at its place.
  function Filled(pattern: seq<string>, fills: seq<string>): (r: seq<string>)
    requires |fills| == |pattern|
    ensures |r| == |pattern|
    ensures forall i :: 0 <= i < |r| ==> r[i] == if pattern[i] == "*" then fills[i] else pattern[i]
  {
    seq(|pattern|, i requires 0 <= i < |pattern| => if pattern[i] == "*" then fills[i] else pattern[i])
  }

  lemma {:induction false} SplittingUndoesJoining(pieces: seq<string>, c: char)
    requires pieces != [] && forall i :: 0 <= i < |pieces| ==> c !in pieces[i]
    ensures Split(Join(pieces, [c]), [c]) == pieces
  {
    var s, first := Join(pieces, [c]), pieces[0];
    if |pieces| == 1 {
      NotFound(first, c);
      SplitNone(first, [c]);
    } else {
      var rest := Join(pieces[1..], [c]);
      assert s == first + [c] + rest;
      FoundAfter(first, c, rest);
      assert s[..|first|] == first && s[|first| + 1..] == rest;
      SplitOff(s, [c], |first|);
      SplittingUndoesJoining(pieces[1..], c);
    }
  }

  // The texts, nonempty and without slashes, put in place of the "*" segments give the path.
  predicate Fills(fills: seq<string>, pattern: seq<string>, path: string) {
    |fills| == |pattern| && (forall i :: 0 <= i < |fills| ==> IsFiller(fills[i]))
    && Join(Filled(pattern, fills), "/") == path
  }

  lemma {:induction false} MatchingFills(path: string, pattern: seq<string>) returns (fills: seq<string>)
    requires SegmentsMatch(Split(path, "/"), pattern)
    ensures Fills(fills, pattern, path)
  {
    var p := Split(path, "/");
    PiecesHaveNoSeparator(path, '/');
    fills := seq(|p|, i requires 0 <= i < |p| => if pattern[i] == "*" then p[i] else "x");
    assert Filled(pattern, fills) == p;
    JoiningUndoesSplitting(path, "/");
  }

  lemma {:induction false} FillingMatches(path: string, pattern: seq<string>, fills: seq<string>)
    requires Fills(fills, pattern, path) && pattern != [] && forall s :: s in pattern ==> '/' !in s
    ensures SegmentsMatch(Split(path, "/"), pattern)
  {
    SplittingUndoesJoining(Filled(pattern, fills), '/');
  }

  // A path matches a pattern exactly when some choice of texts for the "*" segments turns the
  // pattern into the path.
  lemma {:induction false} MatchesIffFilled(path: string, pattern: string)
    ensures SegmentsMatch(Split(path, "/"), Split(pattern, "/"))
            <==> exists fills :: Fills(fills, Split(pattern, "/"), path)
  {
    var q := Split(pattern, "/");
    if SegmentsMatch(Split(path, "/"), q) {
      var fills := MatchingFills(path, q);
    }
    if fills :| Fills(fills, q, path) {
      PiecesHaveNoSeparator(pattern, '/');
      FillingMatches(path, q, fills);
    }
  }

  // ---- Method lookup ----

  datatype Table = Table(exact: map<string, seq<string>>, patterns: seq<(string, seq<string>)>,
                         prefixes: seq<(string, seq<string>)>)

  predicate PatternMatches(path: string, pattern: string) {
    SegmentsMatch(Split(path, "/"), Split(pattern, "/"))
  }

  function FirstPattern(patterns: seq<(string, seq<string>)>, path: string): Option<seq<string>> {
    if patterns == [] then None
    else if PatternMatches(path, patterns[0].0) then Some(patterns[0].1)
    else FirstPattern(patterns[1..], path)
  }

  function FirstPrefix(prefixes: seq<(string, seq<string>)>, path: string): Option<seq<string>> {
    if prefixes == [] then None
    else if prefixes[0].0 <= path then Some(prefixes[0].1)
    else FirstPrefix(prefixes[1..], path)
  }

  // Exact entries win over patterns, patterns over prefixes, and earlier ones over later ones.
  function Methods(t: Table, p: string): seq<string> {
    if p in t.exact then t.exact[p]
    else if FirstPattern(t.patterns, p).Some? then FirstPattern(t.patterns, p).value
    else if FirstPrefix(t.prefixes, p).Some? then FirstPrefix(t.prefixes, p).value
    else []
  }

  function WithoutQuery(path: string): string {
    match FindFrom(path, "?", 0)
    case None => path
    case Some(q) => path[..q]
  }

  method SupportedMethodsForPath(t: Table, path: string) returns (methods: seq<string>)
    ensures methods == Methods(t, WithoutQuery(path))
  {
    var p := path;
    var q := FindFrom(p, "?", 0);
    if q.Some? { p := p[..q.value]; }
    if p in t.exact { return t.exact[p]; }
    for i := 0 to |t.patterns|
      invariant FirstPattern(t.patterns, p) == FirstPattern(t.patterns[i..], p)
    {
      var entry := t.patterns[i];
      var matches := RoutePatternMatches(p, entry.0);
      if matches { return entry.1; }
    }
    for i := 0 to |t.prefixes|
      invariant FirstPrefix(t.prefixes, p) == FirstPrefix(t.prefixes[i..], p)
    {
      var prefix := t.prefixes[i].0;
      if |p| >= |prefix| && p[..|prefix|] == prefix { return t.prefixes[i].1; }
    }
    methods := [];
  }

  // No pattern, or none before the i-th, matches.
  predicate NoPattern(t: Table, p: string, i: nat) {
    forall j :: 0 <= j < i && j < |t.patterns| ==> !PatternMatches(p, t.patterns[j].0)
  }

  predicate NoPrefix(t: Table, p: string, i: nat) {
    forall j :: 0 <= j < i && j < |t.prefixes| ==> !(t.prefixes[j].0 <= p)
  }

  lemma {:induction false} PatternIsFirst(patterns: seq<(string, seq<string>)>, p: string, i: nat)
    requires i <= |patterns| && forall j :: 0 <= j < i ==> !PatternMatches(p, patterns[j].0)
    requires i < |patterns| ==> PatternMatches(p, patterns[i].0)
    ensures FirstPattern(patterns, p) == if i < |patterns| then Some(patterns[i].1) else None
  {
    hide PatternMatches;
    if 0 < i { PatternIsFirst(patterns[1..], p, i - 1); }
  }

  lemma {:induction false} PrefixIsFirst(prefixes: seq<(string, seq<string>)>, p: string, i: nat)
    requires i <= |prefixes| && forall j :: 0 <= j < i ==> !(prefixes[j].0 <= p)
    requires i < |prefixes| ==> prefixes[i].0 <= p
    ensures FirstPrefix(prefixes, p) == if i < |prefixes| then Some(prefixes[i].1) else None
  {
    if 0 < i { PrefixIsFirst(prefixes[1..], p, i - 1); }
  }

  // An exact entry decides; without one the first pattern that matches; without those the first prefix that
  // fits; and nothing is supported where there is none of them.
  lemma {:induction false} MethodsByPriority(t: Table, p: string, i: nat)
    ensures p in t.exact ==> Methods(t, p) == t.exact[p]
    ensures p !in t.exact && NoPattern(t, p, i) && i < |t.patterns| && PatternMatches(p, t.patterns[i].0) ==>
              Methods(t, p) == t.patterns[i].1
    ensures i < |t.prefixes| && t.prefixes[i].0 <= p ==>
              p !in t.exact && NoPattern(t, p, |t.patterns|) && NoPrefix(t, p, i) ==> Methods(t, p) == t.prefixes[i].1
    ensures p !in t.exact && NoPattern(t, p, |t.patterns|) && NoPrefix(t, p, |t.prefixes|) ==> Methods(t, p) == []
  {
    hide PatternMatches;
    if p !in t.exact {
      if NoPattern(t, p, i) && i < |t.patterns| && PatternMatches(p, t.patterns[i].0) {
        PatternIsFirst(t.patterns, p, i);
      }
      if NoPattern(t, p, |t.patterns|) {
        PatternIsFirst(t.patterns, p, |t.patterns|);
        if NoPrefix(t, p, i) && i < |t.prefixes| && t.prefixes[i].0 <= p { PrefixIsFirst(t.prefixes, p, i); }
        if NoPrefix(t, p, |t.prefixes|) { PrefixIsFirst(t.prefixes, p, |t.prefixes|); }
      }
    }
  }

  // A query suffix never changes the answer.
  lemma {:induction false} QueryIsIgnored(t: Table, path: string, query: string)
    requires '?' !in path
    ensures Methods(t, WithoutQuery(path + "?" + query)) == Methods(t, WithoutQuery(path)) == Methods(t, path)
  {
    NotFound(path, '?');
    FoundAfter(path, '?', query);
    assert (path + "?" + query)[..|path|] == path;
  }
}
