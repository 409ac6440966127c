/** Extraction of one query parameter by substring search. */
module QueryParams {
  import opened Basics
  import opened Text

  // ---- By segments ----

  // The remainder of the first segment that starts with the anchor.
  function FirstWith(segments: seq<string>, anchor: string): Option<string> {
    if segments == [] then None
    else if anchor <= segments[0] then Some(segments[0][|anchor|..])
    else FirstWith(segments[1..], anchor)
  }

  function Parameter(query: string, name: string): Option<string> {
    if name == "" then None else FirstWith(Split(query, "&"), name + "=")
  }

  // ---- By search ----

  function UpToAmpersand(s: string): string {
    match FindFrom(s, "&", 0)
    case None => s
    case Some(i) => s[..i]
  }

  // Where the value starts: after the anchor at the front, or after "&" and the anchor anywhere.
  function ValueStart(query: string, anchor: string): (r: Option<nat>)
    ensures r.Some? ==> r.value <= |query|
  {
    if anchor <= query then Some(|anchor|)
    else
      match FindFrom(query, "&" + anchor, 0)
      case None => None
      case Some(p) => Some(p + 1 + |anchor|)
  }

  function Found(query: string, anchor: string): Option<string> {
    match ValueStart(query, anchor)
    case None => None
    case Some(start) => Some(UpToAmpersand(query[start..]))
  }

  function Searched(query: string, name: string): Option<string> {
    if name == "" then None else Found(query, name + "=")
  }

  method ExtractQueryParam(query: string, name: string) returns (value: string)
    ensures value == match Searched(query, name) case Some(v) => v case None => ""
  {
    if query == "" || name == "" {
      assert FindFrom("", "&" + (name + "="), 0) == None;
      return "";
    }
    var needle := name + "=";
    var valueStart: nat;
    if |query| >= |needle| && query[..|needle|] == needle {
      valueStart := |needle|;
    } else {
      var altNeedle := "&" + needle;
      var p := FindFrom(query, altNeedle, 0);
      if p == None { return ""; }
      valueStart := p.value + |altNeedle|;
    }
    value := query[valueStart..];
    var amp := FindFrom(value, "&", 0);
    if amp.Some? { value := value[..amp.value]; }
  }

  // The value of the first candidate that is present, by a given way of looking.
  function FirstPresent(candidates: seq<string>, look: string -> Option<string>): Option<string> {
    if candidates == [] then None
    else if look(candidates[0]).Some? then look(candidates[0])
    else FirstPresent(candidates[1..], look)
  }

  function SearchIn(query: string): string -> Option<string> {
    name => Searched(query, name)
  }

  function ParameterIn(query: string): string -> Option<string> {
    name => Parameter(query, name)
  }

  method ExtractQueryParamAny(query: string, candidates: seq<string>) returns (value: string)
    ensures value == match FirstPresent(candidates, SearchIn(query)) case Some(v) => v case None => ""
  {
    if query == "" {
      NothingInNothing(candidates);
      return "";
    }
    for i := 0 to |candidates|
      invariant FirstPresent(candidates, SearchIn(query)) == FirstPresent(candidates[i..], SearchIn(query))
    {
      var name := candidates[i];
      assert candidates[i..][0] == name && candidates[i..][1..] == candidates[i + 1..];
      if name == "" { continue; }
      var needle := name + "=";
      var valueStart: Option<nat> := None;
      if |query| >= |needle| && query[..|needle|] == needle {
        valueStart := Some(|needle|);
      } else {
        var altNeedle := "&" + needle;
        var p := FindFrom(query, altNeedle, 0);
        if p.Some? { valueStart := Some(p.value + |altNeedle|); }
      }
      assert valueStart == ValueStart(query, needle);
      if valueStart == None { continue; }
      value := query[valueStart.value..];
      var amp := FindFrom(value, "&", 0);
      if amp.Some? { value := value[..amp.value]; }
      return;
    }
    value := "";
  }

  lemma {:induction false} NothingInNothing(candidates: seq<string>)
    ensures FirstPresent(candidates, SearchIn("")) == None
  {
    if candidates != [] {
      NothingInNothing(candidates[1..]);
      assert Searched("", candidates[0]) == None;
    }
  }

  // ---- The search refines the segments ----

  lemma PrefixWithinSegment(query: string, anchor: string, a: nat)
    requires '&' !in anchor && At(query, "&", a)
    ensures anchor <= query <==> anchor <= query[..a]
  {
    assert query[a] == query[a..a + 1][0] == '&';
    assert forall k :: 0 <= k < |anchor| ==> anchor[k] != '&';
    if anchor <= query { assert forall k :: 0 <= k < |anchor| ==> anchor[k] == query[k]; }
  }

  lemma {:induction false} NoAmpersandNoMatch(query: string, anchor: string)
    requires FindFrom(query, "&", 0) == None
    ensures FindFrom(query, "&" + anchor, 0) == None
  {
    var r := FindFrom(query, "&" + anchor, 0);
    if r.Some? {
      assert query[r.value..r.value + 1] == ("&" + anchor)[..1];
      FindsTheFirst(query, "&", 0, r.value);
    }
  }

  // Past the first "&" without a match at the front, the search continues in the rest.
  lemma {:induction false} SearchTheRest(query: string, anchor: string, a: nat)
    requires FindFrom(query, "&", 0) == Some(a) && !(anchor <= query)
    ensures ValueStart(query, anchor)
         == match ValueStart(query[a + 1..], anchor) case None => None case Some(start) => Some(a + 1 + start)
  {
    var alt, rest := "&" + anchor, query[a + 1..];
    assert query[a..a + 1] == "&";
    AtAmpersand(query, anchor, a);
    hide FindFrom, At;
    SkipTo(query, alt, a);
    if anchor <= rest {
      FindsHere(query, alt, a);
    } else {
      assert rest == query[a + 1..|query|];
      SearchBeyond(query, alt, a, rest);
    }
  }

  lemma SearchBeyond(query: string, alt: string, a: nat, rest: string)
    requires a < |query| && !At(query, alt, a) && rest == query[a + 1..|query|]
    ensures FindFrom(query, alt, a) == match FindFrom(rest, alt, 0) case None => None case Some(i) => Some(a + 1 + i)
  {
    var beyond := FindFrom(query, alt, a + 1);
    assert FindFrom(query, alt, a) == beyond;
    FindInSlice(query, alt, a + 1, |query|, 0);
  }

  lemma AtAmpersand(query: string, anchor: string, a: nat)
    requires At(query, "&", a)
    ensures At(query, "&" + anchor, a) <==> anchor <= query[a + 1..]
  {
    var alt, rest := "&" + anchor, query[a + 1..];
    assert query[a] == query[a..a + 1][0] == alt[0];
    if a + |alt| <= |query| {
      assert query[a..a + |alt|] == [query[a]] + rest[..|anchor|];
      assert alt[1..] == anchor;
    }
  }

  // Nothing that starts with "&" occurs before the first "&".
  lemma {:induction false} SkipTo(query: string, alt: string, a: nat)
    requires FindFrom(query, "&", 0) == Some(a) && alt != "" && alt[0] == '&'
    ensures FindFrom(query, alt, 0) == FindFrom(query, alt, a)
  {
    var r := FindFrom(query, alt, 0);
    if r.Some? {
      assert query[r.value..r.value + 1] == query[r.value..r.value + |alt|][..1] == "&";
      FindsTheFirst(query, "&", 0, r.value);
    }
    SkipWhileNone(query, alt, 0, a);
  }

  lemma {:induction false} SkipWhileNone(query: string, alt: string, from: nat, a: nat)
    requires from <= a <= |query| && (FindFrom(query, alt, from) == None || a <= FindFrom(query, alt, from).value)
    ensures FindFrom(query, alt, from) == FindFrom(query, alt, a)
    decreases a - from
  {
    if from < a { SkipWhileNone(query, alt, from + 1, a); }
  }

  lemma NoSegments(query: string, anchor: string)
    requires FindFrom(query, "&", 0) == None
    ensures Found(query, anchor) == FirstWith([query], anchor)
  {
    NoAmpersandNoMatch(query, anchor);
    if anchor <= query { NoAmpersandAfter(query, |anchor|); }
  }

  lemma FirstSegment(query: string, anchor: string, a: nat, more: seq<string>)
    requires '&' !in anchor && FindFrom(query, "&", 0) == Some(a) && anchor <= query
    ensures Found(query, anchor) == FirstWith([query[..a]] + more, anchor)
  {
    PrefixWithinSegment(query, anchor, a);
    AmpersandAfter(query, |anchor|, a);
  }

  lemma FoundInTheRest(query: string, anchor: string, a: nat)
    requires FindFrom(query, "&", 0) == Some(a) && !(anchor <= query)
    ensures Found(query, anchor) == Found(query[a + 1..], anchor)
  {
    SearchTheRest(query, anchor, a);
    hide FindFrom, ValueStart, UpToAmpersand;
    var start := ValueStart(query[a + 1..], anchor);
    if start.Some? { assert query[a + 1..][start.value..] == query[a + 1 + start.value..]; }
  }

  lemma FirstWithOneMore(segment: string, more: seq<string>, anchor: string)
    requires !(anchor <= segment)
    ensures FirstWith([segment] + more, anchor) == FirstWith(more, anchor)
  {
    assert ([segment] + more)[1..] == more;
  }

  lemma LaterSegment(query: string, anchor: string, a: nat, more: seq<string>)
    requires '&' !in anchor && FindFrom(query, "&", 0) == Some(a) && !(anchor <= query)
    requires Found(query[a + 1..], anchor) == FirstWith(more, anchor)
    ensures Found(query, anchor) == FirstWith([query[..a]] + more, anchor)
  {
    PrefixWithinSegment(query, anchor, a);
    hide FindFrom, At, Found, FirstWith;
    FoundInTheRest(query, anchor, a);
    FirstWithOneMore(query[..a], more, anchor);
  }

  lemma {:induction false} SearchIsBySegments(query: string, anchor: string)
    requires '&' !in anchor
    ensures Found(query, anchor) == FirstWith(Split(query, "&"), anchor)
    decreases |query|
  {
    match FindFrom(query, "&", 0)
    case None =>
      SplitNone(query, "&");
      NoSegments(query, anchor);
    case Some(a) =>
      var more := Split(query[a + 1..], "&");
      SplitOff(query, "&", a);
      if anchor <= query {
        FirstSegment(query, anchor, a, more);
      } else {
        SearchIsBySegments(query[a + 1..], anchor);
        LaterSegment(query, anchor, a, more);
      }
  }

  lemma NoAmpersandAfter(query: string, from: nat)
    requires from <= |query| && FindFrom(query, "&", 0) == None
    ensures UpToAmpersand(query[from..]) == query[from..]
  {
    hide FindFrom;
    var r := FindFrom(query[from..], "&", 0);
    if r.Some? {
      assert query[from..][r.value..r.value + 1] == query[from + r.value..from + r.value + 1];
      FindsTheFirst(query, "&", 0, from + r.value);
    }
  }

  lemma AmpersandAfter(query: string, from: nat, a: nat)
    requires from <= a && FindFrom(query, "&", 0) == Some(a)
    ensures UpToAmpersand(query[from..]) == query[..a][from..]
  {
    hide FindFrom;
    SkipWhileNone(query, "&", 0, from);
    assert query[from..] == query[from..|query|];
    FindInSlice(query, "&", from, |query|, 0);
    assert query[from..][..a - from] == query[..a][from..];
  }

  lemma {:induction false} AmpersandNamesHaveNoSegment(segments: seq<string>, anchor: string)
    requires '&' in anchor && forall s :: s in segments ==> '&' !in s
    ensures FirstWith(segments, anchor) == None
  {
    if segments != [] {
      var s := segments[0];
      assert anchor <= s ==> '&' in s;
      AmpersandNamesHaveNoSegment(segments[1..], anchor);
    }
  }

  // The search is the lookup by segments exactly when the name has no "&" or is not found at all.
  lemma {:induction false} SearchIsLookup(query: string, name: string)
    ensures Searched(query, name) == Parameter(query, name) <==> '&' !in name || Searched(query, name) == None
  {
    if name != "" {
      if '&' !in name {
        SearchIsBySegments(query, name + "=");
      } else {
        PiecesHaveNoSeparator(query, '&');
        AmpersandNamesHaveNoSegment(Split(query, "&"), name + "=");
      }
    }
  }

  // The value is that of the first candidate that has one, and there is none if no candidate has.
  lemma {:induction false} EarlierCandidatesWin(candidates: seq<string>, look: string -> Option<string>, i: nat)
    requires i <= |candidates| && forall j :: 0 <= j < i ==> look(candidates[j]) == None
    requires i < |candidates| ==> look(candidates[i]).Some?
    ensures FirstPresent(candidates, look) == if i < |candidates| then look(candidates[i]) else None
  {
    if 0 < i { EarlierCandidatesWin(candidates[1..], look, i - 1); }
  }

  lemma {:induction false} FirstSearchedIsFirstPresent(query: string, candidates: seq<string>)
    requires forall c :: c in candidates ==> '&' !in c
    ensures FirstPresent(candidates, SearchIn(query)) == FirstPresent(candidates, ParameterIn(query))
  {
    if candidates != [] {
      SearchIsLookup(query, candidates[0]);
      FirstSearchedIsFirstPresent(query, candidates[1..]);
    }
  }
}
