/** Capability lists, the tool-name resolver, and the two gateway paths that must agree
    on them: what tools/list shows a client and what tools/call lets it do. */
module ToolNames {
  import opened Basics
  import opened Text

  // ---- Capabilities ----

  function NormalizeCapability(s: string): string {
    var first := Leading(s, IsSpace);
    var last := WithoutTrailing(s, IsSpace);
    if last <= first then "" else Lower(s[first..last])
  }

  predicate HasCapability(granted: seq<string>, c: string) {
    NormalizeCapability(c) in granted
  }

  predicate HasAllCapabilities(granted: seq<string>, required: seq<string>) {
    forall i :: 0 <= i < |required| ==> HasCapability(granted, required[i])
  }

  function AddCapability(granted: seq<string>, c: string): seq<string> {
    var n := NormalizeCapability(c);
    if n == "" || HasCapability(granted, n) then granted else granted + [n]
  }

  // A list the sources build: normalized entries, none empty, none twice.
  ghost predicate WellKept(granted: seq<string>) {
    && (forall i :: 0 <= i < |granted| ==> granted[i] != "" && NormalizeCapability(granted[i]) == granted[i])
    && (forall i, j :: 0 <= i < j < |granted| ==> granted[i] != granted[j])
  }

  lemma {:induction false} LowerKeepsSpaces(c: char)
    ensures IsSpace(LowerChar(c)) <==> IsSpace(c)
    ensures LowerChar(LowerChar(c)) == LowerChar(c)
  {
  }

  lemma LowerIsIdempotent(s: string)
    ensures Lower(Lower(s)) == Lower(s)
  {
    forall i | 0 <= i < |s| ensures Lower(Lower(s))[i] == Lower(s)[i] { LowerKeepsSpaces(s[i]); }
  }

  // Without spaces at its ends, a text is only lowered.
  lemma NothingToTrim(s: string)
    requires s != "" && !IsSpace(s[0]) && !IsSpace(s[|s| - 1])
    ensures NormalizeCapability(s) == Lower(s)
  {
    assert s[0..|s|] == s;
  }

  lemma NothingIsNormal()
    ensures NormalizeCapability("") == ""
  {
  }

  // What is lowered: a text without spaces at its ends.
  lemma NormalMiddle(s: string) returns (middle: string)
    requires NormalizeCapability(s) != ""
    ensures middle != "" && !IsSpace(middle[0]) && !IsSpace(middle[|middle| - 1])
    ensures NormalizeCapability(s) == Lower(middle)
  {
    var first, last := Leading(s, IsSpace), WithoutTrailing(s, IsSpace);
    middle := s[first..last];
    hide IsSpace, Lower;
    assert middle[0] == s[first] && middle[|middle| - 1] == s[last - 1];
  }

  lemma {:induction false} NormalizeIsIdempotent(s: string)
    ensures NormalizeCapability(NormalizeCapability(s)) == NormalizeCapability(s)
  {
    hide NormalizeCapability;
    if NormalizeCapability(s) == "" {
      NothingIsNormal();
    } else {
      var middle := NormalMiddle(s);
      LowerKeepsSpaces(middle[0]);
      LowerKeepsSpaces(middle[|middle| - 1]);
      LowerIsIdempotent(middle);
      hide IsSpace, LowerChar, Lower;
      NothingToTrim(Lower(middle));
    }
  }

  ghost predicate AllSpaces(s: string) {
    forall i :: 0 <= i < |s| ==> IsSpace(s[i])
  }

  // Spaces around a text are taken away, and the text itself is kept in lower case; of spaces alone nothing stays.
  lemma {:induction false} SpacesAroundAreTrimmed(front: string, middle: string, back: string)
    requires AllSpaces(front) && AllSpaces(back)
    requires middle != "" ==> !IsSpace(middle[0]) && !IsSpace(middle[|middle| - 1])
    ensures NormalizeCapability(front + middle + back) == Lower(middle)
  {
    var s := front + middle + back;
    var first, last := Leading(s, IsSpace), WithoutTrailing(s, IsSpace);
    assert forall i :: 0 <= i < |front| ==> s[i] == front[i];
    assert forall i :: 0 <= i < |back| ==> s[|front| + |middle| + i] == back[i];
    hide IsSpace, Leading, WithoutTrailing;
    if middle != "" {
      assert s[|front|] == middle[0] && s[|front| + |middle| - 1] == middle[|middle| - 1];
      assert first == |front| && last == |front| + |middle|;
      assert s[first..last] == middle;
    } else {
      assert Lower("") == "";
      assert last <= first;
    }
  }

  lemma {:induction false} AddingKeepsLists(granted: seq<string>, c: string)
    requires WellKept(granted)
    ensures WellKept(AddCapability(granted, c))
    ensures forall x :: x in AddCapability(granted, c) <==> x in granted || (x == NormalizeCapability(c) && x != "")
  {
    NormalizeIsIdempotent(c);
    hide NormalizeCapability;
  }

  ghost function Elements(granted: seq<string>): set<string> {
    set i | 0 <= i < |granted| :: granted[i]
  }

  ghost function Normals(list: seq<string>): set<string> {
    set i | 0 <= i < |list| && NormalizeCapability(list[i]) != "" :: NormalizeCapability(list[i])
  }

  lemma {:induction false} NormalsSnoc(list: seq<string>, granted: seq<string>, c: string)
    ensures Normals(list + [c]) == Normals(list) + if NormalizeCapability(c) == "" then {} else {NormalizeCapability(c)}
    ensures Elements(granted + [c]) == Elements(granted) + {c}
  {
    var n := NormalizeCapability(c);
    forall x | x in Normals(list) + (if n == "" then {} else {n}) ensures x in Normals(list + [c]) {
      if x == n {
        assert (list + [c])[|list|] == c;
      } else {
        var i :| 0 <= i < |list| && NormalizeCapability(list[i]) == x;
        assert (list + [c])[i] == list[i];
      }
    }
    forall x | x in Elements(granted) + {c} ensures x in Elements(granted + [c]) {
      if x == c {
        assert (granted + [c])[|granted|] == c;
      } else {
        var i :| 0 <= i < |granted| && granted[i] == x;
        assert (granted + [c])[i] == x;
      }
    }
  }

  lemma {:induction false} AddingAddsNormals(granted: seq<string>, c: string)
    requires WellKept(granted)
    ensures WellKept(AddCapability(granted, c))
    ensures Elements(AddCapability(granted, c)) == Elements(granted) + Normals([c])
  {
    var n := NormalizeCapability(c);
    NormalizeIsIdempotent(c);
    AddingKeepsLists(granted, c);
    NormalsSnoc([], granted, c);
    NormalsSnoc([], granted, n);
    assert [] + [c] == [c];
  }

  // The capabilities granted are the normalised forms of those the loop has seen.
  ghost predicate Granted(start: seq<string>, list: seq<string>, i: nat, granted: seq<string>)
    requires i <= |list|
  {
    WellKept(granted) && Elements(granted) == Elements(start) + Normals(list[..i])
  }

  lemma NormalsGrow(list: seq<string>, i: nat)
    requires i < |list|
    ensures Normals(list[..i + 1]) == Normals(list[..i]) + Normals([list[i]])
  {
    assert list[..i + 1] == list[..i] + [list[i]] && [] + [list[i]] == [list[i]];
    NormalsSnoc(list[..i], [], list[i]);
    NormalsSnoc([], [], list[i]);
  }

  method AddAll(start: seq<string>, list: seq<string>) returns (granted: seq<string>)
    requires WellKept(start)
    ensures WellKept(granted) && Elements(granted) == Elements(start) + Normals(list)
  {
    hide WellKept, Normals, AddCapability, Elements;
    granted := start;
    NormalsOfNone();
    assert list[..0] == [];
    for i := 0 to |list|
      invariant Granted(start, list, i, granted)
    {
      AddingAddsNormals(granted, list[i]);
      NormalsGrow(list, i);
      granted := AddCapability(granted, list[i]);
    }
    assert list[..|list|] == list;
  }

  lemma NormalsOfNone()
    ensures Normals([]) == {}
  {
  }

  function WithReading(granted: seq<string>): seq<string> {
    if HasCapability(granted, "filesystem.write") then AddCapability(granted, "filesystem.read") else granted
  }

  lemma {:induction false} WritingGrantsReading(granted: seq<string>)
    requires WellKept(granted)
    ensures WellKept(WithReading(granted))
    ensures Elements(WithReading(granted))
         == Elements(granted) + if "filesystem.write" in Elements(granted) then {"filesystem.read"} else {}
  {
    NormalLiterals();
    if HasCapability(granted, "filesystem.write") { AddingAddsNormals(granted, "filesystem.read"); }
  }

  // What a client is granted: its own capabilities, then those of its privileges
  // (`fromPrivileges` is capabilitiesFromPrivileges), and reading where writing is.
  method CapabilitiesForClient(own: seq<string>, fromPrivileges: seq<string>) returns (granted: seq<string>)
    ensures WellKept(granted)
    ensures var base := Normals(own) + Normals(fromPrivileges);
            Elements(granted) == base + if "filesystem.write" in base then {"filesystem.read"} else {}
  {
    var base := AddAll([], own);
    base := AddAll(base, fromPrivileges);
    WritingGrantsReading(base);
    granted := WithReading(base);
    assert Elements([]) == {};
  }

  lemma {:induction false} NormalLiterals()
    ensures NormalizeCapability("filesystem.read") == "filesystem.read"
    ensures NormalizeCapability("filesystem.write") == "filesystem.write"
    ensures Normals(["filesystem.read"]) == {"filesystem.read"}
  {
    AlreadyNormal("filesystem.read");
    AlreadyNormal("filesystem.write");
    assert ["filesystem.read"][0] in Normals(["filesystem.read"]);
  }

  lemma {:induction false} AlreadyNormal(s: string)
    requires s != "" && !IsSpace(s[0]) && !IsSpace(s[|s| - 1])
    requires forall i :: 0 <= i < |s| ==> !('A' <= s[i] <= 'Z')
    ensures NormalizeCapability(s) == s
  {
    assert Lower(s[0..|s|]) == s;
  }

  // ---- Descriptors and qualified names ----

  // `required` is what requiredCapabilitiesForMcpTool computes from the two names.
  datatype Tool = Tool(pool: string, name: string, required: seq<string>)

  function QualifiedName(pool: string, name: string): string {
    pool + "__" + name
  }

  // Two pools can collide, for some pair of tools, exactly when one prefix extends the other.
  predicate PrefixesClash(p: string, q: string) {
    p + "__" <= q + "__" || q + "__" <= p + "__"
  }

  lemma {:induction false} CollisionsAreClashes(p: string, q: string)
    ensures (exists t, u :: QualifiedName(p, t) == QualifiedName(q, u)) <==> PrefixesClash(p, q)
  {
    var a, b := p + "__", q + "__";
    if t, u :| QualifiedName(p, t) == QualifiedName(q, u) {
      var whole := a + t;
      assert whole == b + u;
      assert if |a| <= |b| then a == whole[..|a|] && b[..|a|] == whole[..|a|]
             else b == whole[..|b|] && a[..|b|] == whole[..|b|];
    }
    if a <= b {
      assert QualifiedName(p, b[|a|..]) == QualifiedName(q, "");
    } else if b <= a {
      assert QualifiedName(q, a[|b|..]) == QualifiedName(p, "");
    }
  }

  predicate HasDoubleUnderscore(s: string) {
    exists i :: 0 <= i < |s| - 1 && s[i] == '_' && s[i + 1] == '_'
  }

  // The naming rule that is enough: no "__" inside a pool id and no "_" at its end.
  lemma {:induction false} PlainPoolsDoNotClash(p: string, q: string)
    requires !HasDoubleUnderscore(p) && (p != "" ==> p[|p| - 1] != '_')
    requires !HasDoubleUnderscore(q) && (q != "" ==> q[|q| - 1] != '_')
    ensures PrefixesClash(p, q) <==> p == q
  {
    var a, b := p + "__", q + "__";
    if a <= b {
      assert b[|p|] == '_' && b[|p| + 1] == '_';
      assert b[..|p|] == p;
    }
    if b <= a {
      assert a[|q|] == '_' && a[|q| + 1] == '_';
      assert a[..|q|] == q;
    }
  }

  // ---- Resolution ----

  datatype Resolution = Found(tool: Tool) | NotFound | Ambiguous

  function FirstQualified(catalog: seq<Tool>, name: string): Option<Tool> {
    if catalog == [] then None
    else if QualifiedName(catalog[0].pool, catalog[0].name) == name then Some(catalog[0])
    else FirstQualified(catalog[1..], name)
  }

  function Unqualified(catalog: seq<Tool>, name: string): seq<Tool> {
    if catalog == [] then []
    else (if catalog[0].name == name then [catalog[0]] else []) + Unqualified(catalog[1..], name)
  }

  function Resolve(catalog: seq<Tool>, name: string): Resolution {
    var qualified, plain := FirstQualified(catalog, name), Unqualified(catalog, name);
    if qualified.Some? then Found(qualified.value)
    else if |plain| == 0 then NotFound
    else if |plain| == 1 then Found(plain[0])
    else Ambiguous
  }

  lemma {:induction false} UnqualifiedSnoc(catalog: seq<Tool>, tool: Tool, name: string)
    ensures Unqualified(catalog + [tool], name) == Unqualified(catalog, name) + if tool.name == name then [tool] else []
  {
    if catalog == [] {
      assert catalog + [tool] == [tool];
    } else {
      assert (catalog + [tool])[1..] == catalog[1..] + [tool];
      UnqualifiedSnoc(catalog[1..], tool, name);
      Regrouped(if catalog[0].name == name then [catalog[0]] else [], Unqualified(catalog[1..], name),
                if tool.name == name then [tool] else []);
    }
  }

  lemma Regrouped(a: seq<Tool>, b: seq<Tool>, c: seq<Tool>)
    ensures a + (b + c) == a + b + c
  {
  }

  lemma {:induction false} FirstQualifiedIs(catalog: seq<Tool>, name: string)
    ensures match FirstQualified(catalog, name)
            case None => forall i :: 0 <= i < |catalog| ==> QualifiedName(catalog[i].pool, catalog[i].name) != name
            case Some(tool) => exists i :: 0 <= i < |catalog| && catalog[i] == tool
                                 && QualifiedName(tool.pool, tool.name) == name
                                 && forall j :: 0 <= j < i ==> QualifiedName(catalog[j].pool, catalog[j].name) != name
  {
    if catalog != [] && QualifiedName(catalog[0].pool, catalog[0].name) != name {
      FirstQualifiedIs(catalog[1..], name);
      if FirstQualified(catalog, name).Some? {
        var tool := FirstQualified(catalog, name).value;
        var i :| 0 <= i < |catalog[1..]| && catalog[1..][i] == tool
                   && forall j :: 0 <= j < i ==> QualifiedName(catalog[1..][j].pool, catalog[1..][j].name) != name;
        assert catalog[i + 1] == tool;
        forall j | 0 <= j < i + 1 ensures QualifiedName(catalog[j].pool, catalog[j].name) != name {
          if 0 < j { assert catalog[j] == catalog[1..][j - 1]; }
        }
      }
    }
  }

  method ResolveLoop(catalog: seq<Tool>, name: string) returns (r: Resolution)
    ensures r == Resolve(catalog, name)
  {
    for i := 0 to |catalog|
      invariant FirstQualified(catalog, name) == FirstQualified(catalog[i..], name)
    {
      if QualifiedName(catalog[i].pool, catalog[i].name) == name {
        return Found(catalog[i]);
      }
    }
    var found, matches := NotFound, 0;
    for i := 0 to |catalog|
      invariant matches == |Unqualified(catalog[..i], name)|
      invariant found == if matches == 0 then NotFound else Found(Unqualified(catalog[..i], name)[0])
    {
      assert catalog[..i + 1] == catalog[..i] + [catalog[i]];
      UnqualifiedSnoc(catalog[..i], catalog[i], name);
      if catalog[i].name == name {
        matches := matches + 1;
        if matches == 1 {
          found := Found(catalog[i]);
        }
      }
    }
    assert catalog[..|catalog|] == catalog;
    r := if 1 < matches then Ambiguous else found;
  }

  function Positions(catalog: seq<Tool>, name: string): set<int> {
    set i | 0 <= i < |catalog| && catalog[i].name == name
  }

  lemma PositionsSnoc(catalog: seq<Tool>, tool: Tool, name: string)
    ensures Positions(catalog + [tool], name)
         == Positions(catalog, name) + if tool.name == name then {|catalog|} else {}
  {
  }

  lemma {:induction false} UnqualifiedCounts(catalog: seq<Tool>, name: string)
    ensures |Unqualified(catalog, name)| == |Positions(catalog, name)|
  {
    if catalog == [] {
      assert Positions(catalog, name) == {};
    } else {
      hide Unqualified, Positions;
      var n := |catalog| - 1;
      assert catalog == catalog[..n] + [catalog[n]];
      UnqualifiedSnoc(catalog[..n], catalog[n], name);
      PositionsSnoc(catalog[..n], catalog[n], name);
      PositionsAreIndices(catalog[..n], name);
      UnqualifiedCounts(catalog[..n], name);
    }
  }

  lemma PositionsAreIndices(catalog: seq<Tool>, name: string)
    ensures |catalog| !in Positions(catalog, name)
  {
  }

  lemma {:induction false} UnqualifiedIsAt(catalog: seq<Tool>, name: string, k: nat) returns (i: nat)
    requires k < |Unqualified(catalog, name)|
    ensures i in Positions(catalog, name) && catalog[i] == Unqualified(catalog, name)[k]
  {
    var n := |catalog| - 1;
    var front := catalog[..n];
    assert catalog == front + [catalog[n]];
    UnqualifiedSnoc(front, catalog[n], name);
    if k < |Unqualified(front, name)| {
      i := UnqualifiedIsAt(front, name, k);
      assert catalog[i] == front[i];
    } else {
      i := n;
    }
  }

  predicate IsQualifiedIn(catalog: seq<Tool>, name: string) {
    exists i :: 0 <= i < |catalog| && QualifiedName(catalog[i].pool, catalog[i].name) == name
  }

  // A name no descriptor qualifies is found exactly when one position carries it, and
  // then it is that position's tool; ambiguous exactly when several do.
  lemma {:induction false} UnqualifiedResolution(catalog: seq<Tool>, name: string)
    requires !IsQualifiedIn(catalog, name)
    ensures Resolve(catalog, name).Found? <==> |Positions(catalog, name)| == 1
    ensures Resolve(catalog, name) == Ambiguous <==> 1 < |Positions(catalog, name)|
    ensures forall i :: i in Positions(catalog, name) && |Positions(catalog, name)| == 1 ==>
              Resolve(catalog, name) == Found(catalog[i])
  {
    FirstQualifiedIs(catalog, name);
    UnqualifiedCounts(catalog, name);
    if |Positions(catalog, name)| == 1 {
      var i := UnqualifiedIsAt(catalog, name, 0);
      assert |Positions(catalog, name) - {i}| == 0;
    }
  }

  // ---- tools/list and tools/call ----

  // collectToolCatalog's output: pools have names, and a descriptor's capabilities are a
  // function of its two names.
  ghost predicate Collected(catalog: seq<Tool>, required: (string, string) -> seq<string>) {
    forall i :: 0 <= i < |catalog| ==>
      catalog[i].pool != "" && catalog[i].required == required(catalog[i].pool, catalog[i].name)
  }

  ghost predicate NoClash(catalog: seq<Tool>) {
    forall i, j :: 0 <= i < |catalog| && 0 <= j < |catalog| && PrefixesClash(catalog[i].pool, catalog[j].pool) ==>
      catalog[i].pool == catalog[j].pool
  }

  // The names tools/list shows to a client that is granted `granted`.
  function Listed(catalog: seq<Tool>, granted: seq<string>): seq<string> {
    if catalog == [] then []
    else (if HasAllCapabilities(granted, catalog[0].required)
          then [QualifiedName(catalog[0].pool, catalog[0].name)] else []) + Listed(catalog[1..], granted)
  }

  datatype Verdict = Forward(pool: string, name: string) | Denied | Unknown | AmbiguousName

  // Resolution over the cache, once more over the refreshed catalog when that gave no
  // pool, then the capability check.
  function CallVerdict(cache: seq<Tool>, refreshed: seq<Tool>, name: string, granted: seq<string>): Verdict {
    var first := Resolve(cache, name);
    var second := Resolve(refreshed, name);
    if first == Ambiguous then AmbiguousName
    else if first.Found? && first.tool.pool != "" then Check(first.tool, granted)
    else if second == Ambiguous then AmbiguousName
    else if second.Found? && second.tool.pool != "" then Check(second.tool, granted)
    else Unknown
  }

  function Check(tool: Tool, granted: seq<string>): Verdict {
    if HasAllCapabilities(granted, tool.required) then Forward(tool.pool, tool.name) else Denied
  }

  lemma {:induction false} QualifiedNameResolvesToItself(
      catalog: seq<Tool>, required: (string, string) -> seq<string>, i: nat)
    requires Collected(catalog, required) && NoClash(catalog) && i < |catalog|
    ensures Resolve(catalog, QualifiedName(catalog[i].pool, catalog[i].name)) == Found(catalog[i])
  {
    var name := QualifiedName(catalog[i].pool, catalog[i].name);
    FirstQualifiedIs(catalog, name);
    var tool := FirstQualified(catalog, name).value;
    var j :| 0 <= j < |catalog| && catalog[j] == tool;
    CollisionsAreClashes(tool.pool, catalog[i].pool);
    assert tool.pool == catalog[i].pool;
    assert tool.name == name[|tool.pool| + 2..] == catalog[i].name;
  }

  // On one catalog whose pools do not clash: calling a descriptor by its qualified name
  // forwards to exactly that pool and tool if the client may see it, and is denied if not.
  lemma {:induction false} CallAgreesWithVisibility(
      catalog: seq<Tool>, required: (string, string) -> seq<string>, refreshed: seq<Tool>, granted: seq<string>, i: nat)
    requires Collected(catalog, required) && NoClash(catalog) && i < |catalog|
    ensures CallVerdict(catalog, refreshed, QualifiedName(catalog[i].pool, catalog[i].name), granted)
         == if HasAllCapabilities(granted, catalog[i].required) then Forward(catalog[i].pool, catalog[i].name)
            else Denied
  {
    QualifiedNameResolvesToItself(catalog, required, i);
  }

  lemma {:induction false} ListedComesFromADescriptor(catalog: seq<Tool>, granted: seq<string>, name: string)
    ensures name in Listed(catalog, granted) <==>
            exists i :: 0 <= i < |catalog| && HasAllCapabilities(granted, catalog[i].required)
              && QualifiedName(catalog[i].pool, catalog[i].name) == name
  {
    if catalog != [] {
      ListedComesFromADescriptor(catalog[1..], granted, name);
      if i :| 0 <= i < |catalog| && HasAllCapabilities(granted, catalog[i].required)
                && QualifiedName(catalog[i].pool, catalog[i].name) == name {
        if 0 < i { assert catalog[i] == catalog[1..][i - 1]; }
      }
      if i :| 0 <= i < |catalog[1..]| && HasAllCapabilities(granted, catalog[1..][i].required)
                && QualifiedName(catalog[1..][i].pool, catalog[1..][i].name) == name {
        assert catalog[i + 1] == catalog[1..][i];
      }
    }
  }

  // tools/list and tools/call agree: among qualified names of the catalog, the listed
  // ones are exactly those whose call is forwarded.
  lemma {:induction false} ListedExactlyWhenForwarded(
      catalog: seq<Tool>, required: (string, string) -> seq<string>, refreshed: seq<Tool>, granted: seq<string>,
      name: string)
    requires Collected(catalog, required) && NoClash(catalog) && IsQualifiedIn(catalog, name)
    ensures name in Listed(catalog, granted) <==> CallVerdict(catalog, refreshed, name, granted).Forward?
  {
    ListedComesFromADescriptor(catalog, granted, name);
    var i :| 0 <= i < |catalog| && QualifiedName(catalog[i].pool, catalog[i].name) == name;
    CallAgreesWithVisibility(catalog, required, refreshed, granted, i);
    forall j | 0 <= j < |catalog| && QualifiedName(catalog[j].pool, catalog[j].name) == name
      ensures catalog[j].required == catalog[i].required
    {
      QualifiedNameResolvesToItself(catalog, required, i);
      QualifiedNameResolvesToItself(catalog, required, j);
    }
  }

  // A name that no descriptor of the catalog qualifies or carries.
  ghost predicate IsAbsent(catalog: seq<Tool>, name: string) {
    !IsQualifiedIn(catalog, name) && Positions(catalog, name) == {}
  }

  // The one descriptor with the name, where none has it as its qualified name.
  ghost predicate IsOnly(catalog: seq<Tool>, name: string, i: nat) {
    !IsQualifiedIn(catalog, name) && Positions(catalog, name) == {i}
  }

  // Forwarded to the descriptor's pool under its name, or denied.
  predicate ForwardsTo(v: Verdict, tool: Tool, granted: seq<string>) {
    if HasAllCapabilities(granted, tool.required) then v == Forward(tool.pool, tool.name) else v == Denied
  }

  // A bare name that one descriptor carries is forwarded to its pool if the client holds what it asks, one that
  // several carry is ambiguous; what the cached catalog lacks is looked up in the refreshed one in the same
  // way, and what both lack is unknown.
  lemma {:induction false} BareNamesAreForwarded(
      cache: seq<Tool>, refreshed: seq<Tool>, name: string, granted: seq<string>, i: nat)
    requires forall tool :: tool in cache || tool in refreshed ==> tool.pool != ""
    ensures var v := CallVerdict(cache, refreshed, name, granted);
      && (IsOnly(cache, name, i) ==> i < |cache| && ForwardsTo(v, cache[i], granted))
      && (!IsQualifiedIn(cache, name) && 1 < |Positions(cache, name)| ==> v == AmbiguousName)
      && (IsAbsent(cache, name) && IsOnly(refreshed, name, i) ==>
            i < |refreshed| && ForwardsTo(v, refreshed[i], granted))
      && (IsAbsent(cache, name) && !IsQualifiedIn(refreshed, name) && 1 < |Positions(refreshed, name)| ==>
            v == AmbiguousName)
      && (IsAbsent(cache, name) && IsAbsent(refreshed, name) ==> v == Unknown)
  {
    hide CallVerdict, Resolve, Positions, IsQualifiedIn;
    BareResolution(cache, name, i);
    BareResolution(refreshed, name, i);
    VerdictIs(cache, refreshed, name, granted);
  }

  lemma {:induction false} BareResolution(catalog: seq<Tool>, name: string, i: nat)
    ensures IsOnly(catalog, name, i) ==> i < |catalog| && Resolve(catalog, name) == Found(catalog[i])
    ensures !IsQualifiedIn(catalog, name) && 1 < |Positions(catalog, name)| ==> Resolve(catalog, name) == Ambiguous
    ensures IsAbsent(catalog, name) ==> Resolve(catalog, name) == NotFound
  {
    if !IsQualifiedIn(catalog, name) {
      UnqualifiedResolution(catalog, name);
      if IsOnly(catalog, name, i) { assert i in Positions(catalog, name); }
      UnqualifiedCounts(catalog, name);
      FirstQualifiedIs(catalog, name);
    }
  }

  lemma {:induction false} VerdictIs(cache: seq<Tool>, refreshed: seq<Tool>, name: string, granted: seq<string>)
    requires forall tool :: tool in cache || tool in refreshed ==> tool.pool != ""
    ensures var v, first, second := CallVerdict(cache, refreshed, name, granted), Resolve(cache, name),
                                    Resolve(refreshed, name);
      && (first == Ambiguous ==> v == AmbiguousName)
      && (first.Found? && first.tool in cache ==> ForwardsTo(v, first.tool, granted))
      && (first == NotFound && second == Ambiguous ==> v == AmbiguousName)
      && (first == NotFound && second.Found? && second.tool in refreshed ==> ForwardsTo(v, second.tool, granted))
      && (first == NotFound && second == NotFound ==> v == Unknown)
  {
    hide Resolve;
  }

  // ---- Which catalogs agree ----

  // What CapabilitiesForClient can grant: a well kept list in which writing comes with reading.
  ghost predicate IsGrant(granted: seq<string>) {
    WellKept(granted) && ("filesystem.write" in granted ==> "filesystem.read" in granted)
  }

  // Some client can hold all of these.
  predicate Grantable(required: seq<string>) {
    forall k :: 0 <= k < |required| ==> NormalizeCapability(required[k]) != ""
  }

  // The least a client holds that holds all of these.
  ghost function Granting(required: seq<string>): set<string> {
    Normals(required) + if "filesystem.write" in Normals(required) then {"filesystem.read"} else {}
  }

  // Whoever holds all of b holds all of a.
  ghost predicate AsksNoMore(a: seq<string>, b: seq<string>) {
    forall k :: 0 <= k < |a| ==> NormalizeCapability(a[k]) in Granting(b)
  }

  // tools/call resolves a qualified name to the first descriptor that has it; none of the others with that
  // name can be had for less.
  ghost predicate FirstAsksLeast(catalog: seq<Tool>) {
    forall j :: 0 <= j < |catalog| && Grantable(catalog[j].required) ==>
      var first := FirstQualified(catalog, QualifiedName(catalog[j].pool, catalog[j].name));
      first.Some? && AsksNoMore(first.value.required, catalog[j].required)
  }

  ghost predicate AgreesFor(catalog: seq<Tool>, refreshed: seq<Tool>, granted: seq<string>) {
    forall name :: IsQualifiedIn(catalog, name) ==>
      (name in Listed(catalog, granted) <==> CallVerdict(catalog, refreshed, name, granted).Forward?)
  }

  lemma {:induction false} LeastGrant(required: seq<string>) returns (granted: seq<string>)
    ensures WellKept(granted) && Elements(granted) == Normals(required)
  {
    if required == [] {
      NormalsOfNone();
      return [];
    }
    var n := |required| - 1;
    granted := LeastGrant(required[..n]);
    AddingAddsNormals(granted, required[n]);
    assert required == required[..n] + [required[n]];
    NormalsSnoc(required[..n], [], required[n]);
    NormalsSnoc([], [], required[n]);
    assert [] + [required[n]] == [required[n]];
    NormalsOfNone();
    granted := AddCapability(granted, required[n]);
  }

  lemma ElementsAre(granted: seq<string>)
    ensures forall x :: x in Elements(granted) <==> x in granted
  {
  }

  // A client with exactly what the descriptor asks.
  lemma {:induction false} GrantFor(required: seq<string>) returns (granted: seq<string>)
    requires Grantable(required)
    ensures IsGrant(granted) && HasAllCapabilities(granted, required)
    ensures forall x :: x in granted <==> x in Granting(required)
  {
    granted := LeastGrant(required);
    WritingGrantsReading(granted);
    granted := WithReading(granted);
    ElementsAre(granted);
    hide WellKept, WithReading, Elements, NormalizeCapability;
    forall k | 0 <= k < |required| ensures HasCapability(granted, required[k]) {
      assert NormalizeCapability(required[k]) in Normals(required);
    }
  }

  // Having everything b asks is having everything a asks.
  lemma {:induction false} AskingNoMore(a: seq<string>, b: seq<string>, granted: seq<string>)
    requires IsGrant(granted) && HasAllCapabilities(granted, b) && AsksNoMore(a, b)
    ensures HasAllCapabilities(granted, a)
  {
    hide WellKept, NormalizeCapability;
    forall x | x in Granting(b) ensures x in granted {
      if x in Normals(b) {
        var k :| 0 <= k < |b| && NormalizeCapability(b[k]) == x;
        assert HasCapability(granted, b[k]);
      } else {
        assert "filesystem.write" in Normals(b);
        var k :| 0 <= k < |b| && NormalizeCapability(b[k]) == "filesystem.write";
        assert HasCapability(granted, b[k]);
      }
    }
    forall k | 0 <= k < |a| ensures HasCapability(granted, a[k]) {
      assert NormalizeCapability(a[k]) in Granting(b);
    }
  }

  lemma GrantedIsGrantable(granted: seq<string>, required: seq<string>)
    requires WellKept(granted) && HasAllCapabilities(granted, required)
    ensures Grantable(required)
  {
    hide NormalizeCapability;
    forall k | 0 <= k < |required| ensures NormalizeCapability(required[k]) != "" {
      assert HasCapability(granted, required[k]);
    }
  }

  // A call by a name of the catalog is forwarded exactly when the first descriptor's capabilities are held.
  lemma {:induction false} FirstDecides(catalog: seq<Tool>, refreshed: seq<Tool>, granted: seq<string>, name: string)
    requires (forall i :: 0 <= i < |catalog| ==> catalog[i].pool != "") && IsQualifiedIn(catalog, name)
    ensures var first := FirstQualified(catalog, name);
      && first.Some? && first.value in catalog && QualifiedName(first.value.pool, first.value.name) == name
      && (CallVerdict(catalog, refreshed, name, granted).Forward?
          <==> HasAllCapabilities(granted, first.value.required))
  {
    FirstQualifiedIs(catalog, name);
  }

  lemma {:induction false} AgreeingAsksLeast(catalog: seq<Tool>, refreshed: seq<Tool>)
    requires forall i :: 0 <= i < |catalog| ==> catalog[i].pool != ""
    requires forall granted :: IsGrant(granted) ==> AgreesFor(catalog, refreshed, granted)
    ensures FirstAsksLeast(catalog)
  {
    forall j | 0 <= j < |catalog| && Grantable(catalog[j].required)
      ensures var first := FirstQualified(catalog, QualifiedName(catalog[j].pool, catalog[j].name));
        first.Some? && AsksNoMore(first.value.required, catalog[j].required)
    {
      var name := QualifiedName(catalog[j].pool, catalog[j].name);
      var granted := GrantFor(catalog[j].required);
      assert AgreesFor(catalog, refreshed, granted);
      ListedComesFromADescriptor(catalog, granted, name);
      FirstDecides(catalog, refreshed, granted, name);
      HeldIsAsked(FirstQualified(catalog, name).value.required, catalog[j].required, granted);
    }
  }

  lemma HeldIsAsked(a: seq<string>, b: seq<string>, granted: seq<string>)
    requires HasAllCapabilities(granted, a) && forall x :: x in granted <==> x in Granting(b)
    ensures AsksNoMore(a, b)
  {
    hide NormalizeCapability, Granting;
    forall k | 0 <= k < |a| ensures NormalizeCapability(a[k]) in Granting(b) {
      assert HasCapability(granted, a[k]);
    }
  }

  lemma {:induction false} AskingLeastAgrees(
      catalog: seq<Tool>, refreshed: seq<Tool>, granted: seq<string>, name: string)
    requires forall i :: 0 <= i < |catalog| ==> catalog[i].pool != ""
    requires FirstAsksLeast(catalog) && IsGrant(granted) && IsQualifiedIn(catalog, name)
    ensures name in Listed(catalog, granted) <==> CallVerdict(catalog, refreshed, name, granted).Forward?
  {
    FirstDecides(catalog, refreshed, granted, name);
    ListedComesFromADescriptor(catalog, granted, name);
    hide CallVerdict, FirstQualified, Listed, WellKept, QualifiedName, AsksNoMore, HasAllCapabilities;
    var first := FirstQualified(catalog, name).value;
    if j :| 0 <= j < |catalog| && HasAllCapabilities(granted, catalog[j].required)
              && QualifiedName(catalog[j].pool, catalog[j].name) == name {
      GrantedIsGrantable(granted, catalog[j].required);
      AskingNoMore(first.required, catalog[j].required, granted);
    }
  }

  // tools/list and tools/call agree on a catalog's names for every client exactly when of the descriptors
  // that share a name the first asks no more than any other that somebody can use.
  lemma {:induction false} AgreementIsFirstAsksLeast(catalog: seq<Tool>, refreshed: seq<Tool>)
    requires forall i :: 0 <= i < |catalog| ==> catalog[i].pool != ""
    ensures (forall granted :: IsGrant(granted) ==> AgreesFor(catalog, refreshed, granted)) <==> FirstAsksLeast(catalog)
  {
    hide FirstAsksLeast, IsGrant;
    if forall granted :: IsGrant(granted) ==> AgreesFor(catalog, refreshed, granted) {
      AgreeingAsksLeast(catalog, refreshed);
    }
    if FirstAsksLeast(catalog) {
      forall granted | IsGrant(granted) ensures AgreesFor(catalog, refreshed, granted) {
        forall name | IsQualifiedIn(catalog, name)
          ensures name in Listed(catalog, granted) <==> CallVerdict(catalog, refreshed, name, granted).Forward?
        {
          AskingLeastAgrees(catalog, refreshed, granted, name);
        }
      }
    }
  }

  // Pools "a" and "a__b" clash: a client of the second's tool is shown its name, and denied the call.
  lemma {:induction false} ClashingCatalogDisagrees(refreshed: seq<Tool>)
    ensures var catalog := [Tool("a", "b__c", ["x"]), Tool("a__b", "c", ["y"])];
      && IsGrant(["y"]) && "a__b__c" in Listed(catalog, ["y"])
      && CallVerdict(catalog, refreshed, "a__b__c", ["y"]) == Denied
  {
    AlreadyNormal("x");
    AlreadyNormal("y");
    hide NormalizeCapability;
    var catalog := [Tool("a", "b__c", ["x"]), Tool("a__b", "c", ["y"])];
    assert QualifiedName("a", "b__c") == "a__b__c" == QualifiedName("a__b", "c");
    assert HasCapability(["y"], "y") && !HasCapability(["y"], "x");
    assert !HasAllCapabilities(["y"], catalog[0].required) by { assert catalog[0].required[0] == "x"; }
    assert HasAllCapabilities(["y"], catalog[1].required);
    ListedComesFromADescriptor(catalog, ["y"], "a__b__c");
  }

  // Whatever the two catalogs hold, nothing is forwarded without the capabilities of a
  // descriptor of that pool and tool.
  lemma {:induction false} ForwardingIsAuthorized(
      cache: seq<Tool>, refreshed: seq<Tool>, name: string, granted: seq<string>)
    requires CallVerdict(cache, refreshed, name, granted).Forward?
    ensures var v := CallVerdict(cache, refreshed, name, granted);
            exists tool :: (tool in cache || tool in refreshed) && tool.pool == v.pool && tool.name == v.name
              && tool.pool != "" && HasAllCapabilities(granted, tool.required)
  {
    FoundIsAMember(cache, name);
    FoundIsAMember(refreshed, name);
  }

  lemma {:induction false} FoundIsAMember(catalog: seq<Tool>, name: string)
    ensures Resolve(catalog, name).Found? ==> Resolve(catalog, name).tool in catalog
  {
    FirstQualifiedIs(catalog, name);
    if |Unqualified(catalog, name)| == 1 {
      var i := UnqualifiedIsAt(catalog, name, 0);
    }
  }
}
