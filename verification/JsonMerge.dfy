/** Deep merge of JSON configuration patches. */
module JsonMerge {
  import opened Basics

  datatype Json = Null | Bool(b: bool) | Number(n: real) | Text(s: string) | Array(items: seq<Json>)
                | Object(members: map<string, Json>)

  // Objects merge key by key at every depth; anything else is replaced.
  function Merged(target: Json, patch: Json): Json
    decreases patch
  {
    if !target.Object? || !patch.Object? then patch
    else
      Object(map k | k in target.members.Keys + patch.members.Keys ::
               if k !in patch.members then target.members[k]
               else if k !in target.members then patch.members[k]
               else Merged(target.members[k], patch.members[k]))
  }

  // The loop over the patch's members, which updates the target in place.
  method DeepMergeObject(target: Json, patch: Json) returns (merged: Json)
    ensures merged == Merged(target, patch)
    decreases patch
  {
    if !target.Object? || !patch.Object? { return patch; }
    var members, todo := target.members, patch.members.Keys;
    while todo != {}
      invariant todo <= patch.members.Keys
      invariant members.Keys == target.members.Keys + (patch.members.Keys - todo)
      invariant forall k :: k in members && (k in todo || k !in patch.members) ==> members[k] == target.members[k]
      invariant forall k :: k in patch.members && k !in todo ==>
        members[k] == if k in target.members then Merged(target.members[k], patch.members[k]) else patch.members[k]
      decreases todo
    {
      var key :| key in todo;
      if key in members && members[key].Object? && patch.members[key].Object? {
        var inner := DeepMergeObject(members[key], patch.members[key]);
        members := members[key := inner];
      } else {
        members := members[key := patch.members[key]];
      }
      todo := todo - {key};
    }
    assert members == Merged(target, patch).members;
    merged := Object(members);
  }

  datatype PatchOutcome = Invalid | Valid(merged: Json)

  method MergeConfigurationPatch(current: Json, patch: Json) returns (outcome: PatchOutcome)
    ensures outcome == if patch.Object? then Valid(Merged(current, patch)) else Invalid
  {
    if !patch.Object? { return Invalid; }
    var merged := DeepMergeObject(current, patch);
    outcome := Valid(merged);
  }

  function MissingKeys(body: Json, model: Json): set<string> {
    if body.Object? && model.Object? then model.members.Keys - body.members.Keys else {}
  }

  method MissingTopLevelKeysForFullDocument(body: Json, model: Json) returns (missing: seq<string>)
    ensures forall k :: k in missing <==> k in MissingKeys(body, model)
    ensures forall i, j :: 0 <= i < j < |missing| ==> missing[i] != missing[j]
  {
    missing := [];
    if !body.Object? || !model.Object? { return; }
    var todo := model.members.Keys;
    while todo != {}
      invariant todo <= model.members.Keys
      invariant forall k :: k in missing <==> k in model.members && k !in todo && k !in body.members
      invariant forall i, j :: 0 <= i < j < |missing| ==> missing[i] != missing[j]
      decreases todo
    {
      var key :| key in todo;
      if key !in body.members { missing := missing + [key]; }
      todo := todo - {key};
    }
  }

  // ---- Laws ----

  lemma {:induction false} PatchingTwiceIsPatchingOnce(t: Json, p: Json)
    ensures Merged(Merged(t, p), p) == Merged(t, p)
    decreases p
  {
    var once := Merged(t, p);
    if t.Object? && p.Object? {
      forall k | k in p.members && k in t.members
        ensures Merged(Merged(t.members[k], p.members[k]), p.members[k]) == Merged(t.members[k], p.members[k])
      {
        PatchingTwiceIsPatchingOnce(t.members[k], p.members[k]);
      }
      forall k | k in p.members && k !in t.members ensures Merged(p.members[k], p.members[k]) == p.members[k] {
        PatchingItself(p.members[k]);
      }
      assert Merged(once, p).members == once.members;
    } else {
      PatchingItself(p);
    }
  }

  lemma {:induction false} PatchingItself(p: Json)
    ensures Merged(p, p) == p
  {
    if p.Object? {
      forall k | k in p.members ensures Merged(p.members[k], p.members[k]) == p.members[k] {
        PatchingItself(p.members[k]);
      }
      assert Merged(p, p).members == p.members;
    }
  }

  function ValueAt(j: Json, path: seq<string>): Option<Json>
    decreases |path|
  {
    if path == [] then Some(j)
    else if j.Object? && path[0] in j.members then ValueAt(j.members[path[0]], path[1..])
    else None
  }

  // The patch names the path, or replaces something above it.
  predicate Reaches(patch: Json, path: seq<string>)
    decreases |path|
  {
    path == [] || !patch.Object? || (path[0] in patch.members && Reaches(patch.members[path[0]], path[1..]))
  }

  lemma {:induction false} UnreachedIsAbsent(p: Json, path: seq<string>)
    requires !Reaches(p, path)
    ensures ValueAt(p, path) == None
    decreases |path|
  {
    if path[0] in p.members { UnreachedIsAbsent(p.members[path[0]], path[1..]); }
  }

  lemma {:induction false} UnreachedPathsKeepTheirValues(t: Json, p: Json, path: seq<string>)
    requires !Reaches(p, path)
    ensures ValueAt(Merged(t, p), path) == ValueAt(t, path)
    decreases |path|
  {
    UnreachedIsAbsent(p, path);
    if t.Object? && path[0] in p.members && path[0] in t.members {
      UnreachedPathsKeepTheirValues(t.members[path[0]], p.members[path[0]], path[1..]);
    }
  }

  // What the patch says other than by an object is what the result says.
  lemma {:induction false} PatchedPathsTakeItsValues(t: Json, p: Json, path: seq<string>, v: Json)
    requires ValueAt(p, path) == Some(v) && !v.Object?
    ensures ValueAt(Merged(t, p), path) == Some(v)
    decreases |path|
  {
    if path != [] && t.Object? && path[0] in t.members {
      PatchedPathsTakeItsValues(t.members[path[0]], p.members[path[0]], path[1..], v);
    }
  }

  // ---- Composition of patches ----

  // The patch names every member of the target, at every depth where both have objects.
  predicate Covers(patch: Json, target: Json)
    decreases patch
  {
    patch.Object? && target.Object? ==>
      forall k :: k in target.members ==> k in patch.members && Covers(patch.members[k], target.members[k])
  }

  // Nowhere does the first patch put a non-object between an object of the base and one of the second
  // patch, unless the latter names all that the former would bring back.
  predicate Composable(t: Json, p: Json, q: Json)
    decreases q
  {
    t.Object? && q.Object? ==>
      if !p.Object? then Covers(q, t)
      else forall k :: k in t.members && k in p.members && k in q.members ==>
             Composable(t.members[k], p.members[k], q.members[k])
  }

  lemma {:induction false} CoversIffReplaces(q: Json, t: Json)
    requires q.Object?
    ensures Covers(q, t) <==> Merged(t, q) == q
    decreases q
  {
    if t.Object? {
      var m := Merged(t, q).members;
      forall k | k in t.members && k in q.members
        ensures Covers(q.members[k], t.members[k]) <==> m[k] == q.members[k]
      {
        assert m[k] == Merged(t.members[k], q.members[k]);
        if q.members[k].Object? { CoversIffReplaces(q.members[k], t.members[k]); }
      }
      assert (forall k :: k in t.members ==> k in q.members) ==> m.Keys == q.members.Keys;
      if Covers(q, t) {
        assert forall k :: k in m ==> m[k] == q.members[k];
        assert m == q.members;
      }
      if m == q.members {
        forall k | k in t.members ensures k in q.members { assert k in m; }
      }
    }
  }

  // Two patches compose into one exactly when they are composable over the base.
  lemma {:induction false} TwoPatchesAreOne(t: Json, p: Json, q: Json)
    ensures Merged(Merged(t, p), q) == Merged(t, Merged(p, q)) <==> Composable(t, p, q)
    decreases q
  {
    if t.Object? && q.Object? {
      if p.Object? {
        TwoPatchesByMembers(t, p, q);
      } else {
        CoversIffReplaces(q, t);
      }
    }
  }

  lemma {:induction false} TwoPatchesByMembers(t: Json, p: Json, q: Json)
    requires t.Object? && p.Object? && q.Object?
    ensures Merged(Merged(t, p), q) == Merged(t, Merged(p, q)) <==> Composable(t, p, q)
    decreases q, 0
  {
    var l, r := Merged(Merged(t, p), q).members, Merged(t, Merged(p, q)).members;
    assert l.Keys == r.Keys;
    forall k | k in l && !(k in t.members && k in p.members && k in q.members) ensures l[k] == r[k] {
    }
    forall k | k in t.members && k in p.members && k in q.members
      ensures l[k] == r[k] <==> Composable(t.members[k], p.members[k], q.members[k])
    {
      TwoPatchesAreOne(t.members[k], p.members[k], q.members[k]);
    }
    if Composable(t, p, q) {
      assert forall k :: k in l ==> l[k] == r[k];
      assert l == r;
    }
  }

  // A patch removes from the missing keys just those it names, so a complete document stays complete.
  lemma PatchingFillsKeys(current: Json, patch: Json, model: Json)
    requires current.Object? && patch.Object?
    ensures MissingKeys(Merged(current, patch), model) == MissingKeys(current, model) - patch.members.Keys
  {
    assert Merged(current, patch).members.Keys == current.members.Keys + patch.members.Keys;
  }
}
