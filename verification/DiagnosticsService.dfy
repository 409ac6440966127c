/** The classes behind `Diagnostics`: each method is proved against the function on the
    abstract state that has its name there. */
module DiagnosticsService {
  import opened Basics
  import opened Diagnostics

  datatype Inserted = Stored(id: nat) | Refused | Raised

  class DiagnosticsStore {
    var open: bool
    var rows: seq<Record>
    var nextId: nat

    function Model(): Table
      reads this
    {
      Table(open, rows, nextId)
    }

    method Insert(r: Record, sql: Sql) returns (result: Inserted)
      modifies this
      ensures Model() == InsertRow(old(Model()), r, sql)
      ensures result == if Works(old(Model()), sql) then Stored(old(nextId))
                        else if open && sql.statement == Throws then Raised else Refused
    {
      if !open {
        open := sql.opens;
        if !open { return Refused; }
      }
      match sql.statement
      case Throws => return Raised;
      case Fails => return Refused;
      case Succeeds =>
        rows, result, nextId := rows + [r.(id := nextId)], Stored(nextId), nextId + 1;
    }

    // A database that is not open and a statement that cannot be prepared both answer nothing.
    method Query(f: Filters, prepares: bool) returns (records: seq<Record>)
      ensures records == if open && prepares then Answer(rows, f) else []
    {
      if !open || !prepares { return []; }
      records := Answer(rows, f);
    }

    method Clear(since: string, sql: Sql) returns (ok: bool)
      modifies this
      ensures Model() == ClearRows(old(Model()), since, sql)
      ensures ok <==> Works(old(Model()), sql)
    {
      open := open || sql.opens;
      ok := open && sql.statement == Succeeds;
      if ok { rows := Select(rows, Surviving(since)); }
    }

    method PruneSelfTestSnapshots(keep: nat, sql: Sql)
      modifies this
      ensures Model() == PruneRows(old(Model()), keep, sql)
    {
      open := open || sql.opens;
      if open && sql.statement == Succeeds {
        rows := Select(rows, KeptWith(Last(Select(rows, IsSelfTest), keep)));
      }
    }
  }

  lemma {:induction false} DropOldest(ring: seq<Record>)
    requires RING_CAPACITY < |ring|
    ensures Capped(ring[1..]) == Capped(ring)
  {
  }

  class Service {
    const store: DiagnosticsStore?
    const session: string
    var ring: seq<Record>
    var nextSequence: nat

    function Model(): Diag
      reads this, store
    {
      Diag(if store == null then None else Some(store.Model()), ring, nextSequence, session)
    }

    constructor (store: DiagnosticsStore?, session: string)
      requires store != null ==> WellNumbered(store.Model())
      ensures this.store == store && this.session == session && Initial(Model())
    {
      this.store, this.session := store, session;
      ring, nextSequence := [], 1;
    }

    method PushRing(r: Record)
      modifies this`ring
      ensures ring == Capped(old(ring) + [r])
    {
      ring := ring + [r];
      while RING_CAPACITY < |ring|
        invariant Capped(ring) == Capped(old(ring) + [r])
      {
        DropOldest(ring);
        ring := ring[1..];
      }
    }

    method Report(e: Entry, sql: Sql) returns (ok: bool, threw: bool)
      modifies this`ring, this`nextSequence, store
      ensures Model() == Diagnostics.Report(old(Model()), e, sql)
      ensures ok <==> store != null && Works(old(store.Model()), sql)
      ensures threw <==> store != null && store.open && sql.statement == Throws
    {
      var r := RecordOf(Model(), e);
      nextSequence := nextSequence + 1;
      ok, threw := false, false;
      if store != null {
        var inserted := store.Insert(r, sql);
        match inserted
        case Raised => return false, true;
        case Refused =>
        case Stored(id) => r, ok := r.(id := id), true;
      }
      PushRing(r);
    }

    // Two critical sections: the report, then the prune.
    method RecordSelfTest(capturedAt: string, data: string, insert: Sql, prune: Sql)
      modifies this`ring, this`nextSequence, store
      ensures var entry := Entry(capturedAt, SELF_TEST, Info, "boot_self_test_snapshot",
                                 "Boot self-test snapshot persisted.", data);
        var reported := Apply(old(Model()), DoReport(entry, insert));
        Model() == if store != null && (old(store.open) || insert.opens) && insert.statement == Throws then reported
                   else Apply(reported, DoPrune(prune))
    {
      var ok, threw := Report(Entry(capturedAt, SELF_TEST, Info, "boot_self_test_snapshot",
                                    "Boot self-test snapshot persisted.", data), insert);
      if store != null && !threw {
        store.PruneSelfTestSnapshots(SELF_TEST_RETENTION, prune);
      }
    }

    // Two critical sections: the deletion, then the report of it.
    method Clear(since: string, audit: Entry, delete: Sql, insert: Sql) returns (ok: bool)
      modifies this`ring, this`nextSequence, store
      ensures ok <==> store == null || Works(old(store.Model()), delete)
      ensures var deleted := Apply(old(Model()), DoDelete(since, delete));
        Model() == if ok && store != null then Apply(deleted, DoReport(audit, insert)) else deleted
    {
      if store == null {
        ring := [];
        return true;
      }
      ok := store.Clear(since, delete);
      if ok {
        ring := Select(ring, Surviving(since));
        var stored, threw := Report(audit, insert);
      }
    }

    // The first critical section of a query: the store answers if it is available, even if its statement fails.
    method QueryStore(f: Filters, prepares: bool) returns (answered: bool, results: seq<Record>)
      ensures answered <==> Available(Model())
      ensures answered ==> forall between :: results == QueryAnswer(Model(), f, prepares, between)
    {
      answered, results := store != null && store.open, [];
      if answered {
        results := store.Query(f, prepares);
      }
    }

    // Two critical sections, here with no other caller in between.
    method Query(f: Filters, prepares: bool) returns (results: seq<Record>)
      ensures results == QueryAnswer(Model(), f, prepares, [])
    {
      var answered;
      answered, results := QueryStore(f, prepares);
      if !answered { results := QueryRing(f); }
    }

    // The second critical section of a query: newest first.
    method QueryRing(f: Filters) returns (results: seq<Record>)
      ensures results == Answer(ring, f)
    {
      hide NewestFirst, Matches;
      results := [];
      var i := |ring|;
      assert ring[..i] == ring;
      ghost var all, rest := NewestFirst(ring, f), NewestFirst(ring, f);
      while 0 < i
        invariant 0 <= i <= |ring|
        invariant rest == NewestFirst(ring[..i], f)
        invariant results + rest == all
        invariant f.max == 0 || |results| < f.max
      {
        NewestFirstStep(ring, i, f);
        i := i - 1;
        rest := NewestFirst(ring[..i], f);
        if Matches(f, ring[i]) {
          Regroup(results, ring[i], rest);
          results := results + [ring[i]];
          if 0 < f.max && f.max <= |results| {
            assert results == all[..f.max];
            return;
          }
        }
      }
      NewestFirstOfNone(f);
      assert results == all;
    }
  }

  lemma NewestFirstStep(ring: seq<Record>, i: nat, f: Filters)
    requires 0 < i <= |ring|
    ensures NewestFirst(ring[..i], f)
         == if Matches(f, ring[i - 1]) then [ring[i - 1]] + NewestFirst(ring[..i - 1], f)
            else NewestFirst(ring[..i - 1], f)
  {
    assert ring[..i][..i - 1] == ring[..i - 1];
    assert [] + NewestFirst(ring[..i - 1], f) == NewestFirst(ring[..i - 1], f);
  }

  lemma NewestFirstOfNone(f: Filters)
    ensures NewestFirst([], f) == []
  {
  }
}
