/** The diagnostics service: a bounded in-memory ring in front of a SQL table, where every
    statement may fail.  `Diag` is the abstract state, the functions on it say what each
    critical section does, and the lemmas what every run of them keeps. */
module Diagnostics {
  import opened Basics
  import opened Text

  const RING_CAPACITY: nat := 1000
  const SELF_TEST_RETENTION: nat := 50
  const SELF_TEST := "self-test"

  datatype Severity = Debug | Info | Warning | Error | Critical

  function SeverityFromString(s: string): Severity {
    if s == "debug" then Debug
    else if s == "warning" || s == "warn" then Warning
    else if s == "error" then Error
    else if s == "critical" then Critical
    else Info
  }

  // `id` is the row id, 0 for a record that was never stored.
  datatype Record = Record(id: nat, capturedAt: string, source: string, severity: Severity, event: string,
                           message: string, data: string, session: string, sequence: nat)

  datatype Filters = Filters(severity: string, source: string, event: string, since: string, max: nat)

  predicate Matches(f: Filters, r: Record) {
    && (f.severity != "" ==> r.severity == SeverityFromString(f.severity))
    && (f.source != "" ==> r.source == f.source)
    && (f.event != "" ==> r.event == f.event)
    && (f.since != "" ==> !LexLess(r.capturedAt, f.since))
  }

  // ---- The table ----

  // `open` is db_ != nullptr; `nextId` is AUTOINCREMENT's next row id.
  datatype Table = Table(open: bool, rows: seq<Record>, nextId: nat)

  // How the calls into SQLite of one operation end: whether the database can be opened
  // if it is not yet, and then the statement.  Serializing a record may throw.
  datatype Sql = Sql(opens: bool, statement: Statement)
  datatype Statement = Succeeds | Fails | Throws

  function Opened(t: Table, sql: Sql): Table {
    t.(open := t.open || sql.opens)
  }

  predicate Works(t: Table, sql: Sql) {
    (t.open || sql.opens) && sql.statement == Succeeds
  }

  function Select(s: seq<Record>, p: Record -> bool): seq<Record> {
    if s == [] then [] else Select(s[..|s| - 1], p) + if p(s[|s| - 1]) then [s[|s| - 1]] else []
  }

  function Limited(s: seq<Record>, max: nat): seq<Record> {
    if 0 < max < |s| then s[..max] else s
  }

  function NewestFirst(s: seq<Record>, f: Filters): seq<Record> {
    if s == [] then []
    else (if Matches(f, s[|s| - 1]) then [s[|s| - 1]] else []) + NewestFirst(s[..|s| - 1], f)
  }

  // SELECT ... WHERE ... ORDER BY id DESC LIMIT ...
  function Answer(s: seq<Record>, f: Filters): seq<Record> {
    Limited(NewestFirst(s, f), f.max)
  }

  function InsertRow(t: Table, r: Record, sql: Sql): Table {
    if Works(t, sql) then Table(true, t.rows + [r.(id := t.nextId)], t.nextId + 1) else Opened(t, sql)
  }

  // DELETE all, or those captured before `since`.
  predicate Survives(r: Record, since: string) {
    since != "" && !LexLess(r.capturedAt, since)
  }

  function Surviving(since: string): Record -> bool {
    r => Survives(r, since)
  }

  function ClearRows(t: Table, since: string, sql: Sql): Table {
    if Works(t, sql) then Table(true, Select(t.rows, Surviving(since)), t.nextId) else Opened(t, sql)
  }

  function IsSelfTest(r: Record): bool {
    r.source == SELF_TEST
  }

  function Last(s: seq<Record>, n: nat): seq<Record> {
    if |s| <= n then s else s[|s| - n..]
  }

  predicate Kept(r: Record, newest: seq<Record>) {
    IsSelfTest(r) ==> exists i :: 0 <= i < |newest| && newest[i].id == r.id
  }

  function KeptWith(newest: seq<Record>): Record -> bool {
    r => Kept(r, newest)
  }

  // DELETE the self-test rows whose id is not among the newest `keep` of them.
  function PruneRows(t: Table, keep: nat, sql: Sql): Table {
    if Works(t, sql) then
      var newest := Last(Select(t.rows, IsSelfTest), keep);
      Table(true, Select(t.rows, KeptWith(newest)), t.nextId)
    else Opened(t, sql)
  }

  // ---- The service ----

  datatype Diag = Diag(store: Option<Table>, ring: seq<Record>, nextSequence: nat, session: string)

  datatype Entry = Entry(capturedAt: string, source: string, severity: Severity, event: string, message: string,
                         data: string)

  function Capped(ring: seq<Record>): seq<Record> {
    Last(ring, RING_CAPACITY)
  }

  function RecordOf(d: Diag, e: Entry): Record {
    Record(0, e.capturedAt, if e.source == "" then "runtime" else e.source, e.severity, e.event, e.message, e.data,
           d.session, d.nextSequence)
  }

  function Report(d: Diag, e: Entry, sql: Sql): Diag {
    var r := RecordOf(d, e);
    var counted := d.(nextSequence := d.nextSequence + 1);
    match d.store
    case None => counted.(ring := Capped(d.ring + [r]))
    case Some(t) =>
      var stored := counted.(store := Some(InsertRow(t, r, sql)));
      if (t.open || sql.opens) && sql.statement == Throws then stored
      else stored.(ring := Capped(d.ring + [if Works(t, sql) then r.(id := t.nextId) else r]))
  }

  function Prune(d: Diag, sql: Sql): Diag {
    match d.store
    case None => d
    case Some(t) => d.(store := Some(PruneRows(t, SELF_TEST_RETENTION, sql)))
  }

  function Delete(d: Diag, since: string, sql: Sql): Diag {
    match d.store
    case None => d.(ring := [])
    case Some(t) =>
      var cleared := d.(store := Some(ClearRows(t, since, sql)));
      if Works(t, sql) then cleared.(ring := Select(d.ring, Surviving(since))) else cleared
  }

  // The critical sections of the service's mutex.  Recording a self-test is a report and then a
  // prune, clearing is a delete and then a report, and other callers may come between.
  datatype Op = DoReport(entry: Entry, sql: Sql) | DoPrune(sql: Sql) | DoDelete(since: string, sql: Sql)

  function Apply(d: Diag, op: Op): Diag {
    match op
    case DoReport(entry, sql) => Report(d, entry, sql)
    case DoPrune(sql) => Prune(d, sql)
    case DoDelete(since, sql) => Delete(d, since, sql)
  }

  function Run(d: Diag, ops: seq<Op>): Diag {
    if ops == [] then d else Apply(Run(d, ops[..|ops| - 1]), ops[|ops| - 1])
  }

  // A service starts with an empty ring over whatever table earlier sessions left.
  predicate Initial(d: Diag) {
    d.ring == [] && d.nextSequence == 1 && (d.store.Some? ==> WellNumbered(d.store.value))
  }

  // ---- Invariant ----

  predicate Increasing(rows: seq<Record>) {
    forall i, j :: 0 <= i < j < |rows| ==> rows[i].id < rows[j].id
  }

  predicate WellNumbered(t: Table) {
    && 0 < t.nextId
    && (forall i :: 0 <= i < |t.rows| ==> 0 < t.rows[i].id < t.nextId)
    && Increasing(t.rows)
  }

  predicate Ordinary(r: Record) {
    !IsSelfTest(r)
  }

  predicate Persisted(r: Record) {
    r.id != 0 && Ordinary(r)
  }

  predicate IsSuffix(a: seq<Record>, b: seq<Record>) {
    |a| <= |b| && a == b[|b| - |a|..]
  }

  predicate InSequence(ring: seq<Record>, next: nat) {
    && |ring| <= RING_CAPACITY
    && (forall i :: 0 <= i < |ring| ==> ring[i].sequence < next)
    && (forall i, j :: 0 <= i < j < |ring| ==> ring[i].sequence < ring[j].sequence)
  }

  predicate Sequenced(d: Diag) {
    InSequence(d.ring, d.nextSequence)
  }

  predicate Unstored(ring: seq<Record>) {
    forall i :: 0 <= i < |ring| ==> ring[i].id == 0
  }

  // The rows end in what the ring holds, but for ring records that were never stored or are self-tests,
  // which a prune may have taken from the table.
  predicate EndIn(rows: seq<Record>, ring: seq<Record>) {
    ring == []
    || (rows != [] && rows[|rows| - 1] == ring[|ring| - 1] && EndIn(rows[..|rows| - 1], ring[..|ring| - 1]))
    || (!Persisted(ring[|ring| - 1]) && EndIn(rows, ring[..|ring| - 1]))
  }

  predicate AgreesWith(t: Table, ring: seq<Record>) {
    WellNumbered(t) && EndIn(t.rows, ring) && (!t.open ==> Unstored(ring))
  }

  predicate Agrees(d: Diag) {
    match d.store
    case None => Unstored(d.ring)
    case Some(t) => AgreesWith(t, d.ring)
  }

  predicate Inv(d: Diag) {
    Sequenced(d) && Agrees(d)
  }

  // ---- Select and suffixes ----

  lemma {:induction false} SelectConcat(a: seq<Record>, b: seq<Record>, p: Record -> bool)
    ensures Select(a + b, p) == Select(a, p) + Select(b, p)
  {
    if b == [] {
      assert a + b == a;
    } else {
      var n := |b| - 1;
      assert (a + b)[..|a + b| - 1] == a + b[..n];
      SelectConcat(a, b[..n], p);
    }
  }

  lemma {:induction false} SelectedAre(s: seq<Record>, p: Record -> bool)
    ensures |Select(s, p)| <= |s|
    ensures forall i :: 0 <= i < |Select(s, p)| ==> p(Select(s, p)[i]) && Select(s, p)[i] in s
  {
    if s != [] { SelectedAre(s[..|s| - 1], p); }
  }

  lemma {:induction false} SelectCommutes(s: seq<Record>, p: Record -> bool, q: Record -> bool)
    ensures Select(Select(s, p), q) == Select(Select(s, q), p)
  {
    if s != [] {
      var front, last := s[..|s| - 1], s[|s| - 1];
      SelectCommutes(front, p, q);
      SelectConcat(Select(front, p), if p(last) then [last] else [], q);
      SelectConcat(Select(front, q), if q(last) then [last] else [], p);
    }
  }

  // The same records under another predicate that agrees on them.
  lemma {:induction false} SelectSame(s: seq<Record>, p: Record -> bool, q: Record -> bool)
    requires forall i :: 0 <= i < |s| ==> p(s[i]) == q(s[i])
    ensures Select(s, p) == Select(s, q)
  {
    if s != [] { SelectSame(s[..|s| - 1], p, q); }
  }

  lemma {:induction false} SelectAll(s: seq<Record>, p: Record -> bool)
    requires forall i :: 0 <= i < |s| ==> p(s[i])
    ensures Select(s, p) == s
  {
    if s != [] { SelectAll(s[..|s| - 1], p); }
  }

  lemma {:induction false} SelectNone(s: seq<Record>, p: Record -> bool)
    requires forall i :: 0 <= i < |s| ==> !p(s[i])
    ensures Select(s, p) == []
  {
    if s != [] { SelectNone(s[..|s| - 1], p); }
  }

  lemma {:induction false} SelectIncreasing(rows: seq<Record>, p: Record -> bool)
    requires Increasing(rows)
    ensures Increasing(Select(rows, p))
  {
    if rows != [] {
      var n := |rows| - 1;
      SelectIncreasing(rows[..n], p);
      SelectedAre(rows[..n], p);
    }
  }

  lemma {:induction false} SelectKeepsNumbering(t: Table, p: Record -> bool)
    requires WellNumbered(t)
    ensures WellNumbered(t.(rows := Select(t.rows, p)))
  {
    SelectIncreasing(t.rows, p);
    SelectedAre(t.rows, p);
  }

  // ---- Every operation keeps the invariant ----

  lemma {:induction false} EndInWithoutOldest(rows: seq<Record>, ring: seq<Record>)
    requires EndIn(rows, ring) && ring != []
    ensures EndIn(rows, ring[1..])
  {
    var n := |ring| - 1;
    if n != 0 {
      assert ring[1..][..n - 1] == ring[..n][1..];
      if rows != [] && rows[|rows| - 1] == ring[n] && EndIn(rows[..|rows| - 1], ring[..n]) {
        EndInWithoutOldest(rows[..|rows| - 1], ring[..n]);
      } else {
        EndInWithoutOldest(rows, ring[..n]);
      }
    }
  }

  lemma {:induction false} EndInLast(rows: seq<Record>, ring: seq<Record>, n: nat)
    requires EndIn(rows, ring)
    ensures EndIn(rows, Last(ring, n))
    decreases |ring|
  {
    if n < |ring| {
      EndInWithoutOldest(rows, ring);
      EndInLast(rows, ring[1..], n);
      assert Last(ring[1..], n) == Last(ring, n);
    }
  }

  // The ring takes x; the table takes it too if it carries a row id.
  lemma {:induction false} EndInPush(rows: seq<Record>, ring: seq<Record>, x: Record)
    requires EndIn(rows, ring)
    ensures EndIn(if x.id == 0 then rows else rows + [x], ring + [x])
  {
    assert (ring + [x])[..|ring|] == ring && (rows + [x])[..|rows|] == rows;
  }

  lemma {:induction false} EndInPushKept(rows: seq<Record>, ring: seq<Record>, x: Record)
    requires EndIn(rows, ring)
    ensures EndIn(if x.id == 0 then rows else rows + [x], Capped(ring + [x]))
  {
    hide EndIn;
    EndInPush(rows, ring, x);
    EndInLast(if x.id == 0 then rows else rows + [x], ring + [x], RING_CAPACITY);
  }

  // A deletion of the same records from both.
  lemma {:induction false} EndInSelected(rows: seq<Record>, ring: seq<Record>, p: Record -> bool)
    requires EndIn(rows, ring)
    ensures EndIn(Select(rows, p), Select(ring, p))
  {
    if ring != [] {
      var n, m := |ring| - 1, |rows| - 1;
      var x, front := ring[n], Select(ring[..n], p);
      assert (front + [x])[..|front|] == front && front + [] == front;
      if rows != [] && rows[m] == x && EndIn(rows[..m], ring[..n]) {
        EndInSelected(rows[..m], ring[..n], p);
        var kept := Select(rows[..m], p);
        assert (kept + [x])[..|kept|] == kept && kept + [] == kept;
      } else {
        EndInSelected(rows, ring[..n], p);
      }
    }
  }

  // A deletion of self-tests from the table only.
  lemma {:induction false} EndInPruned(rows: seq<Record>, ring: seq<Record>, p: Record -> bool)
    requires EndIn(rows, ring) && forall r: Record :: Ordinary(r) ==> p(r)
    ensures EndIn(Select(rows, p), ring)
  {
    if ring != [] {
      var n, m := |ring| - 1, |rows| - 1;
      if rows != [] && rows[m] == ring[n] && EndIn(rows[..m], ring[..n]) {
        EndInPruned(rows[..m], ring[..n], p);
        var kept := Select(rows[..m], p);
        assert (kept + [rows[m]])[..|kept|] == kept && kept + [] == kept;
      } else {
        EndInPruned(rows, ring[..n], p);
      }
    }
  }

  // The stored ordinary records of the ring are the newest ordinary rows.
  lemma {:induction false} EndInIsSuffix(rows: seq<Record>, ring: seq<Record>)
    requires EndIn(rows, ring) && forall i :: 0 <= i < |rows| ==> rows[i].id != 0
    ensures IsSuffix(Select(ring, Persisted), Select(rows, Ordinary))
  {
    if ring != [] {
      var n, m := |ring| - 1, |rows| - 1;
      if rows != [] && rows[m] == ring[n] && EndIn(rows[..m], ring[..n]) {
        EndInIsSuffix(rows[..m], ring[..n]);
        SuffixSnoc(Select(ring[..n], Persisted), Select(rows[..m], Ordinary), ring[n]);
      } else {
        EndInIsSuffix(rows, ring[..n]);
      }
    }
  }

  lemma SuffixSnoc(a: seq<Record>, b: seq<Record>, x: Record)
    requires IsSuffix(a, b)
    ensures IsSuffix(a + [x], b + [x]) && IsSuffix(a + [], b + [])
  {
    assert b == b[..|b| - |a|] + a;
  }

  lemma {:induction false} PushKeepsSequence(ring: seq<Record>, x: Record)
    requires InSequence(ring, x.sequence)
    ensures InSequence(Capped(ring + [x]), x.sequence + 1)
  {
  }

  lemma {:induction false} InsertKeepsNumbering(t: Table, r: Record, sql: Sql)
    requires WellNumbered(t)
    ensures WellNumbered(InsertRow(t, r, sql))
  {
  }

  lemma {:induction false} StoringKeepsAgreement(t: Table, ring: seq<Record>, r: Record, sql: Sql)
    requires AgreesWith(t, ring) && r.id == 0
    ensures AgreesWith(InsertRow(t, r, sql), Capped(ring + [if Works(t, sql) then r.(id := t.nextId) else r]))
    ensures !Works(t, sql) ==> AgreesWith(InsertRow(t, r, sql), ring)
  {
    hide EndIn, Capped;
    var x := if Works(t, sql) then r.(id := t.nextId) else r;
    InsertKeepsNumbering(t, r, sql);
    EndInPushKept(t.rows, ring, x);
    assert InsertRow(t, r, sql).rows == if x.id == 0 then t.rows else t.rows + [x];
    if Unstored(ring) && x.id == 0 { CappedUnstored(ring, x); }
  }

  lemma CappedUnstored(ring: seq<Record>, x: Record)
    requires Unstored(ring) && x.id == 0
    ensures Unstored(Capped(ring + [x]))
  {
  }

  lemma {:induction false} ReportKeepsSequence(d: Diag, e: Entry, sql: Sql)
    requires Sequenced(d)
    ensures Sequenced(Report(d, e, sql))
  {
    var r := RecordOf(d, e);
    PushKeepsSequence(d.ring, r);
    if d.store.Some? { PushKeepsSequence(d.ring, r.(id := d.store.value.nextId)); }
  }

  lemma {:induction false} ReportKeepsAgreement(d: Diag, e: Entry, sql: Sql)
    requires Agrees(d)
    ensures Agrees(Report(d, e, sql))
  {
    if d.store.Some? { StoringKeepsAgreement(d.store.value, d.ring, RecordOf(d, e), sql); }
  }

  lemma {:induction false} PruneKeepsOrdinary(t: Table, keep: nat, sql: Sql)
    requires WellNumbered(t)
    ensures WellNumbered(PruneRows(t, keep, sql))
    ensures Select(PruneRows(t, keep, sql).rows, Ordinary) == Select(t.rows, Ordinary)
  {
    if Works(t, sql) {
      var kept := KeptWith(Last(Select(t.rows, IsSelfTest), keep));
      SelectKeepsNumbering(t, kept);
      SelectCommutes(t.rows, kept, Ordinary);
      SelectedAre(t.rows, Ordinary);
      SelectAll(Select(t.rows, Ordinary), kept);
    }
  }

  lemma {:induction false} PruneKeepsAgreement(t: Table, ring: seq<Record>, sql: Sql)
    requires AgreesWith(t, ring)
    ensures AgreesWith(PruneRows(t, SELF_TEST_RETENTION, sql), ring)
  {
    PruneKeepsOrdinary(t, SELF_TEST_RETENTION, sql);
    hide EndIn, Select, WellNumbered;
    if Works(t, sql) {
      var newest := Last(Select(t.rows, IsSelfTest), SELF_TEST_RETENTION);
      EndInPruned(t.rows, ring, KeptWith(newest));
    }
  }

  lemma {:induction false} DeleteKeepsAgreement(t: Table, ring: seq<Record>, since: string, sql: Sql)
    requires AgreesWith(t, ring)
    ensures AgreesWith(ClearRows(t, since, sql), if Works(t, sql) then Select(ring, Surviving(since)) else ring)
  {
    SelectKeepsNumbering(t, Surviving(since));
    EndInSelected(t.rows, ring, Surviving(since));
    hide EndIn, Select, WellNumbered;
  }

  lemma {:induction false} SelectKeepsSequence(s: seq<Record>, p: Record -> bool)
    requires forall i, j :: 0 <= i < j < |s| ==> s[i].sequence < s[j].sequence
    ensures |Select(s, p)| <= |s| && forall i :: 0 <= i < |Select(s, p)| ==> Select(s, p)[i] in s
    ensures forall i, j :: 0 <= i < j < |Select(s, p)| ==> Select(s, p)[i].sequence < Select(s, p)[j].sequence
  {
    if s != [] { SelectKeepsSequence(s[..|s| - 1], p); }
  }

  lemma {:induction false} EveryOperationKeepsInv(d: Diag, op: Op)
    requires Inv(d)
    ensures Inv(Apply(d, op))
  {
    hide AgreesWith, Select, PruneRows, ClearRows, Report;
    match op
    case DoReport(entry, sql) =>
      ReportKeepsSequence(d, entry, sql);
      ReportKeepsAgreement(d, entry, sql);
    case DoPrune(sql) =>
      if d.store.Some? { PruneKeepsAgreement(d.store.value, d.ring, sql); }
    case DoDelete(since, sql) =>
      SelectKeepsSequence(d.ring, Surviving(since));
      if d.store.Some? { DeleteKeepsAgreement(d.store.value, d.ring, since, sql); }
  }

  lemma {:induction false} RunKeepsInv(d: Diag, ops: seq<Op>)
    requires Inv(d)
    ensures Inv(Run(d, ops))
  {
    if ops != [] {
      hide Inv, Apply;
      RunKeepsInv(d, ops[..|ops| - 1]);
      EveryOperationKeepsInv(Run(d, ops[..|ops| - 1]), ops[|ops| - 1]);
    }
  }

  lemma {:induction false} EveryRunKeepsInv(d: Diag, ops: seq<Op>)
    requires Initial(d)
    ensures Inv(Run(d, ops))
  {
    assert Inv(d);
    RunKeepsInv(d, ops);
  }

  // In every interleaving of the service's critical sections the ring is numbered upwards and bounded, and
  // its stored ordinary records are the newest ordinary rows of the table.
  lemma {:induction false} EveryRunIsConsistent(d: Diag, ops: seq<Op>)
    requires Initial(d)
    ensures InSequence(Run(d, ops).ring, Run(d, ops).nextSequence)
    ensures Run(d, ops).store.Some? ==>
      IsSuffix(Select(Run(d, ops).ring, Persisted), Select(Run(d, ops).store.value.rows, Ordinary))
  {
    EveryRunKeepsInv(d, ops);
    if Run(d, ops).store.Some? {
      hide EndIn, Select, Run;
      EndInIsSuffix(Run(d, ops).store.value.rows, Run(d, ops).ring);
    }
  }

  lemma {:induction false} NumberingGrows(d: Diag, ops: seq<Op>, n: nat)
    requires n <= |ops| && Run(d, ops).store.Some?
    ensures Run(d, ops[..n]).store.Some? && Run(d, ops[..n]).store.value.nextId <= Run(d, ops).store.value.nextId
    decreases |ops|
  {
    if n < |ops| {
      var before := ops[..|ops| - 1];
      assert before[..n] == ops[..n];
      NumberingGrows(d, before, n);
    } else {
      assert ops[..n] == ops;
    }
  }

  // A row id given now was never a row's id before, whatever was deleted since.
  lemma {:induction false} NewIdsWereNeverUsed(d: Diag, ops: seq<Op>, n: nat, i: nat)
    requires Initial(d) && n <= |ops| && Run(d, ops).store.Some?
    requires Run(d, ops[..n]).store.Some? && i < |Run(d, ops[..n]).store.value.rows|
    ensures Run(d, ops[..n]).store.value.rows[i].id < Run(d, ops).store.value.nextId
  {
    EveryRunKeepsInv(d, ops[..n]);
    NumberingGrows(d, ops, n);
  }

  // ---- The ring answers like the table ----

  lemma {:induction false} NewestFirstSnoc(s: seq<Record>, r: Record, f: Filters)
    ensures NewestFirst(s + [r], f) == (if Matches(f, r) then [r] else []) + NewestFirst(s, f)
  {
    assert (s + [r])[..|s|] == s;
  }

  lemma {:induction false} NewestFirstCommutes(s: seq<Record>, f: Filters, p: Record -> bool)
    ensures Select(NewestFirst(s, f), p) == NewestFirst(Select(s, p), f)
  {
    if s != [] {
      var front, last := s[..|s| - 1], s[|s| - 1];
      NewestFirstCommutes(front, f, p);
      SelectConcat(if Matches(f, last) then [last] else [], NewestFirst(front, f), p);
      NewestFirstSnoc(Select(front, p), last, f);
      assert Select([last], p) == if p(last) then [last] else [];
      assert Select(s, p) == if p(last) then Select(front, p) + [last] else Select(front, p);
    }
  }

  lemma {:induction false} NewestFirstOfSuffix(a: seq<Record>, b: seq<Record>, f: Filters)
    requires IsSuffix(a, b)
    ensures NewestFirst(a, f) <= NewestFirst(b, f)
  {
    if a != [] { NewestFirstOfSuffix(a[..|a| - 1], b[..|b| - 1], f); }
  }

  lemma {:induction false} SelectOfPrefix(s: seq<Record>, n: nat, p: Record -> bool)
    requires n <= |s|
    ensures Select(s[..n], p) <= Select(s, p) && |Select(s[..n], p)| <= n
  {
    assert s == s[..n] + s[n..];
    SelectConcat(s[..n], s[n..], p);
    SelectedAre(s[..n], p);
  }

  lemma {:induction false} PrefixTransitive(a: seq<Record>, b: seq<Record>, c: seq<Record>)
    requires a <= b && b <= c
    ensures a <= c
  {
  }

  // For every filter, what the ring answers from stored ordinary records is the newest
  // part, in the same order, of what the table holds for that filter, within the limit.
  lemma {:induction false} RingAnswersLikeTheTable(ring: seq<Record>, rows: seq<Record>, f: Filters)
    requires IsSuffix(Select(ring, Persisted), Select(rows, Ordinary))
    ensures Select(Answer(ring, f), Persisted) <= Select(NewestFirst(rows, f), Ordinary)
    ensures f.max != 0 ==> |Select(Answer(ring, f), Persisted)| <= f.max
  {
    var all := NewestFirst(ring, f);
    var n := |Answer(ring, f)|;
    assert Answer(ring, f) == all[..n];
    SelectOfPrefix(all, n, Persisted);
    NewestFirstCommutes(ring, f, Persisted);
    NewestFirstCommutes(rows, f, Ordinary);
    NewestFirstOfSuffix(Select(ring, Persisted), Select(rows, Ordinary), f);
    PrefixTransitive(Select(Answer(ring, f), Persisted), Select(all, Persisted),
                     Select(NewestFirst(rows, f), Ordinary));
  }

  lemma SelectFront(x: Record, s: seq<Record>, p: Record -> bool)
    ensures Select([x] + s, p) == (if p(x) then [x] else []) + Select(s, p)
  {
    SelectConcat([x], s, p);
    assert Select([x][..0], p) == [];
  }

  function UpTo(s: seq<Record>, limit: nat): seq<Record> {
    if |s| <= limit then s else s[..limit]
  }

  // Of the first `limit` records, the stored ordinary ones of the ring come first among the table's.
  predicate Agreeing(ring: seq<Record>, rows: seq<Record>, limit: nat) {
    Select(UpTo(ring, limit), Persisted) <= Select(UpTo(rows, limit), Ordinary)
  }

  lemma UpToFront(x: Record, s: seq<Record>, limit: nat, p: Record -> bool)
    requires limit != 0
    ensures Select(UpTo([x] + s, limit), p) == (if p(x) then [x] else []) + Select(UpTo(s, limit - 1), p)
  {
    hide Select;
    assert UpTo([x] + s, limit) == [x] + UpTo(s, limit - 1);
    SelectFront(x, UpTo(s, limit - 1), p);
  }

  lemma UpToGrows(s: seq<Record>, limit: nat, p: Record -> bool)
    ensures Select(UpTo(s, limit), p) <= Select(UpTo(s, limit + 1), p)
  {
    hide Select;
    if limit < |s| {
      var more := UpTo(s, limit + 1);
      assert more[..limit] == s[..limit];
      SelectOfPrefix(more, limit, p);
    }
  }

  lemma BothTake(x: Record, ring: seq<Record>, rows: seq<Record>, limit: nat)
    requires limit != 0 && Agreeing(ring, rows, limit - 1) && x.id != 0
    ensures Agreeing([x] + ring, [x] + rows, limit)
  {
    hide Select;
    UpToFront(x, ring, limit, Persisted);
    UpToFront(x, rows, limit, Ordinary);
  }

  lemma RingTakes(x: Record, ring: seq<Record>, rows: seq<Record>, limit: nat)
    requires limit != 0 && Agreeing(ring, rows, limit - 1) && !Persisted(x)
    ensures Agreeing([x] + ring, rows, limit)
  {
    hide Select;
    UpToFront(x, ring, limit, Persisted);
    UpToGrows(rows, limit - 1, Ordinary);
    assert [] + Select(UpTo(ring, limit - 1), Persisted) == Select(UpTo(ring, limit - 1), Persisted);
  }

  lemma NewestFirstOf(s: seq<Record>, f: Filters)
    requires s != []
    ensures var x, rest := s[|s| - 1], NewestFirst(s[..|s| - 1], f);
      NewestFirst(s, f) == if Matches(f, x) then [x] + rest else rest
  {
    assert [] + NewestFirst(s[..|s| - 1], f) == NewestFirst(s[..|s| - 1], f);
  }

  lemma NoneAgrees(f: Filters, ring: seq<Record>, rows: seq<Record>, limit: nat)
    requires limit == 0 || ring == []
    ensures Agreeing(ring, rows, limit)
  {
    assert UpTo(ring, limit) == [];
  }

  // The ring spends part of the limit on records that the table does not have, never the other way round.
  lemma {:induction false} LimitedAnswersAgree(rows: seq<Record>, ring: seq<Record>, f: Filters, limit: nat)
    requires EndIn(rows, ring) && forall i :: 0 <= i < |rows| ==> rows[i].id != 0
    ensures Agreeing(NewestFirst(ring, f), NewestFirst(rows, f), limit)
    decreases |ring|
  {
    if ring == [] || limit == 0 {
      NoneAgrees(f, NewestFirst(ring, f), NewestFirst(rows, f), limit);
    } else {
      hide Agreeing, NewestFirst, Matches, Persisted;
      var front, x := ring[..|ring| - 1], ring[|ring| - 1];
      NewestFirstOf(ring, f);
      var left := if Matches(f, x) then limit - 1 else limit;
      if rows != [] && rows[|rows| - 1] == x && EndIn(rows[..|rows| - 1], front) {
        NewestFirstOf(rows, f);
        LimitedAnswersAgree(rows[..|rows| - 1], front, f, left);
        if Matches(f, x) { BothTake(x, NewestFirst(front, f), NewestFirst(rows[..|rows| - 1], f), limit); }
      } else {
        LimitedAnswersAgree(rows, front, f, left);
        if Matches(f, x) { RingTakes(x, NewestFirst(front, f), NewestFirst(rows, f), limit); }
      }
    }
  }

  lemma {:induction false} AgreeingAnswers(d: Diag, f: Filters)
    requires Inv(d) && d.store.Some?
    ensures Select(Answer(d.ring, f), Persisted) <= Select(Answer(d.store.value.rows, f), Ordinary)
  {
    hide EndIn, Select, NewestFirst;
    var ring, rows := d.ring, d.store.value.rows;
    var limit := if f.max != 0 then f.max else |NewestFirst(ring, f)| + |NewestFirst(rows, f)|;
    LimitedAnswersAgree(rows, ring, f, limit);
  }

  // In every run and for every filter and limit, the stored ordinary part of what the ring answers is the newest
  // part of the ordinary records in the store's own answer.
  lemma {:induction false} RingAnswersLikeTheStore(d: Diag, ops: seq<Op>, f: Filters)
    requires Initial(d) && Run(d, ops).store.Some?
    ensures Select(Answer(Run(d, ops).ring, f), Persisted)
         <= Select(Answer(Run(d, ops).store.value.rows, f), Ordinary)
  {
    EveryRunKeepsInv(d, ops);
    AgreeingAnswers(Run(d, ops), f);
  }

  // While the database is not open the ring holds no stored record.
  lemma {:induction false} FallbackMeansNothingStored(d: Diag, ops: seq<Op>)
    requires Initial(d) && (Run(d, ops).store.Some? ==> !Run(d, ops).store.value.open)
    ensures forall i :: 0 <= i < |Run(d, ops).ring| ==> Run(d, ops).ring[i].id == 0
  {
    EveryRunKeepsInv(d, ops);
  }

  // ---- What a report leaves ----

  // The record says what was reported, by whom, in which session and as which one.
  predicate Says(r: Record, e: Entry, session: string, sequence: nat) {
    && r.capturedAt == e.capturedAt && r.severity == e.severity && r.event == e.event
    && r.message == e.message && r.data == e.data && r.session == session && r.sequence == sequence
    && r.source == if e.source == "" then "runtime" else e.source
  }

  predicate Thrown(d: Diag, sql: Sql) {
    d.store.Some? && (d.store.value.open || sql.opens) && sql.statement == Throws
  }

  predicate IsStored(d: Diag, sql: Sql) {
    d.store.Some? && Works(d.store.value, sql)
  }

  lemma PushedIsLast(ring: seq<Record>, r: Record)
    ensures Capped(ring + [r]) != [] && Capped(ring + [r])[|Capped(ring + [r])| - 1] == r
    ensures |ring| < RING_CAPACITY ==> Capped(ring + [r]) == ring + [r]
    ensures RING_CAPACITY == |ring| ==> Capped(ring + [r]) == ring[1..] + [r]
  {
  }

  // A report that does not throw puts what was reported at the end of the ring, under a row id exactly if it
  // was stored, and then the same record at the end of the table; one that throws leaves both alone.
  lemma {:induction false} ReportIsRecorded(d: Diag, e: Entry, sql: Sql)
    ensures var d' := Apply(d, DoReport(e, sql));
      && d'.nextSequence == d.nextSequence + 1 && d'.session == d.session
      && (Thrown(d, sql) ==> d'.ring == d.ring && d'.store.value.rows == d.store.value.rows)
      && (!Thrown(d, sql) ==>
            && d'.ring != [] && Says(d'.ring[|d'.ring| - 1], e, d.session, d.nextSequence)
            && (IsStored(d, sql) ==>
                  && d'.ring[|d'.ring| - 1].id == d.store.value.nextId
                  && d'.store.value.rows == d.store.value.rows + [d'.ring[|d'.ring| - 1]])
            && (!IsStored(d, sql) ==>
                  d'.ring[|d'.ring| - 1].id == 0 && (d.store.Some? ==> d'.store.value.rows == d.store.value.rows)))
  {
    var r := RecordOf(d, e);
    PushedIsLast(d.ring, r);
    if d.store.Some? { PushedIsLast(d.ring, r.(id := d.store.value.nextId)); }
    hide Capped;
  }

  // A deletion that works takes the same records from the ring as from the table, and one that fails none.
  lemma {:induction false} DeletionClearsTheRing(d: Diag, since: string, sql: Sql)
    ensures var d' := Apply(d, DoDelete(since, sql));
      && d'.nextSequence == d.nextSequence
      && (d.store == None ==> d'.ring == [])
      && (IsStored(d, sql) ==>
            forall r :: r in d'.ring <==> r in d.ring && since != "" && !LexLess(r.capturedAt, since))
      && (d.store.Some? && !IsStored(d, sql) ==> d'.ring == d.ring)
  {
    SelectedExactly(d.ring, Surviving(since));
    hide Select;
  }

  // What Debug .. Critical are called in a query; any other name asks for Info.
  predicate Names(s: string, severity: Severity) {
    match severity
    case Debug => s == "debug"
    case Warning => s == "warning" || s == "warn"
    case Error => s == "error"
    case Critical => s == "critical"
    case Info => s != "debug" && s != "warning" && s != "warn" && s != "error" && s != "critical"
  }

  // A query passes on a record exactly if each filter that is given fits it; an instant means it or later.
  lemma {:induction false} FiltersSelect(f: Filters, r: Record)
    ensures Matches(f, r) <==>
      && (f.severity == "" || Names(f.severity, r.severity))
      && (f.source == "" || f.source == r.source) && (f.event == "" || f.event == r.event)
      && (f.since == "" || f.since == r.capturedAt || LexLess(f.since, r.capturedAt))
  {
    LexIsTotal(f.since, r.capturedAt);
    hide LexLess;
  }

  lemma {:induction false} LexIsTotal(a: string, b: string)
    ensures !LexLess(b, a) <==> a == b || LexLess(a, b)
  {
    if a != [] && b != [] && a[0] == b[0] {
      LexIsTotal(a[1..], b[1..]);
      assert a == [a[0]] + a[1..] && b == [b[0]] + b[1..];
    }
  }

  // The next query, for the event reported or for everything, answers with the report first.
  lemma {:induction false} ReportIsAnsweredFirst(d: Diag, e: Entry, sql: Sql, f: Filters)
    requires !Thrown(d, sql) && f.event in {"", e.event} && f.severity == "" && f.source == "" && f.since == ""
    requires Available(Apply(d, DoReport(e, sql))) ==> IsStored(d, sql)
    ensures var answer := QueryAnswer(Apply(d, DoReport(e, sql)), f, true, []);
      answer != [] && Says(answer[0], e, d.session, d.nextSequence)
  {
    ReportIsRecorded(d, e, sql);
    var d' := Apply(d, DoReport(e, sql));
    var last := d'.ring[|d'.ring| - 1];
    hide Report, Apply;
    assert Matches(f, last);
    NewestFirstOf(d'.ring, f);
    if Available(d') {
      var rows := d'.store.value.rows;
      assert rows[|rows| - 1] == last;
      NewestFirstOf(rows, f);
    }
    assert Run(d', []) == d';
    hide NewestFirst, Matches, Run;
  }

  // ---- Queries ----

  predicate Available(d: Diag) {
    d.store.Some? && d.store.value.open
  }

  // A query enters the mutex once to ask the store, and where that is not available once more to scan the
  // ring; `between` is what other callers do in the meantime.
  function QueryAnswer(d: Diag, f: Filters, prepares: bool, between: seq<Op>): seq<Record> {
    if Available(d) then if prepares then Answer(d.store.value.rows, f) else []
    else Answer(Run(d, between).ring, f)
  }

  // The record that the critical section stores, if it stores one.
  function StoredBy(d: Diag, op: Op): Option<Record> {
    if op.DoReport? && d.store.Some? && Works(d.store.value, op.sql) then
      Some(RecordOf(d, op.entry).(id := d.store.value.nextId))
    else None
  }

  // An available store answers with its newest matching rows, or with nothing if its statement fails, and
  // what others do then plays no part.
  lemma {:induction false} AvailableStoreAnswers(d: Diag, f: Filters, prepares: bool, between: seq<Op>)
    requires Available(d) && Increasing(d.store.value.rows)
    ensures var answer, rows := QueryAnswer(d, f, prepares, between), d.store.value.rows;
      && (!prepares ==> answer == [])
      && (prepares ==>
            && (forall i :: 0 <= i < |answer| ==> answer[i] in rows && Matches(f, answer[i]))
            && (forall i, j :: 0 <= i < j < |answer| ==> answer[j].id < answer[i].id)
            && (forall r :: r in rows && Matches(f, r) && r !in answer ==>
                  f.max != 0 && |answer| == f.max && forall i :: 0 <= i < |answer| ==> r.id < answer[i].id))
  {
    AnswerIsTheNewest(d.store.value.rows, f);
    hide Answer, Matches, Run, Increasing;
  }

  lemma {:induction false} OneSectionStores(d: Diag, op: Op, r: Record)
    requires r in Apply(d, op).ring && r.id != 0
    ensures r in d.ring || StoredBy(d, op) == Some(r)
  {
    if op.DoDelete? { SelectedAre(d.ring, Surviving(op.since)); }
  }

  lemma {:induction false} StoredInBetween(d: Diag, between: seq<Op>, r: Record)
    requires r in Run(d, between).ring && r.id != 0 && forall x :: x in d.ring ==> x.id == 0
    ensures exists k :: 0 <= k < |between| && StoredBy(Run(d, between[..k]), between[k]) == Some(r)
  {
    var before, last := between[..|between| - 1], between[|between| - 1];
    if StoredBy(Run(d, before), last) == Some(r) {
      assert before == between[..|between| - 1];
    } else {
      OneSectionStores(Run(d, before), last, r);
      StoredInBetween(d, before, r);
      var k :| 0 <= k < |before| && StoredBy(Run(d, before[..k]), before[k]) == Some(r);
      assert before[..k] == between[..k];
    }
  }

  lemma {:induction false} AnsweredFrom(s: seq<Record>, f: Filters)
    ensures forall r :: r in NewestFirst(s, f) ==> r in s
  {
    if s != [] { AnsweredFrom(s[..|s| - 1], f); }
  }

  // A record in the ring's answer was stored, if at all, by a report between the query's two sections.
  lemma {:induction false} FallbackIsStoredInBetween(
      d: Diag, ops: seq<Op>, f: Filters, prepares: bool, between: seq<Op>, r: Record)
    requires Initial(d) && !Available(Run(d, ops))
    requires r in QueryAnswer(Run(d, ops), f, prepares, between) && r.id != 0
    ensures exists k :: 0 <= k < |between| && StoredBy(Run(Run(d, ops), between[..k]), between[k]) == Some(r)
  {
    var s := Run(d, ops);
    FallbackMeansNothingStored(d, ops);
    AnsweredFrom(Run(s, between).ring, f);
    hide Run, NewestFirst, StoredBy;
    StoredInBetween(s, between, r);
  }

  lemma OneReportOpens(d: Diag, e: Entry)
    requires d.ring == [] && d.store.Some?
    ensures Run(d, [DoReport(e, Sql(true, Succeeds))]).ring == [RecordOf(d, e).(id := d.store.value.nextId)]
  {
    var op := DoReport(e, Sql(true, Succeeds));
    assert [op][..0] == [];
    hide RecordOf;
    assert Run(d, [op]) == Apply(Run(d, []), op);
  }

  lemma OneAnswer(r: Record, f: Filters)
    requires Matches(f, r)
    ensures Answer([r], f) == [r]
  {
    hide Matches;
    assert [r][..0] == [];
    assert NewestFirst([r][..0], f) == [] && [r] + [] == [r];
  }

  // Such a record there can be: one report opens the database and stores its row in between.
  lemma {:induction false} FallbackMayAnswerStored(d: Diag, e: Entry)
    requires Initial(d) && d.store.Some? && !Available(d)
    ensures var f := Filters("", "", "", "", 0);
      QueryAnswer(d, f, true, [DoReport(e, Sql(true, Succeeds))]) == [RecordOf(d, e).(id := d.store.value.nextId)]
  {
    var r := RecordOf(d, e).(id := d.store.value.nextId);
    OneReportOpens(d, e);
    hide Run, RecordOf, Answer;
    OneAnswer(r, Filters("", "", "", "", 0));
  }

  lemma StoredAnswers(t: Table, f: Filters)
    requires WellNumbered(t)
    ensures Select(Answer(t.rows, f), Persisted) == Select(Answer(t.rows, f), Ordinary)
  {
    AnsweredFrom(t.rows, f);
    hide NewestFirst;
    var answer := Answer(t.rows, f);
    forall i | 0 <= i < |answer| ensures answer[i].id != 0 {
      assert answer[i] in t.rows;
    }
    SelectSame(answer, Persisted, Ordinary);
  }

  // Whichever section answers, and whatever came between, the stored ordinary part of the answer comes
  // first in what the store has then.
  lemma {:induction false} QueriesAgreeWithTheStore(
      d: Diag, ops: seq<Op>, f: Filters, prepares: bool, between: seq<Op>)
    requires Initial(d) && Run(d, ops).store.Some?
    ensures var s := Run(d, ops);
      var answering := if Available(s) then s else Run(s, between);
      answering.store.Some?
      && Select(QueryAnswer(s, f, prepares, between), Persisted)
         <= Select(Answer(answering.store.value.rows, f), Ordinary)
  {
    var s := Run(d, ops);
    EveryRunKeepsInv(d, ops);
    if Available(s) {
      StoredAnswers(s.store.value, f);
    } else {
      RunKeepsInv(s, between);
      StoreStays(s, between);
      AgreeingAnswers(Run(s, between), f);
    }
  }

  lemma {:induction false} StoreStays(d: Diag, ops: seq<Op>)
    ensures Run(d, ops).store.Some? <==> d.store.Some?
  {
    if ops != [] { StoreStays(d, ops[..|ops| - 1]); }
  }

  // ---- What the statements do ----

  // Exactly the matching rows, by descending id.
  ghost predicate AreNewest(all: seq<Record>, rows: seq<Record>, f: Filters) {
    && (forall i :: 0 <= i < |all| ==> all[i] in rows && Matches(f, all[i]))
    && (forall i, j :: 0 <= i < j < |all| ==> all[j].id < all[i].id)
    && (forall r :: r in rows && Matches(f, r) ==> r in all)
  }

  lemma {:induction false} OneNewer(front: seq<Record>, x: Record, all: seq<Record>, f: Filters)
    requires AreNewest(all, front, f) && forall r :: r in front ==> r.id < x.id
    ensures AreNewest(if Matches(f, x) then [x] + all else all, front + [x], f)
  {
    hide Matches;
  }

  lemma {:induction false} NewestFirstIs(rows: seq<Record>, f: Filters)
    requires Increasing(rows)
    ensures AreNewest(NewestFirst(rows, f), rows, f)
  {
    if rows != [] {
      hide *;
      var front, x := rows[..|rows| - 1], rows[|rows| - 1];
      assert rows == front + [x];
      LastIsNewest(front, x);
      NewestFirstIs(front, f);
      OneNewer(front, x, NewestFirst(front, f), f);
      assert NewestFirst(rows, f) == if Matches(f, x) then [x] + NewestFirst(front, f) else NewestFirst(front, f) by {
        NewestFirstOf(rows, f);
      }
    }
  }

  lemma LastIsNewest(front: seq<Record>, x: Record)
    requires Increasing(front + [x])
    ensures Increasing(front)
    ensures forall r :: r in front ==> r.id < x.id
  {
    var rows := front + [x];
    assert forall i :: 0 <= i < |front| ==> rows[i] == front[i] && rows[i].id < rows[|front|].id;
  }

  lemma LimitedAreNewest(all: seq<Record>, rows: seq<Record>, f: Filters)
    requires AreNewest(all, rows, f)
    ensures var answer := Limited(all, f.max);
      && (forall i :: 0 <= i < |answer| ==> answer[i] in rows && Matches(f, answer[i]))
      && (forall i, j :: 0 <= i < j < |answer| ==> answer[j].id < answer[i].id)
      && (f.max != 0 ==> |answer| <= f.max)
  {
    hide Matches;
  }

  lemma LeftOutAreOlder(all: seq<Record>, rows: seq<Record>, f: Filters, r: Record)
    requires AreNewest(all, rows, f) && r in rows && Matches(f, r) && r !in Limited(all, f.max)
    ensures var answer := Limited(all, f.max);
      f.max != 0 && |answer| == f.max && forall i :: 0 <= i < |answer| ==> r.id < answer[i].id
  {
    hide Matches;
    var answer := Limited(all, f.max);
    var k :| 0 <= k < |all| && all[k] == r;
    assert forall i :: 0 <= i < |answer| ==> answer[i] == all[i] && answer[i] in answer;
  }

  // A query answers with matching rows, newest first and within its limit, and leaves one out only when the
  // limit is full of newer ones.
  lemma {:induction false} AnswerIsTheNewest(rows: seq<Record>, f: Filters)
    requires Increasing(rows)
    ensures var answer := Answer(rows, f);
      && (forall i :: 0 <= i < |answer| ==> answer[i] in rows && Matches(f, answer[i]))
      && (forall i, j :: 0 <= i < j < |answer| ==> answer[j].id < answer[i].id)
      && (f.max != 0 ==> |answer| <= f.max)
      && (forall r :: r in rows && Matches(f, r) && r !in answer ==>
            f.max != 0 && |answer| == f.max && forall i :: 0 <= i < |answer| ==> r.id < answer[i].id)
  {
    NewestFirstIs(rows, f);
    var all, answer := NewestFirst(rows, f), Answer(rows, f);
    LimitedAreNewest(all, rows, f);
    hide NewestFirst, Matches, AreNewest, Increasing, Limited;
    forall r | r in rows && Matches(f, r) && r !in answer
      ensures f.max != 0 && |answer| == f.max && forall i :: 0 <= i < |answer| ==> r.id < answer[i].id
    {
      LeftOutAreOlder(all, rows, f, r);
    }
  }

  // A successful clear leaves, in order, exactly the rows of the instant or later, none without an instant, and
  // takes no id back; a failed one leaves the rows alone.
  lemma {:induction false} ClearLeavesTheLater(t: Table, since: string, sql: Sql)
    requires WellNumbered(t)
    ensures var t' := ClearRows(t, since, sql);
      && WellNumbered(t') && t'.nextId == t.nextId
      && (Works(t, sql) ==> forall r :: r in t'.rows <==> r in t.rows && since != "" && !LexLess(r.capturedAt, since))
      && (!Works(t, sql) ==> t'.rows == t.rows)
  {
    SelectKeepsNumbering(t, Surviving(since));
    SelectedExactly(t.rows, Surviving(since));
  }

  lemma {:induction false} SelectedExactly(s: seq<Record>, p: Record -> bool)
    ensures forall r :: r in Select(s, p) <==> r in s && p(r)
  {
    if s != [] {
      var front, x := s[..|s| - 1], s[|s| - 1];
      SelectedExactly(front, p);
      assert forall r :: r in s <==> r in front || r == x;
    }
  }

  // ---- Pruning ----

  lemma {:induction false} NewestById(s: seq<Record>, newest: seq<Record>)
    requires IsSuffix(newest, s)
    requires forall i :: 0 <= i < |s| ==> IsSelfTest(s[i])
    requires Increasing(s)
    ensures Select(s, KeptWith(newest)) == newest
  {
    var n := |s| - |newest|;
    assert s == s[..n] + newest;
    SelectConcat(s[..n], newest, KeptWith(newest));
    SelectNone(s[..n], KeptWith(newest));
    SelectAll(newest, KeptWith(newest));
  }

  lemma {:induction false} PrunedSelfTests(t: Table, keep: nat)
    requires WellNumbered(t)
    ensures var tests := Select(t.rows, IsSelfTest);
            Select(Select(t.rows, KeptWith(Last(tests, keep))), IsSelfTest) == Last(tests, keep)
  {
    var tests := Select(t.rows, IsSelfTest);
    SelectedAre(t.rows, IsSelfTest);
    SelectKeepsNumbering(t, IsSelfTest);
    SelectCommutes(t.rows, KeptWith(Last(tests, keep)), IsSelfTest);
    NewestById(tests, Last(tests, keep));
  }

  // A successful prune leaves exactly the newest `keep` self-test rows (all, if fewer)
  // and every other row, in order; a failed one leaves the rows alone.
  lemma {:induction false} PruneKeepsTheNewest(t: Table, keep: nat, sql: Sql)
    requires WellNumbered(t)
    ensures Select(PruneRows(t, keep, sql).rows, Ordinary) == Select(t.rows, Ordinary)
    ensures Works(t, sql) ==> Select(PruneRows(t, keep, sql).rows, IsSelfTest) == Last(Select(t.rows, IsSelfTest), keep)
    ensures !Works(t, sql) ==> PruneRows(t, keep, sql).rows == t.rows
  {
    PruneKeepsOrdinary(t, keep, sql);
    PrunedSelfTests(t, keep);
  }
}
