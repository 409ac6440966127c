/** Append with rotation for one log path: <name>.1, <name>.rotating and the live file,
    where every filesystem call may fail.  A file is the sequence of its lines. */
module LogRotation {
  import opened Basics
  import Timestamps

  const ROTATION_BYTES: nat := 50 * 1024 * 1024
  const MAX_ENTRIES: nat := 200000
  const MAX_AGE_SECONDS: nat := 14 * 24 * 60 * 60

  // A line of a file, with the capturedAtUtc that parsing it gives: "" if it is no object or has none.
  datatype Line = Line(text: string, stamp: string)

  datatype Disk = Disk(prior: Option<seq<Line>>, rotating: Option<seq<Line>>, live: Option<seq<Line>>)

  // Which calls of one rotation fail.
  datatype Faults = Faults(removeRotating: bool, renameLive: bool, removePrior: bool, renameRotating: bool)

  const NO_FAULTS := Faults(false, false, false, false)

  // One append: the calls around the two rotations, whether the deep check is due, the time, and whether
  // the write itself succeeds.
  datatype Env = Env(directories: bool, stat: bool, first: Faults, due: bool, readable: bool, now: int, second: Faults,
                     write: bool)

  function Lines(file: Option<seq<Line>>): seq<Line> {
    if file.Some? then file.value else []
  }

  function Bytes(lines: seq<Line>): nat {
    if lines == [] then 0 else Bytes(lines[..|lines| - 1]) + |lines[|lines| - 1].text| + 1
  }

  // The file as text: each line and its line feed.
  function Content(lines: seq<Line>): string {
    if lines == [] then "" else lines[0].text + "\n" + Content(lines[1..])
  }

  lemma {:induction false} BytesAreTheContent(lines: seq<Line>)
    ensures Bytes(lines) == |Content(lines)|
  {
    if lines != [] {
      BytesAreTheContent(lines[1..]);
      BytesOfFirst(lines);
    }
  }

  lemma {:induction false} BytesOfFirst(lines: seq<Line>)
    requires lines != []
    ensures Bytes(lines) == |lines[0].text| + 1 + Bytes(lines[1..])
  {
    if |lines| > 1 {
      BytesOfFirst(lines[..|lines| - 1]);
      assert lines[1..][..|lines| - 2] == lines[..|lines| - 1][1..];
    }
  }

  function Rotate(d: Disk, f: Faults): Disk {
    var d1 := if f.removeRotating then d else d.(rotating := None);
    if f.renameLive then d1
    else
      var d2 := d1.(rotating := d1.live, live := None);
      var d3 := if f.removePrior then d2 else d2.(prior := None);
      if f.renameRotating then d3 else d3.(prior := d3.rotating, rotating := None)
  }

  predicate Oversized(d: Disk, env: Env) {
    d.live.Some? && env.stat && ROTATION_BYTES <= Bytes(d.live.value)
  }

  predicate Aged(line: Line, now: int) {
    var oldest := Timestamps.CapturedAt(line.stamp);
    oldest != 0 && MAX_AGE_SECONDS < now - oldest
  }

  predicate TooOldOrMany(d: Disk, env: Env) {
    env.due && env.readable && d.live.Some? && d.live.value != [] && d.live.value[0].text != ""
    && (Aged(d.live.value[0], env.now) || MAX_ENTRIES < |d.live.value|)
  }

  function Prepared(d: Disk, env: Env): Disk {
    var d1 := if Oversized(d, env) then Rotate(d, env.first) else d;
    if TooOldOrMany(d1, env) then Rotate(d1, env.second) else d1
  }

  function AfterAppend(d: Disk, line: Line, env: Env): Disk {
    if !env.directories then d
    else
      var p := Prepared(d, env);
      if env.write then p.(live := Some(Lines(p.live) + [line])) else p
  }

  // The records written so far, with this append's if it got there.
  function AfterWrite(written: seq<Line>, line: Line, env: Env): seq<Line> {
    if env.directories && env.write then written + [line] else written
  }

  // ---- The code, step by step ----

  class LogFile {
    var prior: Option<seq<Line>>
    var rotating: Option<seq<Line>>
    var live: Option<seq<Line>>
    ghost var written: seq<Line>

    function Model(): Disk
      reads this
    {
      Disk(prior, rotating, live)
    }

    ghost predicate Valid()
      reads this
    {
      Sliced(Model(), written)
    }

    constructor ()
      ensures Model() == Disk(None, None, None) && written == [] && Valid()
    {
      prior, rotating, live, written := None, None, None, [];
      new;
      assert SlicedAt(Model(), written, Cut(0, 0, 0, 0, 0));
    }

    method PerformRotation(f: Faults)
      modifies this`prior, this`rotating, this`live
      ensures Model() == Rotate(old(Model()), f)
    {
      if !f.removeRotating { rotating := None; }
      if f.renameLive { return; }
      rotating, live := live, None;
      if !f.removePrior { prior := None; }
      if !f.renameRotating { prior, rotating := rotating, None; }
    }

    // One pass over the lines, cut short one past the bound.
    method HasTooMany(lines: seq<Line>) returns (tooMany: bool)
      requires lines != []
      ensures tooMany <==> MAX_ENTRIES < |lines|
    {
      var count := 1;
      while count <= MAX_ENTRIES && count < |lines|
        invariant count <= |lines| && count <= MAX_ENTRIES + 1
      {
        count := count + 1;
      }
      tooMany := MAX_ENTRIES < count;
    }

    method Append(line: Line, env: Env)
      requires Valid()
      modifies this
      ensures Model() == AfterAppend(old(Model()), line, env)
      ensures written == AfterWrite(old(written), line, env)
      ensures Valid()
    {
      AppendKeepsSlices(Model(), written, line, env);
      if !env.directories { return; }
      if live.Some? && env.stat && ROTATION_BYTES <= Bytes(live.value) {
        PerformRotation(env.first);
      }
      if env.due && live.Some? && env.readable && live.value != [] && live.value[0].text != "" {
        var oldest := Timestamps.ParseCapturedAtUtcOrZero(live.value[0].stamp);
        var rotate := oldest != 0 && env.now - oldest > MAX_AGE_SECONDS;
        if !rotate { rotate := HasTooMany(live.value); }
        if rotate { PerformRotation(env.second); }
      }
      if env.write {
        live := Some(Lines(live) + [line]);
        written := written + [line];
      }
    }
  }

  // ---- Order is never lost ----

  // Where the three files begin and end in the sequence of all records written.
  datatype Cut = Cut(priorFrom: nat, priorTo: nat, rotatingFrom: nat, rotatingTo: nat, liveFrom: nat)

  predicate SlicedAt(d: Disk, written: seq<Line>, c: Cut) {
    && c.priorFrom <= c.priorTo <= c.rotatingFrom <= c.rotatingTo <= c.liveFrom <= |written|
    && Lines(d.prior) == written[c.priorFrom..c.priorTo]
    && Lines(d.rotating) == written[c.rotatingFrom..c.rotatingTo]
    && Lines(d.live) == written[c.liveFrom..]
  }

  // Oldest first, the files are disjoint slices of what was written, and the live file
  // is a suffix of it.
  ghost predicate Sliced(d: Disk, written: seq<Line>) {
    exists c :: SlicedAt(d, written, c)
  }

  lemma {:induction false} RotateKeepsSlices(d: Disk, written: seq<Line>, f: Faults)
    requires Sliced(d, written)
    ensures Sliced(Rotate(d, f), written)
  {
    var c :| SlicedAt(d, written, c);
    var n := |written|;
    var c1 := if f.removeRotating then c else c.(rotatingFrom := c.rotatingTo);
    if f.renameLive {
      assert SlicedAt(Rotate(d, f), written, c1);
    } else if f.renameRotating {
      var from := if f.removePrior then c.priorFrom else c.priorTo;
      assert SlicedAt(Rotate(d, f), written, Cut(from, c.priorTo, c.liveFrom, n, n));
    } else {
      assert SlicedAt(Rotate(d, f), written, Cut(c.liveFrom, n, n, n, n));
    }
  }

  lemma {:induction false} PreparingKeepsSlices(d: Disk, written: seq<Line>, env: Env)
    requires Sliced(d, written)
    ensures Sliced(Prepared(d, env), written)
  {
    var d1 := if Oversized(d, env) then Rotate(d, env.first) else d;
    if Oversized(d, env) { RotateKeepsSlices(d, written, env.first); }
    if TooOldOrMany(d1, env) { RotateKeepsSlices(d1, written, env.second); }
  }

  lemma {:induction false} WritingKeepsSlices(d: Disk, written: seq<Line>, line: Line)
    requires Sliced(d, written)
    ensures Sliced(d.(live := Some(Lines(d.live) + [line])), written + [line])
  {
    var c :| SlicedAt(d, written, c);
    var written' := written + [line];
    assert written'[c.priorFrom..c.priorTo] == written[c.priorFrom..c.priorTo];
    assert written'[c.rotatingFrom..c.rotatingTo] == written[c.rotatingFrom..c.rotatingTo];
    assert written'[c.liveFrom..] == written[c.liveFrom..] + [line];
    assert SlicedAt(d.(live := Some(Lines(d.live) + [line])), written', c);
  }

  lemma {:induction false} AppendKeepsSlices(d: Disk, written: seq<Line>, line: Line, env: Env)
    requires Sliced(d, written)
    ensures Sliced(AfterAppend(d, line, env), AfterWrite(written, line, env))
  {
    PreparingKeepsSlices(d, written, env);
    WritingKeepsSlices(Prepared(d, env), written, line);
  }

  // The documentation promises the prior .1 whenever a step fails.  It is lost, with
  // nothing in its place, exactly when it is removed and the last rename then fails.
  lemma {:induction false} PriorHistoryIsLost(d: Disk, f: Faults)
    requires d.prior.Some? && d.live.Some?
    ensures Rotate(d, f).prior == None <==> !f.renameLive && !f.removePrior && f.renameRotating
    ensures f.renameLive ==> Rotate(d, f).prior == d.prior && Rotate(d, f).live == d.live
    ensures !f.renameLive && !f.renameRotating ==> Rotate(d, f).prior == d.live && Rotate(d, f).rotating == None
    ensures !f.renameLive && f.renameRotating ==> Rotate(d, f).rotating == d.live
  {
  }

  // ---- Age ----

  // A record the logger stamped at instant t.
  ghost predicate StampedAt(line: Line, t: nat) {
    && line.text != "" && 0 < t <= Timestamps.MAX_TIME
    && exists millis: nat :: millis < 1000 && line.stamp == Timestamps.IsoMillis(t, millis)
  }

  lemma AgeOfRecord(line: Line, t: nat, now: int)
    requires StampedAt(line, t)
    ensures Aged(line, now) <==> t + MAX_AGE_SECONDS < now
  {
    hide Timestamps.IsoMillis, Timestamps.CapturedAt;
    var millis: nat :| millis < 1000 && line.stamp == Timestamps.IsoMillis(t, millis);
    Timestamps.ParsingUndoesFormatting(t, millis);
  }

  // The deep check rotates exactly when the first record is more than fourteen days old or there are too
  // many records.
  lemma {:induction false} AgeIsOfTheFirstRecord(d: Disk, env: Env, t: nat)
    requires env.due && env.readable && d.live.Some? && d.live.value != [] && StampedAt(d.live.value[0], t)
    ensures TooOldOrMany(d, env) <==> t + MAX_AGE_SECONDS < env.now || MAX_ENTRIES < |d.live.value|
  {
    AgeOfRecord(d.live.value[0], t, env.now);
    hide Aged;
  }

  // The live file ends what was written, has at most as many records as allowed, and none too old.
  ghost predicate Young(live: seq<Line>, written: seq<Line>, times: seq<nat>, now: int)
    requires |times| == |written|
  {
    && |live| <= MAX_ENTRIES && |live| <= |written| && live == written[|written| - |live|..]
    && forall i :: |written| - |live| <= i < |written| ==> now <= times[i] + MAX_AGE_SECONDS
  }

  ghost predicate InOrder(written: seq<Line>, times: seq<nat>) {
    && |times| == |written|
    && (forall i :: 0 <= i < |written| ==> StampedAt(written[i], times[i]))
    && (forall i, j :: 0 <= i < j < |times| ==> times[i] <= times[j])
  }

  lemma LiveIsASuffix(d: Disk, written: seq<Line>)
    requires Sliced(d, written)
    ensures |Lines(d.live)| <= |written| && Lines(d.live) == written[|written| - |Lines(d.live)|..]
  {
    var c :| SlicedAt(d, written, c);
    assert |written[c.liveFrom..]| == |written| - c.liveFrom;
  }

  lemma {:induction false} UncheckedIsYoung(d: Disk, written: seq<Line>, env: Env, times: seq<nat>)
    requires Sliced(d, written) && InOrder(written, times) && env.due && env.readable && !TooOldOrMany(d, env)
    ensures Young(Lines(d.live), written, times, env.now)
  {
    hide Sliced, Aged, StampedAt, TooOldOrMany;
    LiveIsASuffix(d, written);
    if Lines(d.live) != [] {
      var n := |written| - |d.live.value|;
      assert d.live.value[0] == written[n];
      AgeIsOfTheFirstRecord(d, env, times[n]);
      forall i | n <= i < |written| ensures env.now <= times[i] + MAX_AGE_SECONDS {
        assert times[n] <= times[i];
      }
    }
  }

  // While records are stamped in order, the first is the oldest: after a check that is due and can move the
  // live file, no record in it is more than fourteen days old, and there are not too many.
  lemma {:induction false} DueCheckBoundsAge(d: Disk, written: seq<Line>, env: Env, times: seq<nat>)
    requires Sliced(d, written) && InOrder(written, times) && env.due && env.readable && !env.second.renameLive
    ensures Young(Lines(Prepared(d, env).live), written, times, env.now)
  {
    var d1 := if Oversized(d, env) then Rotate(d, env.first) else d;
    if Oversized(d, env) { RotateKeepsSlices(d, written, env.first); }
    hide Rotate, Oversized, TooOldOrMany, Sliced, InOrder, Young;
    if TooOldOrMany(d1, env) {
      RotatingEmpties(d1, env.second, written, times, env.now);
    } else {
      UncheckedIsYoung(d1, written, env, times);
    }
  }

  lemma RotatingEmpties(d: Disk, f: Faults, written: seq<Line>, times: seq<nat>, now: int)
    requires !f.renameLive && |times| == |written|
    ensures Young(Lines(Rotate(d, f).live), written, times, now)
  {
  }

  // ---- What an append does ----

  // Below the threshold, and with no deep check that finds it old or long, the file takes the line and the
  // other files stay.
  lemma {:induction false} SmallFilesStay(d: Disk, line: Line, env: Env)
    requires env.directories && env.write && Bytes(Lines(d.live)) < ROTATION_BYTES
    requires env.due && env.readable && Lines(d.live) != [] ==>
      |d.live.value| <= MAX_ENTRIES
      && exists t: nat :: StampedAt(d.live.value[0], t) && env.now <= t + MAX_AGE_SECONDS
    ensures AfterAppend(d, line, env) == d.(live := Some(Lines(d.live) + [line]))
  {
    if env.due && env.readable && Lines(d.live) != [] {
      var t: nat :| StampedAt(d.live.value[0], t) && env.now <= t + MAX_AGE_SECONDS;
      AgeIsOfTheFirstRecord(d, env, t);
    }
    hide Aged, StampedAt, Bytes;
  }

  // At the threshold, when all calls succeed, the file becomes .1 and the line starts a new one.
  lemma {:induction false} FullFilesRotate(d: Disk, line: Line, env: Env)
    requires env.directories && env.write && env.stat && env.first == NO_FAULTS
    requires d.live.Some? && ROTATION_BYTES <= Bytes(d.live.value)
    ensures AfterAppend(d, line, env) == Disk(d.live, None, Some([line]))
  {
    hide Aged, Bytes;
    assert Prepared(d, env) == Disk(d.live, None, None);
    assert Lines(None) + [line] == [line];
  }

  // ---- Runs ----

  datatype Write = Write(line: Line, env: Env)

  function RunDisk(writes: seq<Write>): Disk {
    if writes == [] then Disk(None, None, None)
    else
      var last := writes[|writes| - 1];
      AfterAppend(RunDisk(writes[..|writes| - 1]), last.line, last.env)
  }

  function RunWritten(writes: seq<Write>): seq<Line> {
    if writes == [] then []
    else
      var last := writes[|writes| - 1];
      AfterWrite(RunWritten(writes[..|writes| - 1]), last.line, last.env)
  }

  lemma {:induction false} EveryRunIsSliced(writes: seq<Write>)
    ensures Sliced(RunDisk(writes), RunWritten(writes))
  {
    if writes == [] {
      assert SlicedAt(RunDisk(writes), [], Cut(0, 0, 0, 0, 0));
    } else {
      var before, last := writes[..|writes| - 1], writes[|writes| - 1];
      EveryRunIsSliced(before);
      AppendKeepsSlices(RunDisk(before), RunWritten(before), last.line, last.env);
    }
  }

  predicate FailureFree(env: Env) {
    env.directories && env.stat && env.first == NO_FAULTS && env.readable && env.second == NO_FAULTS && env.write
  }

  // .rotating is gone, and .1 followed by the live file is a contiguous suffix of what
  // was written, each below the threshold plus one record.
  predicate Tidy(d: Disk, written: seq<Line>, longest: nat) {
    && d.rotating == None
    && |Lines(d.prior)| + |Lines(d.live)| <= |written|
    && Lines(d.prior) + Lines(d.live) == written[|written| - |Lines(d.prior)| - |Lines(d.live)|..]
    && Bytes(Lines(d.prior)) < ROTATION_BYTES + longest
    && Bytes(Lines(d.live)) < ROTATION_BYTES + longest
  }

  lemma {:induction false} AppendKeepsTidy(d: Disk, written: seq<Line>, line: Line, env: Env, longest: nat)
    requires Tidy(d, written, longest) && FailureFree(env) && |line.text| + 1 <= longest
    ensures Tidy(AfterAppend(d, line, env), AfterWrite(written, line, env), longest)
  {
    var p := Prepared(d, env);
    assert Bytes(Lines(p.live)) < ROTATION_BYTES;
    assert (Lines(p.live) + [line])[..|Lines(p.live)|] == Lines(p.live);
    var n := |written| - |Lines(p.prior)| - |Lines(p.live)|;
    assert Lines(p.prior) + Lines(p.live) == written[n..];
    assert Lines(p.prior) + (Lines(p.live) + [line]) == (written + [line])[n..];
  }

  lemma {:induction false} FailureFreeRunsAreTidy(writes: seq<Write>, longest: nat)
    requires forall i :: 0 <= i < |writes| ==> FailureFree(writes[i].env) && |writes[i].line.text| + 1 <= longest
    ensures Tidy(RunDisk(writes), RunWritten(writes), longest)
    ensures var d := RunDisk(writes); Bytes(Lines(d.prior)) + Bytes(Lines(d.live)) < 2 * (ROTATION_BYTES + longest)
  {
    if writes != [] {
      var before, last := writes[..|writes| - 1], writes[|writes| - 1];
      FailureFreeRunsAreTidy(before, longest);
      AppendKeepsTidy(RunDisk(before), RunWritten(before), last.line, last.env, longest);
    }
  }
}
