/** UTC instants in seconds since 1970, their calendar fields in the Gregorian calendar, and
    the two fixed-width texts the sources write: with milliseconds and without. */
module Timestamps {
  import opened Text

  // The last instant the run-time library converts, early in the year 3001.
  const MAX_TIME: nat := 32536799999
  const SECONDS_A_DAY: nat := 86400

  // ---- Calendar ----

  predicate IsLeap(year: int) {
    year % 4 == 0 && (year % 100 != 0 || year % 400 == 0)
  }

  function YearDays(year: int): nat {
    if IsLeap(year) then 366 else 365
  }

  function MonthDays(year: int, month: int): (n: nat)
    ensures 28 <= n <= 31
  {
    if month == 2 then if IsLeap(year) then 29 else 28
    else if month == 4 || month == 6 || month == 9 || month == 11 then 30
    else 31
  }

  // Days from 1970-01-01 to the first of January of the year.
  function DaysBeforeYear(year: int): int
    decreases if year < 1970 then 1970 - year else year - 1970
  {
    if year == 1970 then 0
    else if year < 1970 then DaysBeforeYear(year + 1) - YearDays(year)
    else DaysBeforeYear(year - 1) + YearDays(year - 1)
  }

  function DaysBeforeMonth(year: int, month: int): nat
    requires 1 <= month <= 13
  {
    if month == 1 then 0 else DaysBeforeMonth(year, month - 1) + MonthDays(year, month - 1)
  }

  lemma MonthsAddUp(year: int)
    ensures DaysBeforeMonth(year, 13) == YearDays(year)
  {
    assert DaysBeforeMonth(year, 2) == 31;
    assert DaysBeforeMonth(year, 5) == DaysBeforeMonth(year, 3) + 61;
    assert DaysBeforeMonth(year, 7) == DaysBeforeMonth(year, 5) + 61;
    assert DaysBeforeMonth(year, 9) == DaysBeforeMonth(year, 7) + 62;
    assert DaysBeforeMonth(year, 11) == DaysBeforeMonth(year, 9) + 61;
  }

  lemma YearsAddUp(year: int)
    ensures DaysBeforeYear(year + 1) == DaysBeforeYear(year) + YearDays(year)
  {
  }

  // Leap years from year 1 to the given one.
  function Leaps(year: int): int {
    year / 4 - year / 100 + year / 400
  }

  lemma Fours(year: int)
    ensures year / 4 == (year - 1) / 4 + if year % 4 == 0 then 1 else 0
  {
  }

  lemma Hundreds(year: int)
    ensures year / 100 == (year - 1) / 100 + if year % 100 == 0 then 1 else 0
    ensures year % 100 == 0 ==> year % 4 == 0
  {
  }

  lemma FourHundreds(year: int)
    ensures year / 400 == (year - 1) / 400 + if year % 400 == 0 then 1 else 0
    ensures year % 400 == 0 ==> year % 100 == 0
  {
  }

  lemma LeapsAddUp(year: int)
    ensures Leaps(year) == Leaps(year - 1) + if IsLeap(year) then 1 else 0
  {
    Fours(year);
    Hundreds(year);
    FourHundreds(year);
  }

  lemma LeapsBefore1970()
    ensures Leaps(1969) == 477
  {
  }

  // The closed form: 365 days a year and one for each leap year passed since 1970.
  lemma {:induction false} DaysByLeapYears(year: int)
    requires 1970 <= year
    ensures DaysBeforeYear(year) == 365 * (year - 1970) + Leaps(year - 1) - 477
  {
    hide Leaps;
    LeapsAddUp(year - 1);
    LeapsBefore1970();
    if 1970 < year { DaysByLeapYears(year - 1); }
  }

  lemma {:induction false} YearsAreOrdered(early: int, late: int)
    requires early < late
    ensures DaysBeforeYear(early) + YearDays(early) <= DaysBeforeYear(late)
    decreases late - early
  {
    YearsAddUp(late - 1);
    if early < late - 1 { YearsAreOrdered(early, late - 1); }
  }

  lemma {:induction false} MonthsAreOrdered(year: int, early: int, late: int)
    requires 1 <= early < late <= 13
    ensures DaysBeforeMonth(year, early) + MonthDays(year, early) <= DaysBeforeMonth(year, late)
    decreases late - early
  {
    if early < late - 1 { MonthsAreOrdered(year, early, late - 1); }
  }

  datatype Fields = Fields(year: int, month: int, day: int, hour: int, minute: int, second: int)

  predicate InCalendar(f: Fields) {
    && 0 <= f.year <= 9999 && 1 <= f.month <= 12 && 1 <= f.day <= MonthDays(f.year, f.month)
    && 0 <= f.hour < 24 && 0 <= f.minute < 60 && 0 <= f.second < 60
  }

  // The year, from the given one on, that holds the day.
  function YearFrom(day: int, year: int): int
    decreases day - DaysBeforeYear(year)
  {
    YearsAddUp(year);
    if day < DaysBeforeYear(year + 1) then year else YearFrom(day, year + 1)
  }

  lemma {:induction false} YearHoldsDay(day: int, year: int)
    requires DaysBeforeYear(year) <= day
    ensures var y := YearFrom(day, year); year <= y && DaysBeforeYear(y) <= day < DaysBeforeYear(y) + YearDays(y)
    decreases day - DaysBeforeYear(year)
  {
    YearsAddUp(year);
    if DaysBeforeYear(year + 1) <= day { YearHoldsDay(day, year + 1); }
  }

  function MonthFrom(year: int, day: int, month: int): (m: int)
    requires 1 <= month <= 12
    ensures 1 <= m <= 12
    decreases 12 - month
  {
    if month == 12 || day < DaysBeforeMonth(year, month + 1) then month else MonthFrom(year, day, month + 1)
  }

  lemma {:induction false} MonthHoldsDay(year: int, day: int, month: int)
    requires 1 <= month <= 12 && DaysBeforeMonth(year, month) <= day < YearDays(year)
    ensures var m := MonthFrom(year, day, month);
      month <= m <= 12 && DaysBeforeMonth(year, m) <= day < DaysBeforeMonth(year, m) + MonthDays(year, m)
    decreases 12 - month
  {
    if month == 12 {
      MonthsAddUp(year);
    } else if DaysBeforeMonth(year, month + 1) <= day {
      MonthHoldsDay(year, day, month + 1);
    }
  }

  // gmtime_s.
  function FieldsOf(t: nat): Fields {
    var day, rest := t / SECONDS_A_DAY, t % SECONDS_A_DAY;
    var year := YearFrom(day, 1970);
    var month := MonthFrom(year, day - DaysBeforeYear(year), 1);
    Fields(year, month, day - DaysBeforeYear(year) - DaysBeforeMonth(year, month) + 1,
           rest / 3600, rest / 60 % 60, rest % 60)
  }

  // _mkgmtime: fields out of range carry over; an instant it cannot represent gives -1.
  function SecondsOf(f: Fields): int {
    var year, month := f.year + (f.month - 1) / 12, (f.month - 1) % 12 + 1;
    var days := DaysBeforeYear(year) + DaysBeforeMonth(year, month) + f.day - 1;
    ((days * 24 + f.hour) * 60 + f.minute) * 60 + f.second
  }

  function InstantOf(f: Fields): int {
    if 0 <= SecondsOf(f) <= MAX_TIME then SecondsOf(f) else -1
  }

  lemma {:induction false} YearIsInRange(day: int, year: int)
    requires DaysBeforeYear(year) <= day <= MAX_TIME / SECONDS_A_DAY
    ensures year <= 3001
  {
    DaysByLeapYears(3001);
    assert Leaps(3000) == 727;
    if 3001 < year { YearsAreOrdered(3001, year); }
  }

  lemma {:induction false} FieldsAreInCalendar(t: nat)
    requires t <= MAX_TIME
    ensures InCalendar(FieldsOf(t)) && 1970 <= FieldsOf(t).year <= 3001
  {
    hide YearFrom, MonthFrom, DaysBeforeMonth, YearDays, MonthDays;
    var day := t / SECONDS_A_DAY;
    YearHoldsDay(day, 1970);
    var year := YearFrom(day, 1970);
    FirstMonth(year);
    MonthHoldsDay(year, day - DaysBeforeYear(year), 1);
    YearIsInRange(day, year);
  }

  lemma FirstMonth(year: int)
    ensures DaysBeforeMonth(year, 1) == 0
  {
  }

  lemma {:induction false} InstantOfUndoesFieldsOf(t: nat)
    requires t <= MAX_TIME
    ensures InstantOf(FieldsOf(t)) == t == SecondsOf(FieldsOf(t))
  {
    FieldsAreInCalendar(t);
    var f := FieldsOf(t);
    assert (f.month - 1) / 12 == 0 && (f.month - 1) % 12 == f.month - 1;
    var rest := t % SECONDS_A_DAY;
    assert (f.hour * 60 + f.minute) * 60 + f.second == rest;
  }

  predicate Before(f: Fields, g: Fields) {
    f.year < g.year || (f.year == g.year && (f.month < g.month || (f.month == g.month
      && (f.day < g.day || (f.day == g.day && (f.hour < g.hour || (f.hour == g.hour
      && (f.minute < g.minute || (f.minute == g.minute && f.second < g.second)))))))))
  }

  lemma {:induction false} DaysAreOrdered(f: Fields, g: Fields)
    requires InCalendar(f) && InCalendar(g)
    requires f.year < g.year || (f.year == g.year && f.month < g.month)
    ensures DaysBeforeYear(f.year) + DaysBeforeMonth(f.year, f.month) + f.day
         <= DaysBeforeYear(g.year) + DaysBeforeMonth(g.year, g.month)
  {
    if f.year < g.year {
      YearsAreOrdered(f.year, g.year);
      MonthsAddUp(f.year);
      MonthsAreOrdered(f.year, f.month, 13);
    } else {
      MonthsAreOrdered(f.year, f.month, g.month);
    }
  }

  function DayNumber(f: Fields): int
    requires 1 <= f.month <= 12
  {
    DaysBeforeYear(f.year) + DaysBeforeMonth(f.year, f.month) + f.day - 1
  }

  lemma DaysOfCalendar(f: Fields)
    requires InCalendar(f)
    ensures SecondsOf(f) == ((DayNumber(f) * 24 + f.hour) * 60 + f.minute) * 60 + f.second
  {
    assert (f.month - 1) / 12 == 0 && (f.month - 1) % 12 == f.month - 1;
  }

  lemma TimeOrder(a: int, f: Fields, b: int, g: Fields)
    requires InCalendar(f) && InCalendar(g)
    requires a < b || (a == b && (f.hour < g.hour || (f.hour == g.hour
               && (f.minute < g.minute || (f.minute == g.minute && f.second < g.second)))))
    ensures ((a * 24 + f.hour) * 60 + f.minute) * 60 + f.second < ((b * 24 + g.hour) * 60 + g.minute) * 60 + g.second
  {
  }

  lemma {:induction false} SecondsAreOrdered(f: Fields, g: Fields)
    requires InCalendar(f) && InCalendar(g) && Before(f, g)
    ensures SecondsOf(f) < SecondsOf(g)
  {
    DaysOfCalendar(f);
    DaysOfCalendar(g);
    if f.year != g.year || f.month != g.month { DaysAreOrdered(f, g); }
    TimeOrder(DayNumber(f), f, DayNumber(g), g);
  }

  // ---- Text ----

  // setw with setfill('0').
  function Pad(width: nat, n: nat): (s: string)
    ensures |s| == width
  {
    if width == 0 then "" else Pad(width - 1, n / 10) + [DIGITS[n % 10]]
  }

  // The nineteen characters of a stamp and what follows them.
  function Stamp(f: Fields, rest: string): string
    requires InCalendar(f)
  {
    Pad(4, f.year) + ("-" + (Pad(2, f.month) + ("-" + (Pad(2, f.day) + ("T" + TimeOfDay(f, rest))))))
  }

  function TimeOfDay(f: Fields, rest: string): string
    requires InCalendar(f)
  {
    Pad(2, f.hour) + (":" + (Pad(2, f.minute) + (":" + (Pad(2, f.second) + rest))))
  }

  // "%Y-%m-%dT%H:%M:%SZ".
  function Iso(t: nat): string
    requires t <= MAX_TIME
  {
    FieldsAreInCalendar(t);
    Stamp(FieldsOf(t), "Z")
  }

  // The same with three digits of milliseconds.
  function IsoMillis(t: nat, millis: nat): string
    requires t <= MAX_TIME && millis < 1000
  {
    FieldsAreInCalendar(t);
    Stamp(FieldsOf(t), "." + (Pad(3, millis) + "Z"))
  }

  lemma {:induction false} LexSplits(a: string, x: string, b: string, y: string)
    requires |a| == |b|
    ensures LexLess(a + x, b + y) <==> LexLess(a, b) || (a == b && LexLess(x, y))
  {
    if a == "" {
      assert a + x == x && b + y == y;
    } else {
      assert (a + x)[1..] == a[1..] + x && (b + y)[1..] == b[1..] + y;
      LexSplits(a[1..], x, b[1..], y);
      assert a == [a[0]] + a[1..] && b == [b[0]] + b[1..];
    }
  }

  lemma LexIsIrreflexive(a: string)
    ensures !LexLess(a, a)
  {
    if a != "" { LexIsIrreflexive(a[1..]); }
  }

  lemma {:induction false} PadIsOrdered(width: nat, m: nat, n: nat)
    requires m < Pow10(width) && n < Pow10(width)
    ensures LexLess(Pad(width, m), Pad(width, n)) <==> m < n
    ensures Pad(width, m) == Pad(width, n) <==> m == n
  {
    if width != 0 {
      PadIsOrdered(width - 1, m / 10, n / 10);
      LexSplits(Pad(width - 1, m / 10), [DIGITS[m % 10]], Pad(width - 1, n / 10), [DIGITS[n % 10]]);
      var u, v := Pad(width, m), Pad(width, n);
      assert u[..width - 1] == Pad(width - 1, m / 10) && v[..width - 1] == Pad(width - 1, n / 10);
      assert u[width - 1] == DIGITS[m % 10] && v[width - 1] == DIGITS[n % 10];
    }
  }

  // One more fixed-width field and its separator in front of two texts.
  lemma {:induction false} FieldIsOrdered(width: nat, m: nat, n: nat, sep: string, x: string, y: string)
    requires m < Pow10(width) && n < Pow10(width)
    ensures LexLess(Pad(width, m) + (sep + x), Pad(width, n) + (sep + y)) <==> m < n || (m == n && LexLess(x, y))
  {
    PadIsOrdered(width, m, n);
    LexSplits(Pad(width, m), sep + x, Pad(width, n), sep + y);
    LexSplits(sep, x, sep, y);
    LexIsIrreflexive(sep);
  }

  lemma Powers()
    ensures Pow10(2) == 100 && Pow10(3) == 1000 && Pow10(4) == 10000
  {
    assert Pow10(2) == 10 * (10 * Pow10(0));
    assert Pow10(4) == 10 * (10 * Pow10(2));
  }

  predicate TimeBefore(f: Fields, g: Fields) {
    f.hour < g.hour || (f.hour == g.hour && (f.minute < g.minute || (f.minute == g.minute && f.second < g.second)))
  }

  predicate SameTime(f: Fields, g: Fields) {
    f.hour == g.hour && f.minute == g.minute && f.second == g.second
  }

  lemma {:induction false} TimeOfDayIsOrdered(f: Fields, x: string, g: Fields, y: string)
    requires InCalendar(f) && InCalendar(g)
    ensures LexLess(TimeOfDay(f, x), TimeOfDay(g, y)) <==> TimeBefore(f, g) || (SameTime(f, g) && LexLess(x, y))
  {
    hide LexLess, Pad, Pow10;
    Powers();
    PadIsOrdered(2, f.second, g.second);
    var x1, y1 := Pad(2, f.second) + x, Pad(2, g.second) + y;
    LexSplits(Pad(2, f.second), x, Pad(2, g.second), y);
    FieldIsOrdered(2, f.minute, g.minute, ":", x1, y1);
    FieldIsOrdered(2, f.hour, g.hour, ":", Pad(2, f.minute) + (":" + x1), Pad(2, g.minute) + (":" + y1));
  }

  // Stamps are ordered by their fields, and then by what follows.
  lemma {:induction false} StampsAreOrdered(f: Fields, x: string, g: Fields, y: string)
    requires InCalendar(f) && InCalendar(g)
    ensures LexLess(Stamp(f, x), Stamp(g, y)) <==> Before(f, g) || (f == g && LexLess(x, y))
  {
    hide LexLess, Pad, Pow10, TimeOfDay;
    Powers();
    TimeOfDayIsOrdered(f, x, g, y);
    var x1, y1 := Pad(2, f.day) + ("T" + TimeOfDay(f, x)), Pad(2, g.day) + ("T" + TimeOfDay(g, y));
    FieldIsOrdered(2, f.day, g.day, "T", TimeOfDay(f, x), TimeOfDay(g, y));
    FieldIsOrdered(2, f.month, g.month, "-", x1, y1);
    FieldIsOrdered(4, f.year, g.year, "-", Pad(2, f.month) + ("-" + x1), Pad(2, g.month) + ("-" + y1));
  }

  lemma {:induction false} FieldOrderIsTimeOrder(s: nat, t: nat)
    requires s <= MAX_TIME && t <= MAX_TIME
    ensures Before(FieldsOf(s), FieldsOf(t)) <==> s < t
    ensures FieldsOf(s) == FieldsOf(t) <==> s == t
  {
    var f, g := FieldsOf(s), FieldsOf(t);
    hide *;
    FieldsAreInCalendar(s);
    FieldsAreInCalendar(t);
    InstantOfUndoesFieldsOf(s);
    InstantOfUndoesFieldsOf(t);
    if Before(f, g) { SecondsAreOrdered(f, g); }
    if Before(g, f) { SecondsAreOrdered(g, f); }
    FieldsAreTotal(f, g);
  }

  lemma FieldsAreTotal(f: Fields, g: Fields)
    ensures Before(f, g) || Before(g, f) || f == g
  {
  }

  // Chronological order is text order, and distinct instants have distinct texts.
  lemma {:induction false} StampOrderIsTimeOrder(s: nat, x: string, t: nat, y: string)
    requires s <= MAX_TIME && t <= MAX_TIME
    ensures InCalendar(FieldsOf(s)) && InCalendar(FieldsOf(t))
    ensures LexLess(Stamp(FieldsOf(s), x), Stamp(FieldsOf(t), y)) <==> s < t || (s == t && LexLess(x, y))
  {
    hide *;
    FieldsAreInCalendar(s);
    FieldsAreInCalendar(t);
    FieldOrderIsTimeOrder(s, t);
    StampsAreOrdered(FieldsOf(s), x, FieldsOf(t), y);
  }

  lemma {:induction false} IsoOrderIsTimeOrder(s: nat, t: nat)
    requires s <= MAX_TIME && t <= MAX_TIME
    ensures LexLess(Iso(s), Iso(t)) <==> s < t
    ensures Iso(s) == Iso(t) <==> s == t
  {
    hide LexLess, Stamp, FieldsOf;
    StampOrderIsTimeOrder(s, "Z", t, "Z");
    StampOrderIsTimeOrder(t, "Z", s, "Z");
    LexIsIrreflexive("Z");
    LexIsIrreflexive(Iso(s));
  }

  lemma {:induction false} IsoMillisOrderIsTimeOrder(s: nat, m: nat, t: nat, n: nat)
    requires s <= MAX_TIME && t <= MAX_TIME && m < 1000 && n < 1000
    ensures LexLess(IsoMillis(s, m), IsoMillis(t, n)) <==> s * 1000 + m < t * 1000 + n
  {
    hide LexLess, Stamp, FieldsOf, Pad, Pow10;
    Powers();
    var x, y := Pad(3, m) + "Z", Pad(3, n) + "Z";
    StampOrderIsTimeOrder(s, "." + x, t, "." + y);
    LexSplits(".", x, ".", y);
    LexIsIrreflexive(".");
    PadIsOrdered(3, m, n);
    LexSplits(Pad(3, m), "Z", Pad(3, n), "Z");
    LexIsIrreflexive("Z");
  }

  // The two formats do not compare: within one second the longer text sorts first.
  lemma {:induction false} FormatsDoNotCompare(t: nat, millis: nat)
    requires t <= MAX_TIME && millis < 1000
    ensures LexLess(IsoMillis(t, millis), Iso(t))
  {
    hide Stamp, FieldsOf, Pad;
    StampOrderIsTimeOrder(t, "." + (Pad(3, millis) + "Z"), t, "Z");
  }

  // ---- Parsing ----

  lemma DigitValue(d: nat)
    requires d < 10
    ensures '0' <= DIGITS[d] <= '9' && DIGITS[d] as int - '0' as int == d
  {
  }

  lemma {:induction false} PadReadsBack(s: string, from: nat, width: nat, n: nat)
    requires n < Pow10(width) && from + width <= |s| && s[from..from + width] == Pad(width, n)
    ensures DigitsAt(s, from, width) && NumberAt(s, from, width) == n
  {
    if width != 0 {
      var end := from + width - 1;
      assert s[from..end] == s[from..from + width][..width - 1] == Pad(width - 1, n / 10);
      assert s[end] == s[from..from + width][width - 1] == DIGITS[n % 10];
      PadReadsBack(s, from, width - 1, n / 10);
      DigitValue(n % 10);
    }
  }

  // The fields of a text that begins with a stamp's digits and separators.
  function FieldsIn(s: string): Fields
    requires 19 <= |s|
  {
    Fields(NumberAt(s, 0, 4), NumberAt(s, 5, 2), NumberAt(s, 8, 2),
           NumberAt(s, 11, 2), NumberAt(s, 14, 2), NumberAt(s, 17, 2))
  }

  predicate LooksLikeStamp(s: string) {
    && 19 <= |s|
    && DigitsAt(s, 0, 4) && s[4] == '-' && DigitsAt(s, 5, 2) && s[7] == '-' && DigitsAt(s, 8, 2) && s[10] == 'T'
    && DigitsAt(s, 11, 2) && s[13] == ':' && DigitsAt(s, 14, 2) && s[16] == ':' && DigitsAt(s, 17, 2)
  }

  // The instant at the front of a text, or 0 for "no signal".
  function CapturedAt(s: string): nat {
    if LooksLikeStamp(s) && 0 <= InstantOf(FieldsIn(s)) then InstantOf(FieldsIn(s)) else 0
  }

  method ReadDigits(value: string, position: nat, count: nat) returns (ok: bool, out: int)
    requires position + count <= |value|
    ensures ok <==> DigitsAt(value, position, count)
    ensures ok ==> out == NumberAt(value, position, count)
  {
    out := 0;
    for i := 0 to count
      invariant DigitsAt(value, position, i)
      invariant out == NumberAt(value, position, i)
    {
      var ch := value[position + i];
      if ch < '0' || '9' < ch { return false, out; }
      out := out * 10 + (ch as int - '0' as int);
    }
    ok := true;
  }

  method ParseCapturedAtUtcOrZero(value: string) returns (t: nat)
    ensures t == CapturedAt(value)
  {
    if |value| < 19 { return 0; }
    var year, month, day, hour, minute, second, ok := 0, 0, 0, 0, 0, 0, false;
    ok, year := ReadDigits(value, 0, 4);
    if !ok || value[4] != '-' { return 0; }
    ok, month := ReadDigits(value, 5, 2);
    if !ok || value[7] != '-' { return 0; }
    ok, day := ReadDigits(value, 8, 2);
    if !ok || value[10] != 'T' { return 0; }
    ok, hour := ReadDigits(value, 11, 2);
    if !ok || value[13] != ':' { return 0; }
    ok, minute := ReadDigits(value, 14, 2);
    if !ok || value[16] != ':' { return 0; }
    ok, second := ReadDigits(value, 17, 2);
    if !ok { return 0; }
    var parsed := InstantOf(Fields(year, month, day, hour, minute, second));
    t := if parsed < 0 then 0 else parsed;
  }

  // A field of a text, with the separator and the rest after it.
  lemma FieldAt(s: string, from: nat, x: string, sep: char, tail: string)
    requires from <= |s| && s[from..] == x + ([sep] + tail)
    ensures from + |x| < |s| && s[from..from + |x|] == x && s[from + |x|] == sep && s[from + |x| + 1..] == tail
  {
    var t := s[from..];
    assert t[..|x|] == x && t[|x|] == sep && t[|x| + 1..] == tail;
    assert s[from..from + |x|] == t[..|x|] && s[from + |x| + 1..] == t[|x| + 1..];
  }

  lemma {:induction false} TimeReadsBack(s: string, f: Fields, rest: string)
    requires InCalendar(f) && 11 <= |s| && s[11..] == TimeOfDay(f, rest)
    ensures 19 <= |s| && s[13] == s[16] == ':'
    ensures s[11..13] == Pad(2, f.hour) && s[14..16] == Pad(2, f.minute) && s[17..19] == Pad(2, f.second)
  {
    hide Pad;
    var x := Pad(2, f.second) + rest;
    FieldAt(s, 11, Pad(2, f.hour), ':', Pad(2, f.minute) + (":" + x));
    FieldAt(s, 14, Pad(2, f.minute), ':', x);
    assert s[17..][..2] == x[..2] == Pad(2, f.second);
    assert s[17..19] == s[17..][..2];
  }

  lemma {:induction false} DateReadsBack(s: string, f: Fields, rest: string)
    requires InCalendar(f) && s == Stamp(f, rest)
    ensures 11 <= |s| && s[4] == s[7] == '-' && s[10] == 'T' && s[11..] == TimeOfDay(f, rest)
    ensures s[0..4] == Pad(4, f.year) && s[5..7] == Pad(2, f.month) && s[8..10] == Pad(2, f.day)
  {
    hide Pad, TimeOfDay;
    var t := Pad(2, f.day) + ("T" + TimeOfDay(f, rest));
    assert s[0..] == s;
    FieldAt(s, 0, Pad(4, f.year), '-', Pad(2, f.month) + ("-" + t));
    FieldAt(s, 5, Pad(2, f.month), '-', t);
    FieldAt(s, 8, Pad(2, f.day), 'T', TimeOfDay(f, rest));
  }

  lemma {:induction false} StampReadsBack(s: string, f: Fields, rest: string)
    requires InCalendar(f) && s == Stamp(f, rest)
    ensures LooksLikeStamp(s) && FieldsIn(s) == f && s[19..] == rest
  {
    hide Pad, TimeOfDay, Stamp, Pow10, NumberAt, DigitsAt;
    Powers();
    DateReadsBack(s, f, rest);
    TimeReadsBack(s, f, rest);
    PadReadsBack(s, 0, 4, f.year);
    PadReadsBack(s, 5, 2, f.month);
    PadReadsBack(s, 8, 2, f.day);
    PadReadsBack(s, 11, 2, f.hour);
    PadReadsBack(s, 14, 2, f.minute);
    PadReadsBack(s, 17, 2, f.second);
    RestReadsBack(s, f, rest);
  }

  lemma RestReadsBack(s: string, f: Fields, rest: string)
    requires InCalendar(f) && 19 <= |s| && s[11..] == TimeOfDay(f, rest)
    ensures s[19..] == rest
  {
    assert s[19..] == s[11..][8..];
    assert TimeOfDay(f, rest)[8..] == rest;
  }

  // Both formats parse back to the instant, at second precision.
  lemma {:induction false} ParsingUndoesFormatting(t: nat, millis: nat)
    requires t <= MAX_TIME && millis < 1000
    ensures CapturedAt(Iso(t)) == t && CapturedAt(IsoMillis(t, millis)) == t
  {
    hide FieldsOf, Stamp, Pad, SecondsOf, NumberAt, DigitsAt;
    FieldsAreInCalendar(t);
    InstantOfUndoesFieldsOf(t);
    StampReadsBack(Iso(t), FieldsOf(t), "Z");
    StampReadsBack(IsoMillis(t, millis), FieldsOf(t), "." + (Pad(3, millis) + "Z"));
  }

  // ---- Expiry by text comparison ----

  lemma {:induction false} PadOfNumber(s: string, from: nat, width: nat)
    requires from + width <= |s| && DigitsAt(s, from, width)
    ensures 0 <= NumberAt(s, from, width) < Pow10(width)
    ensures Pad(width, NumberAt(s, from, width)) == s[from..from + width]
  {
    if width != 0 {
      PadOfNumber(s, from, width - 1);
      var d, n := s[from + width - 1] as int - '0' as int, NumberAt(s, from, width - 1);
      assert NumberAt(s, from, width) == 10 * n + d && (10 * n + d) / 10 == n && (10 * n + d) % 10 == d;
      DigitIs(d);
      assert s[from..from + width] == s[from..from + width - 1] + [s[from + width - 1]];
    }
  }

  lemma DigitIs(d: nat)
    requires d < 10
    ensures DIGITS[d] as int == d + '0' as int
  {
  }

  lemma SplitAt19(s: string)
    requires 19 <= |s|
    ensures s == s[0..4] + ([s[4]] + (s[5..7] + ([s[7]] + (s[8..10] + ([s[10]] + (s[11..13] + ([s[13]]
                 + (s[14..16] + ([s[16]] + (s[17..19] + s[19..]))))))))))
  {
  }

  // A text starts like a stamp with fields in the calendar exactly if it is their stamp and some rest.
  lemma {:induction false} StampsAreTheirFields(s: string)
    ensures LooksLikeStamp(s) && InCalendar(FieldsIn(s))
            <==> exists f, rest :: InCalendar(f) && s == Stamp(f, rest)
  {
    if LooksLikeStamp(s) && InCalendar(FieldsIn(s)) {
      StampOfFields(s);
    }
    if f, rest :| InCalendar(f) && s == Stamp(f, rest) { StampReadsBack(s, f, rest); }
  }

  lemma StampIs(f: Fields, rest: string)
    requires InCalendar(f)
    ensures Stamp(f, rest)
         == Pad(4, f.year) + (['-'] + (Pad(2, f.month) + (['-'] + (Pad(2, f.day) + (['T'] + (Pad(2, f.hour) + ([':']
            + (Pad(2, f.minute) + ([':'] + (Pad(2, f.second) + rest))))))))))
  {
    hide Pad;
  }

  lemma {:induction false} FieldsAreRead(s: string, f: Fields)
    requires LooksLikeStamp(s) && f == FieldsIn(s) && InCalendar(f)
    ensures s[0..4] == Pad(4, f.year) && s[5..7] == Pad(2, f.month) && s[8..10] == Pad(2, f.day)
    ensures s[11..13] == Pad(2, f.hour) && s[14..16] == Pad(2, f.minute) && s[17..19] == Pad(2, f.second)
  {
    PadOfNumber(s, 0, 4);
    PadOfNumber(s, 5, 2);
    PadOfNumber(s, 8, 2);
    PadOfNumber(s, 11, 2);
    PadOfNumber(s, 14, 2);
    PadOfNumber(s, 17, 2);
    hide Pad, NumberAt, DigitsAt, Pow10;
  }

  lemma {:induction false} StampOfFields(s: string)
    requires LooksLikeStamp(s) && InCalendar(FieldsIn(s))
    ensures s == Stamp(FieldsIn(s), s[19..])
  {
    assert s[4] == s[7] == '-' && s[10] == 'T' && s[13] == s[16] == ':';
    hide *;
    FieldsAreRead(s, FieldsIn(s));
    StampIs(FieldsIn(s), s[19..]);
    SplitAt19(s);
  }

  // get_time with the second format, on texts of that exact width.
  predicate ReadsAsIso(s: string) {
    && LooksLikeStamp(s) && 20 <= |s| && s[19] == 'Z'
    && var f := FieldsIn(s);
       1 <= f.month <= 12 && 1 <= f.day <= 31 && f.hour < 24 && f.minute < 60 && f.second <= 60
  }

  lemma {:induction false} IsoReadsBack(t: nat)
    requires t <= MAX_TIME
    ensures ReadsAsIso(Iso(t)) && InstantOf(FieldsIn(Iso(t))) == t
  {
    hide FieldsOf, Stamp, SecondsOf, NumberAt, DigitsAt;
    FieldsAreInCalendar(t);
    InstantOfUndoesFieldsOf(t);
    StampReadsBack(Iso(t), FieldsOf(t), "Z");
    assert Iso(t)[19..][0] == 'Z';
  }

  function Shifted(iso: string, base: int, seconds: nat): string {
    if 0 <= base + seconds <= MAX_TIME then Iso(base + seconds) else iso
  }

  // addSecondsIso8601: a base that does not parse comes back unchanged.
  function AddSeconds(iso: string, seconds: nat): string {
    if ReadsAsIso(iso) then Shifted(iso, InstantOf(FieldsIn(iso)), seconds) else iso
  }

  lemma {:induction false} AddSecondsAddsSeconds(t: nat, seconds: nat)
    requires t + seconds <= MAX_TIME
    ensures AddSeconds(Iso(t), seconds) == Iso(t + seconds)
  {
    hide Iso, ReadsAsIso, InstantOf;
    IsoReadsBack(t);
  }

  // The confirm step refuses when expiresAt <= now as text.
  predicate Expired(expiresAt: string, now: string) {
    !LexLess(now, expiresAt)
  }

  // A configuration issued with a lifetime is refused from its last second on, never before.
  lemma {:induction false} ExpiryIsChronological(issued: nat, ttl: nat, now: nat)
    requires issued + ttl <= MAX_TIME && now <= MAX_TIME
    ensures Expired(AddSeconds(Iso(issued), ttl), Iso(now)) <==> issued + ttl <= now
  {
    hide Iso, AddSeconds, LexLess;
    AddSecondsAddsSeconds(issued, ttl);
    IsoOrderIsTimeOrder(now, issued + ttl);
  }
}
