// The UTC timestamp in a replay's file name, and when its text order is the order of time.

module FilenameTimestamps {
  import opened Decimal
  import opened CivilDates

  /** A number padded with zeros to a width; longer numbers keep all their digits. */
  function Padded(n: nat, width: nat): (s: string)
    decreases width
  {
    if width == 0 then (if n == 0 then "" else Text(n))
    else Padded(n / 10, width - 1) + [Digit(n % 10)]
  }

  /** The text for a moment counted in whole seconds from the start of 1970. */
  function UtcFilenameTimestamp(seconds: nat): string {
    var days := seconds / 86_400;
    var daySeconds := seconds % 86_400;
    var hour := daySeconds / 3_600;
    var minute := (daySeconds % 3_600) / 60;
    var second := daySeconds % 60;
    var date := DateOfDay(days);
    Padded(date.year, 4) + Padded(date.month, 2) + Padded(date.day, 2)
      + "T" + Padded(hour, 2) + Padded(minute, 2) + Padded(second, 2) + "Z"
  }

  /** From 1970 on every part of a date is a natural number. */
  function DateOfDay(days: nat): (t: Date)
    ensures t.year >= 1970 && 1 <= t.month <= 12 && 1 <= t.day <= 31
  {
    CivilIsTheNthDay(days);
    NthDayIsValid(days);
    CivilFromDays(days)
  }

  lemma {:induction false} NthDayIsValid(n: nat)
    ensures ValidDate(NthDay(n)) && NthDay(n).year >= 1970
  {
    if n > 0 { NthDayIsValid(n - 1); }
  }

  // ----- Text order -------------------------------------------------------------------------------

  /** Dictionary order, as file listings sort names. */
  predicate Before(s: string, t: string) {
    t != [] && (s == [] || s[0] < t[0] || (s[0] == t[0] && Before(s[1..], t[1..])))
  }

  lemma {:induction false} EarlierPartDecides(a: string, b: string, x: string, y: string)
    requires |a| == |b| && Before(a, b)
    ensures Before(a + x, b + y)
  {
    assert (a + x)[1..] == a[1..] + x && (b + y)[1..] == b[1..] + y;
    if a[0] == b[0] { EarlierPartDecides(a[1..], b[1..], x, y); }
  }

  lemma {:induction false} SamePartPasses(a: string, x: string, y: string)
    ensures Before(a + x, a + y) <==> Before(x, y)
  {
    if a == [] {
      assert a + x == x && a + y == y;
    } else {
      assert (a + x)[1..] == a[1..] + x && (a + y)[1..] == a[1..] + y;
      SamePartPasses(a[1..], x, y);
    }
  }

  function Pow10(w: nat): nat { if w == 0 then 1 else 10 * Pow10(w - 1) }

  /** Numbers of the same width compare as their texts do. */
  lemma {:induction false} PaddedOrder(n: nat, m: nat, width: nat)
    requires n < m < Pow10(width)
    ensures |Padded(n, width)| == |Padded(m, width)| == width && Before(Padded(n, width), Padded(m, width))
  {
    var a, b := Padded(n / 10, width - 1), Padded(m / 10, width - 1);
    var x, y := [Digit(n % 10)], [Digit(m % 10)];
    if n / 10 < m / 10 {
      PaddedOrder(n / 10, m / 10, width - 1);
      EarlierPartDecides(a, b, x, y);
    } else {
      PaddedWidth(n / 10, width - 1);
      SamePartPasses(a, x, y);
    }
  }

  lemma {:induction false} PaddedWidth(n: nat, width: nat)
    requires n < Pow10(width)
    ensures |Padded(n, width)| == width
  {
    if width > 0 { PaddedWidth(n / 10, width - 1); }
  }

  // ----- Fields of fixed width ----------------------------------------------------------------

  datatype Field = Field(number: nat, width: nat)

  predicate FieldsFit(fields: seq<Field>) {
    forall i :: 0 <= i < |fields| ==> fields[i].number < Pow10(fields[i].width)
  }

  predicate SameShape(f: seq<Field>, g: seq<Field>) {
    |f| == |g| && forall i :: 0 <= i < |f| ==> f[i].width == g[i].width
  }

  /** The first field that differs is smaller. */
  predicate FieldsBefore(f: seq<Field>, g: seq<Field>)
    requires |f| == |g|
  {
    f != [] && (f[0].number < g[0].number || (f[0].number == g[0].number && FieldsBefore(f[1..], g[1..])))
  }

  function Print(fields: seq<Field>): string {
    if fields == [] then "" else Padded(fields[0].number, fields[0].width) + Print(fields[1..])
  }

  /** Texts of fields that all fit their widths sort as the fields do, whatever follows them. */
  lemma {:induction false} PrintOrder(f: seq<Field>, g: seq<Field>, x: string, y: string)
    requires SameShape(f, g) && FieldsFit(f) && FieldsFit(g) && FieldsBefore(f, g)
    ensures Before(Print(f) + x, Print(g) + y)
  {
    hide Before, Padded;
    var a, b := Padded(f[0].number, f[0].width), Padded(g[0].number, g[0].width);
    assert Print(f) + x == a + (Print(f[1..]) + x) && Print(g) + y == b + (Print(g[1..]) + y);
    if f[0].number < g[0].number {
      PaddedOrder(f[0].number, g[0].number, f[0].width);
      EarlierPartDecides(a, b, Print(f[1..]) + x, Print(g[1..]) + y);
    } else {
      PrintOrder(f[1..], g[1..], x, y);
      SamePartPasses(a, Print(f[1..]) + x, Print(g[1..]) + y);
    }
  }

  function DateFields(t: Date): seq<Field>
    requires t.year >= 0 && t.month >= 0 && t.day >= 0
  {
    [Field(t.year, 4), Field(t.month, 2), Field(t.day, 2)]
  }

  function ClockFields(daySeconds: nat): seq<Field> {
    [Field(daySeconds / 3_600, 2), Field(daySeconds % 3_600 / 60, 2), Field(daySeconds % 60, 2)]
  }

  lemma PrintThree(f: Field, g: Field, h: Field)
    ensures Print([f, g, h]) == Padded(f.number, f.width) + Padded(g.number, g.width) + Padded(h.number, h.width)
  {
    hide Padded;
    assert [f, g, h][1..] == [g, h] && [g, h][1..] == [h] && [h][1..] == [];
    assert Print([h]) == Padded(h.number, h.width);
    assert Print([g, h]) == Padded(g.number, g.width) + Print([h]);
  }

  lemma TimestampParts(seconds: nat)
    ensures UtcFilenameTimestamp(seconds)
      == Print(DateFields(DateOfDay(seconds / 86_400))) + ("T" + (Print(ClockFields(seconds % 86_400)) + "Z"))
  {
    hide Padded, Print, DateOfDay;
    var date, clock := DateOfDay(seconds / 86_400), seconds % 86_400;
    PrintThree(Field(date.year, 4), Field(date.month, 2), Field(date.day, 2));
    PrintThree(Field(clock / 3_600, 2), Field(clock % 3_600 / 60, 2), Field(clock % 60, 2));
  }

  predicate DateBefore(s: Date, t: Date) {
    s.year < t.year || (s.year == t.year && (s.month < t.month || (s.month == t.month && s.day < t.day)))
  }

  lemma {:induction false} DatesAscend(n: nat, m: nat)
    requires n < m
    ensures DateBefore(DateOfDay(n), DateOfDay(m))
    decreases m
  {
    hide CivilFromDays;
    CivilSteps(m - 1);
    if n < m - 1 { DatesAscend(n, m - 1); }
  }

  lemma ThreeFieldsBefore(f: seq<Field>, g: seq<Field>)
    requires |f| == |g| == 3
    ensures FieldsBefore(f, g) <==>
      (f[0].number < g[0].number || (f[0].number == g[0].number &&
      (f[1].number < g[1].number || (f[1].number == g[1].number && f[2].number < g[2].number))))
  {
    assert f[2..] == f[1..][1..] && g[2..] == g[1..][1..];
    assert FieldsBefore(f[2..], g[2..]) <==> f[2].number < g[2].number by {
      assert f[2..][1..] == [] && g[2..][1..] == [];
    }
    assert FieldsBefore(f[1..], g[1..]) <==>
      (f[1].number < g[1].number || (f[1].number == g[1].number && FieldsBefore(f[2..], g[2..])));
  }

  lemma DateFieldsBefore(s: Date, t: Date)
    requires s.year >= 0 && s.month >= 0 && s.day >= 0 && t.year >= 0 && t.month >= 0 && t.day >= 0
    ensures FieldsBefore(DateFields(s), DateFields(t)) <==> DateBefore(s, t)
  {
    hide FieldsBefore;
    ThreeFieldsBefore(DateFields(s), DateFields(t));
  }

  lemma ClocksAscend(a: nat, b: nat)
    requires a < b < 86_400
    ensures FieldsBefore(ClockFields(a), ClockFields(b))
    ensures FieldsFit(ClockFields(a)) && FieldsFit(ClockFields(b))
  {
    hide FieldsBefore;
    ThreeFieldsBefore(ClockFields(a), ClockFields(b));
    assert Pow10(2) == 100;
  }

  /** Until the end of the year 9999 a later moment always has a later text. */
  lemma LaterSortsLater(s: nat, t: nat)
    requires s < t && DateOfDay(t / 86_400).year <= 9999
    ensures Before(UtcFilenameTimestamp(s), UtcFilenameTimestamp(t))
  {
    hide DateOfDay, UtcFilenameTimestamp, Before, Print, Padded, FieldsBefore, DateFields, ClockFields;
    TimestampParts(s);
    TimestampParts(t);
    var d, e := DateOfDay(s / 86_400), DateOfDay(t / 86_400);
    var x, y := Print(ClockFields(s % 86_400)) + "Z", Print(ClockFields(t % 86_400)) + "Z";
    if s / 86_400 < t / 86_400 {
      DatesAscend(s / 86_400, t / 86_400);
      DateFieldsBefore(d, e);
      DateFieldsFit(d, e);
      PrintOrder(DateFields(d), DateFields(e), "T" + x, "T" + y);
    } else {
      ClocksAscend(s % 86_400, t % 86_400);
      ClockFieldsShape(s % 86_400, t % 86_400);
      PrintOrder(ClockFields(s % 86_400), ClockFields(t % 86_400), "Z", "Z");
      SamePartPasses("T", x, y);
      SamePartPasses(Print(DateFields(d)), "T" + x, "T" + y);
    }
  }

  lemma DateFieldsFit(d: Date, e: Date)
    requires 0 <= d.year <= 9999 && 0 <= d.month <= 99 && 0 <= d.day <= 99
    requires 0 <= e.year <= 9999 && 0 <= e.month <= 99 && 0 <= e.day <= 99
    ensures SameShape(DateFields(d), DateFields(e)) && FieldsFit(DateFields(d)) && FieldsFit(DateFields(e))
  {
    assert Pow10(2) == 100;
    assert Pow10(4) == 100 * Pow10(2);
  }

  lemma ClockFieldsShape(a: nat, b: nat)
    ensures SameShape(ClockFields(a), ClockFields(b))
  {
  }

  // ----- Where the order ends ---------------------------------------------------------------------

  const YEAR_10000: nat := 253_402_300_800

  lemma LastDates()
    ensures ValidDate(Date(9999, 12, 31)) && DaysFromCivil(Date(9999, 12, 31)) == 2_932_896
    ensures ValidDate(Date(10000, 1, 1)) && DaysFromCivil(Date(10000, 1, 1)) == 2_932_897
  {
  }

  lemma LastDays()
    ensures DateOfDay(2_932_896) == Date(9999, 12, 31) && DateOfDay(2_932_897) == Date(10000, 1, 1)
  {
    hide CivilFromDays, ValidDate;
    LastDates();
    EveryDateIsReached(Date(9999, 12, 31));
    EveryDateIsReached(Date(10000, 1, 1));
  }

  lemma FirstOfFour(n: nat)
    requires 1_000 <= n
    ensures Padded(n, 4) != [] && (n <= 9_999 ==> Padded(n, 4)[0] == Digit(n / 1_000))
    ensures n == 10_000 ==> Padded(n, 4)[0] == '1'
  {
    assert Padded(n, 4) == Padded(n / 10, 3) + [Digit(n % 10)];
    assert Padded(n / 10, 3) == Padded(n / 10 / 10, 2) + [Digit(n / 10 % 10)];
    assert Padded(n / 10 / 10, 2) == Padded(n / 10 / 10 / 10, 1) + [Digit(n / 10 / 10 % 10)];
    assert Padded(n / 10 / 10 / 10, 1) == Padded(n / 10 / 10 / 10 / 10, 0) + [Digit(n / 10 / 10 / 10 % 10)];
  }

  /** The first second of the year 10000 sorts before the last one of 9999. */
  lemma OrderBreaksInYear10000()
    ensures !Before(UtcFilenameTimestamp(YEAR_10000 - 1), UtcFilenameTimestamp(YEAR_10000))
  {
    hide DateOfDay, UtcFilenameTimestamp, Padded, Print;
    LastDays();
    TimestampParts(YEAR_10000 - 1);
    TimestampParts(YEAR_10000);
    FirstOfFour(9_999);
    FirstOfFour(10_000);
    PrintThree(Field(9_999, 4), Field(12, 2), Field(31, 2));
    PrintThree(Field(10_000, 4), Field(1, 2), Field(1, 2));
  }

  predicate SortsInTime(s: nat, t: nat) { s < t ==> Before(UtcFilenameTimestamp(s), UtcFilenameTimestamp(t)) }

  /** All texts up to a moment sort in time order if and only if it lies before the year 10000. */
  lemma OrderHoldsIff(limit: nat)
    ensures (forall s, t :: 0 <= s <= limit && 0 <= t <= limit ==> SortsInTime(s, t)) <==> limit < YEAR_10000
  {
    hide UtcFilenameTimestamp, Before, DateOfDay;
    LastDays();
    if limit < YEAR_10000 {
      forall s, t | 0 <= s <= limit && 0 <= t <= limit
        ensures SortsInTime(s, t)
      {
        if t / 86_400 < 2_932_896 { DatesAscend(t / 86_400, 2_932_896); }
        if s < t { LaterSortsLater(s, t); }
      }
    } else {
      OrderBreaksInYear10000();
      assert !SortsInTime(YEAR_10000 - 1, YEAR_10000);
    }
  }

  // ----- Reading a timestamp back ------------------------------------------------------------------------

  predicate IsDigits(s: string) { forall i :: 0 <= i < |s| ==> '0' <= s[i] <= '9' }

  /** The number a text of digits stands for. */
  function NumberOf(s: string): nat
    requires IsDigits(s)
  {
    if s == "" then 0 else 10 * NumberOf(s[..|s| - 1]) + (s[|s| - 1] as int - '0' as int)
  }

  lemma {:induction false} PaddedReadsBack(n: nat, width: nat)
    requires n < Pow10(width)
    ensures |Padded(n, width)| == width && IsDigits(Padded(n, width)) && NumberOf(Padded(n, width)) == n
  {
    if width > 0 {
      PaddedReadsBack(n / 10, width - 1);
      var s := Padded(n, width);
      assert s[..width - 1] == Padded(n / 10, width - 1) && s[width - 1] == Digit(n % 10);
    }
  }

  /** Digits at [lo, hi) of a text stand for this number. */
  predicate Reads(s: string, lo: nat, hi: nat, n: int)
    requires lo <= hi <= |s|
  {
    IsDigits(s[lo..hi]) && NumberOf(s[lo..hi]) == n
  }

  /**
   * Until the year 10000 a timestamp reads back as the moment it stands for: sixteen characters,
   * the calendar date of the day, and the time of day, which adds up to the seconds passed since.
   */
  lemma TimestampReadsBack(seconds: nat)
    requires DateOfDay(seconds / 86_400).year < 10_000
    ensures var s, date := UtcFilenameTimestamp(seconds), NthDay(seconds / 86_400);
      && |s| == 16 && s[8] == 'T' && s[15] == 'Z'
      && Reads(s, 0, 4, date.year) && Reads(s, 4, 6, date.month) && Reads(s, 6, 8, date.day)
      && exists h, m, x :: 0 <= h < 24 && 0 <= m < 60 && 0 <= x < 60
           && Reads(s, 9, 11, h) && Reads(s, 11, 13, m) && Reads(s, 13, 15, x)
           && 3600 * h + 60 * m + x == seconds % 86_400
  {
    hide Padded, NthDay, CivilFromDays, DateOfDay, NumberOf;
    var day, clock := seconds / 86_400, seconds % 86_400;
    var date := DateOfDay(day);
    DateIsNthDay(day);
    var h, m, x := clock / 3_600, clock % 3_600 / 60, clock % 60;
    WidthsHold();
    PaddedReadsBack(date.year, 4);
    PaddedReadsBack(date.month, 2);
    PaddedReadsBack(date.day, 2);
    PaddedReadsBack(h, 2);
    PaddedReadsBack(m, 2);
    PaddedReadsBack(x, 2);
    var s := UtcFilenameTimestamp(seconds);
    assert s[0..4] == Padded(date.year, 4) && s[4..6] == Padded(date.month, 2) && s[6..8] == Padded(date.day, 2);
    assert s[9..11] == Padded(h, 2) && s[11..13] == Padded(m, 2) && s[13..15] == Padded(x, 2);
    assert Reads(s, 9, 11, h) && Reads(s, 11, 13, m) && Reads(s, 13, 15, x);
    assert 3600 * h + 60 * m + x == clock;
  }

  lemma WidthsHold()
    ensures Pow10(2) == 100 && Pow10(4) == 10_000
  {
    assert Pow10(3) == 1000;
  }

  lemma DateIsNthDay(days: nat)
    ensures DateOfDay(days) == NthDay(days)
  {
    CivilIsTheNthDay(days);
  }
}
