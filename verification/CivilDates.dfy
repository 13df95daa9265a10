// The calendar behind replay file names: days since 1970 to a civil date, and the timestamp text.

module CivilDates {
  datatype Date = Date(year: int, month: int, day: int)

  /** Division as the server's machine integers do it: towards zero. */
  function Quot(a: int, b: int): int
    requires b > 0
  {
    if a >= 0 then a / b else -((-a) / b)
  }

  /** The 400-year era of a day counted from 1 March of year 0. */
  function Era(z: int): int { Quot(if z >= 0 then z else z - 146_096, 146_097) }

  /** The day within its era, the year of the era, and the day within that year. */
  function Doe(z: int): int { z - Era(z) * 146_097 }

  function Yoe(doe: int): int { (doe - doe / 1_460 + doe / 36_524 - doe / 146_096) / 365 }

  function DayOfYear(doe: int): int { doe - (365 * Yoe(doe) + Yoe(doe) / 4 - Yoe(doe) / 100) }

  /** The date of a day counted from 1970-01-01; after the era every operand is non-negative. */
  function CivilFromDays(days: int): Date {
    var doe := Doe(days + 719_468);
    var y := Yoe(doe) + Era(days + 719_468) * 400;
    var doy := DayOfYear(doe);
    var mp := (5 * doy + 2) / 153;
    var d := doy - (153 * mp + 2) / 5 + 1;
    var m := mp + if mp < 10 then 3 else -9;
    Date(y + if m <= 2 then 1 else 0, m, d)
  }

  // ----- The Gregorian calendar, independently --------------------------------------------------

  predicate IsLeap(year: int) { year % 4 == 0 && (year % 100 != 0 || year % 400 == 0) }

  function DaysIn(year: int, month: int): int {
    if month == 2 then (if IsLeap(year) then 29 else 28)
    else if month == 4 || month == 6 || month == 9 || month == 11 then 30
    else 31
  }

  predicate ValidDate(t: Date) { 1 <= t.month <= 12 && 1 <= t.day <= DaysIn(t.year, t.month) }

  /** The next day of the calendar. */
  function NextDay(t: Date): Date {
    if t.day < DaysIn(t.year, t.month) then t.(day := t.day + 1)
    else if t.month < 12 then Date(t.year, t.month + 1, 1)
    else Date(t.year + 1, 1, 1)
  }

  function NthDay(n: nat): Date {
    if n == 0 then Date(1970, 1, 1) else NextDay(NthDay(n - 1))
  }

  /** The days-from-civil formula: whole years from March, whole months, days. */
  function DaysFromCivil(t: Date): int {
    YearStart(t.year - if t.month <= 2 then 1 else 0) + MonthStart((t.month + 9) % 12) + t.day - 1 - 719_468
  }

  /** Days before 1 March of a year. */
  function YearStart(y: int): int { 365 * y + y / 4 - y / 100 + y / 400 }

  /** Days from 1 March to the first of the `mp`-th month after it. */
  function MonthStart(mp: int): int { (153 * mp + 2) / 5 }

  predicate InYear(z: int, y: int) { YearStart(y) <= z < YearStart(y + 1) }

  lemma YearLength(y: int)
    ensures YearStart(y + 1) - YearStart(y) == if IsLeap(y + 1) then 366 else 365
  {
    OneMore(y, 4);
    OneMore(y, 100);
    OneMore(y, 400);
    Multiples(y + 1);
  }

  lemma Multiples(y: int)
    ensures (y % 400 == 0 ==> y % 100 == 0) && (y % 100 == 0 ==> y % 4 == 0)
  {
  }

  lemma OneMore(y: int, n: int)
    requires n == 4 || n == 100 || n == 400
    ensures (y + 1) / n == y / n + if (y + 1) % n == 0 then 1 else 0
  {
  }

  lemma {:induction false} YearsAscend(y: int, w: int)
    requires y <= w
    ensures YearStart(y) + 365 * (w - y) <= YearStart(w)
    decreases w - y
  {
    if y < w {
      YearLength(y);
      YearsAscend(y + 1, w);
    }
  }

  /** A day lies in one year only. */
  lemma YearIsUnique(z: int, y: int, w: int)
    requires InYear(z, y) && InYear(z, w)
    ensures y == w
  {
    if y < w { YearsAscend(y + 1, w); }
    if w < y { YearsAscend(w + 1, y); }
  }

  // ----- What the intermediate values of the computation are ---------------------------------

  lemma EraIsFloor(z: int)
    ensures 0 <= Doe(z) < 146_097
  {
  }

  /** One day of a 400-year era, cut into centuries, four-year blocks, years and days. */
  lemma YearOfEra(c: int, q: int, a: int, doy: int)
    requires 0 <= c < 4 && 0 <= q < 25 && 0 <= a < 4 && 0 <= doy <= 365
    requires doy == 365 ==> a == 3 && (q < 24 || c == 3)
    ensures Yoe(36_524 * c + 1_461 * q + 365 * a + doy) == 100 * c + 4 * q + a
  {
    var doe := 36_524 * c + 1_461 * q + 365 * a + doy;
    var shift := if 365 * a + doy + 24 * c + q >= 1_460 then 1 else 0;
    assert doe / 1_460 == 25 * c + q + shift;
    assert doe / 36_524 - doe / 146_096 == c;
    assert doe - doe / 1_460 + doe / 36_524 - doe / 146_096 == 365 * (100 * c + 4 * q + a) + doy - shift;
  }

  /** Cuts a day of an era into those parts. */
  lemma EraParts(doe: int) returns (c: int, q: int, a: int, doy: int)
    requires 0 <= doe < 146_097
    ensures 0 <= c < 4 && 0 <= q < 25 && 0 <= a < 4 && 0 <= doy <= 365
    ensures doy == 365 ==> a == 3 && (q < 24 || c == 3)
    ensures doe == 36_524 * c + 1_461 * q + 365 * a + doy
  {
    c := if doe == 146_096 then 3 else doe / 36_524;
    var rest := doe - 36_524 * c;
    q := rest / 1_461;
    var days := rest - 1_461 * q;
    a := if days == 1_460 then 3 else days / 365;
    doy := days - 365 * a;
  }

  lemma EraYearStart(era: int, c: int, q: int, a: int)
    requires 0 <= c < 4 && 0 <= q < 25 && 0 <= a < 4
    ensures YearStart(400 * era + 100 * c + 4 * q + a) == 146_097 * era + 36_524 * c + 1_461 * q + 365 * a
    ensures IsLeap(400 * era + 100 * c + 4 * q + a + 1) <==> a == 3 && (q < 24 || c == 3)
  {
    var y := 400 * era + 100 * c + 4 * q + a;
    SplitDivision(y, 4, 100 * era + 25 * c + q, a);
    SplitDivision(y, 100, 4 * era + c, 4 * q + a);
    SplitDivision(y, 400, era, 100 * c + 4 * q + a);
    LeapInEra(era, c, q, a);
  }

  lemma SplitDivision(y: int, d: int, quotient: int, rest: int)
    requires d > 0 && 0 <= rest < d && y == d * quotient + rest
    ensures y / d == quotient && y % d == rest
  {
    var k := y / d - quotient;
    assert d * k == d * (y / d) - d * quotient;
    MultipleIsFar(d, k);
  }

  lemma MultipleIsFar(d: int, k: int)
    requires d > 0
    ensures k >= 1 ==> d * k >= d
    ensures k <= -1 ==> d * k <= -d
  {
  }

  lemma LeapInEra(era: int, c: int, q: int, a: int)
    requires 0 <= c < 4 && 0 <= q < 25 && 0 <= a < 4
    ensures IsLeap(400 * era + 100 * c + 4 * q + a + 1) <==> a == 3 && (q < 24 || c == 3)
  {
    var y := 400 * era + 100 * c + 4 * q + a + 1;
    var carry := if a == 3 then 1 else 0;
    SplitDivision(y, 4, 100 * era + 25 * c + q + carry, a + 1 - 4 * carry);
    if a == 3 && q == 24 {
      SplitDivision(y, 100, 4 * era + c + 1, 0);
      if c == 3 { SplitDivision(y, 400, era + 1, 0); } else { SplitDivision(y, 400, era, 100 * (c + 1)); }
    } else {
      SplitDivision(y, 100, 4 * era + c, 4 * q + a + 1);
    }
  }

  function YearOf(z: int): int { Yoe(Doe(z)) + 400 * Era(z) }

  lemma YoeRange(doe: int)
    requires 0 <= doe < 146_097
    ensures 0 <= Yoe(doe) < 400 && DayOfYear(doe) == doe - YearStart(Yoe(doe))
    ensures 0 <= DayOfYear(doe) < if IsLeap(Yoe(doe) + 1) then 366 else 365
  {
    hide Yoe, IsLeap, YearStart;
    var c, q, a, doy := EraParts(doe);
    YearOfEra(c, q, a, doy);
    EraYearStart(0, c, q, a);
    InEra(Yoe(doe));
  }

  lemma InEra(yoe: int)
    requires 0 <= yoe < 400
    ensures YearStart(yoe) == 365 * yoe + yoe / 4 - yoe / 100
  {
  }

  lemma EraShift(y: int, era: int)
    ensures YearStart(y + 400 * era) == YearStart(y) + 146_097 * era
    ensures IsLeap(y + 400 * era) == IsLeap(y)
  {
    assert (y + 400 * era) / 4 == y / 4 + 100 * era;
    assert (y + 400 * era) / 100 == y / 100 + 4 * era;
    assert (y + 400 * era) / 400 == y / 400 + era;
  }

  /** The year the computation finds is the one the day lies in. */
  lemma FindsTheYear(z: int)
    ensures InYear(z, YearOf(z)) && DayOfYear(Doe(z)) == z - YearStart(YearOf(z))
  {
    hide Yoe, IsLeap, YearStart, DayOfYear, Era;
    EraIsFloor(z);
    YoeRange(Doe(z));
    EraShift(Yoe(Doe(z)), Era(z));
    EraShift(Yoe(Doe(z)) + 1, Era(z));
    YearLength(YearOf(z));
  }

  /** The date of day `doy` after 1 March of year `y`. */
  function DateIn(y: int, doy: int): Date {
    var mp := (5 * doy + 2) / 153;
    var m := mp + if mp < 10 then 3 else -9;
    Date(y + if m <= 2 then 1 else 0, m, doy - MonthStart(mp) + 1)
  }

  lemma CivilUnfolds(days: int)
    ensures CivilFromDays(days) == DateIn(YearOf(days + 719_468), DayOfYear(Doe(days + 719_468)))
  {
    hide Era, Doe, Yoe, DayOfYear;
  }

  lemma CivilIsDateIn(days: int, y: int)
    requires InYear(days + 719_468, y)
    ensures CivilFromDays(days) == DateIn(y, days + 719_468 - YearStart(y))
  {
    hide YearOf, Doe, DayOfYear, DateIn, CivilFromDays, YearStart;
    var z := days + 719_468;
    CivilUnfolds(days);
    FindsTheYear(z);
    YearIsUnique(z, y, YearOf(z));
  }

  // ----- Main results -----------------------------------------------------------------------------

  /** The months counted from March tile the year; the last one's end is left open. */
  predicate InMonth(doy: int, mp: int) { 0 <= mp < 12 && MonthStart(mp) <= doy < MonthStart(mp + 1) }

  lemma MonthExists(doy: int) returns (mp: int)
    requires 0 <= doy < 366
    ensures InMonth(doy, mp)
  {
    mp := (5 * doy + 2) / 153;
  }

  /** In month `mp` after March a day of the year has the date one expects. */
  lemma DateInMonth(y: int, doy: int, mp: int)
    requires InMonth(doy, mp)
    ensures DateIn(y, doy) ==
      Date(if mp >= 10 then y + 1 else y, if mp < 10 then mp + 3 else mp - 9, doy - MonthStart(mp) + 1)
  {
    assert (5 * doy + 2) / 153 == mp;
  }

  lemma MonthLength(mp: int, year: int)
    requires 0 <= mp < 12
    ensures MonthStart(mp + 1) - MonthStart(mp) ==
      if mp == 11 then 30 else DaysIn(year, if mp < 10 then mp + 3 else mp - 9)
    ensures mp == 11 ==> MonthStart(mp) == 337
    ensures MonthStart(0) == 0
  {
  }

  lemma DateInIsValid(y: int, doy: int)
    requires 0 <= doy < if IsLeap(y + 1) then 366 else 365
    ensures ValidDate(DateIn(y, doy))
    ensures DaysFromCivil(DateIn(y, doy)) == YearStart(y) + doy - 719_468
  {
    hide DateIn, IsLeap, YearStart, MonthStart;
    var mp := MonthExists(doy);
    DateInMonth(y, doy, mp);
    MonthLength(mp, y);
  }

  lemma DateInSteps(y: int, doy: int)
    requires 0 <= doy < if IsLeap(y + 1) then 366 else 365
    ensures NextDay(DateIn(y, doy)) ==
      if doy + 1 < if IsLeap(y + 1) then 366 else 365 then DateIn(y, doy + 1) else DateIn(y + 1, 0)
  {
    hide DateIn, IsLeap, MonthStart;
    var mp := MonthExists(doy);
    DateInMonth(y, doy, mp);
    MonthLength(mp, y);
    MonthLength(0, y + 1);
    MonthsFollow(mp);
    if InMonth(doy + 1, mp) {
      DateInMonth(y, doy + 1, mp);
    } else if mp < 11 {
      MonthLength(mp + 1, y);
      assert InMonth(doy + 1, mp + 1);
      DateInMonth(y, doy + 1, mp + 1);
    }
    DateInMonth(y + 1, 0, 0);
  }

  /** Every day gets a date of the calendar, and the days-from-civil formula takes it back. */
  lemma CivilIsValidAndInvertible(days: int)
    ensures ValidDate(CivilFromDays(days)) && DaysFromCivil(CivilFromDays(days)) == days
  {
    hide YearOf, Doe, DayOfYear, DateIn, CivilFromDays, YearStart, DaysFromCivil, ValidDate;
    var z := days + 719_468;
    FindsTheYear(z);
    CivilIsDateIn(days, YearOf(z));
    YearLength(YearOf(z));
    DateInIsValid(YearOf(z), z - YearStart(YearOf(z)));
  }

  /** Every date of the calendar is the date of exactly the day the formula gives. */
  lemma EveryDateIsReached(t: Date)
    requires ValidDate(t)
    ensures CivilFromDays(DaysFromCivil(t)) == t
  {
    hide DateIn, CivilFromDays, YearStart, ValidDate, IsLeap;
    var y := t.year - if t.month <= 2 then 1 else 0;
    YearLength(y);
    DateParts(t);
    CivilIsDateIn(DaysFromCivil(t), y);
  }

  lemma DateParts(t: Date)
    requires ValidDate(t)
    ensures var y := t.year - if t.month <= 2 then 1 else 0;
      var doy := MonthStart((t.month + 9) % 12) + t.day - 1;
      (0 <= doy < if IsLeap(y + 1) then 366 else 365) && DateIn(y, doy) == t
  {
    hide DateIn, IsLeap, MonthStart;
    var mp := (t.month + 9) % 12;
    var y := t.year - if t.month <= 2 then 1 else 0;
    MonthLength(mp, t.year);
    MonthsFollow(mp);
    DateInMonth(y, MonthStart(mp) + t.day - 1, mp);
  }

  lemma MonthsFollow(mp: int)
    requires 0 <= mp < 12
    ensures 0 <= MonthStart(mp) && (mp < 11 ==> MonthStart(mp + 1) <= 337)
  {
  }

  /** The date of the next day is the next date. */
  lemma CivilSteps(days: int)
    ensures CivilFromDays(days + 1) == NextDay(CivilFromDays(days))
  {
    hide YearOf, Doe, DayOfYear, DateIn, CivilFromDays, YearStart, NextDay, IsLeap;
    var z := days + 719_468;
    var y := YearOf(z);
    FindsTheYear(z);
    YearLength(y);
    YearLength(y + 1);
    CivilIsDateIn(days, y);
    CivilIsDateIn(days + 1, if z + 1 < YearStart(y + 1) then y else y + 1);
    DateInSteps(y, z - YearStart(y));
  }

  lemma CivilStarts()
    ensures CivilFromDays(0) == Date(1970, 1, 1)
  {
  }

  /** Day `n` is the `n`-th calendar day after 1 January 1970. */
  lemma {:induction false} CivilIsTheNthDay(n: nat)
    ensures CivilFromDays(n) == NthDay(n)
  {
    hide CivilFromDays, NextDay;
    if n == 0 {
      CivilStarts();
    } else {
      CivilIsTheNthDay(n - 1);
      CivilSteps(n - 1);
    }
  }
}
