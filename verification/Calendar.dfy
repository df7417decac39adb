/**
 * Julian day numbers (o_time.c: date_to_julian, julian_to_date) against the Gregorian calendar. The
 * results hold for every year from -4799 on, with no upper limit: below that the C divisions, which
 * truncate toward zero, start to see negative operands.
 */
module Calendar {
  /** C's integer division by a positive number */
  function TDiv(a: int, b: int): int
    requires b > 0
  {
    if a >= 0 then a / b else -((-a) / b)
  }

  datatype Date = Date(y: int, m: int, d: int)

  function DateToJulian(t: Date): int {
    var a := TDiv(t.m - 14, 12);
    TDiv(1461 * (t.y + 4800 + a), 4)
    + TDiv(367 * (t.m - 2 - 12 * a), 12)
    - TDiv(3 * TDiv(t.y + 4900 + a, 100), 4)
    + t.d - 32075
  }

  function JulianToDate(jd: int): Date {
    var l0 := jd + 68569;
    var n := TDiv(4 * l0, 146097);
    var l1 := l0 - TDiv(146097 * n + 3, 4);
    var i := TDiv(4000 * (l1 + 1), 1461001);
    var l2 := l1 - TDiv(1461 * i, 4) + 31;
    var j := TDiv(80 * l2, 2447);
    var l3 := TDiv(j, 11);
    Date(100 * (n - 49) + i + l3, j + 2 - 12 * l3, l2 - TDiv(2447 * j, 80))
  }

  // ---- The calendar ----

  const FIRST_YEAR: int := -4799

  predicate IsLeap(y: int) {
    y % 4 == 0 && (y % 100 != 0 || y % 400 == 0)
  }

  function DaysInMonth(y: int, m: int): int {
    if m == 2 then (if IsLeap(y) then 29 else 28)
    else if m == 4 || m == 6 || m == 9 || m == 11 then 30
    else 31
  }

  predicate IsDate(t: Date) {
    FIRST_YEAR <= t.y && 1 <= t.m <= 12 && 1 <= t.d <= DaysInMonth(t.y, t.m)
  }

  function NextDay(t: Date): (r: Date)
    requires IsDate(t)
    ensures IsDate(r)
  {
    if t.d < DaysInMonth(t.y, t.m) then t.(d := t.d + 1)
    else if t.m < 12 then Date(t.y, t.m + 1, 1)
    else Date(t.y + 1, 1, 1)
  }

  // ---- Years that begin in March ----

  /** Years since March -4800, months since March (from 1), days since the first of that March (from 0). */
  function MarchYear(t: Date): int { if t.m <= 2 then t.y + 4799 else t.y + 4800 }

  function MarchMonth(t: Date): int { if t.m <= 2 then t.m + 10 else t.m - 2 }

  function MarchDay(t: Date): int { 367 * MarchMonth(t) / 12 + t.d - 31 }

  lemma JulianForm(t: Date)
    requires IsDate(t)
    ensures var y := MarchYear(t);
            DateToJulian(t) == 1461 * y / 4 + MarchDay(t) - (3 * ((y + 100) / 100)) / 4 + 31 - 32075
  {
    assert TDiv(t.m - 14, 12) == if t.m <= 2 then -1 else 0;
  }

  lemma MarchDayRange(t: Date)
    requires IsDate(t)
    ensures 0 <= MarchDay(t) <= 365
    ensures MarchDay(t) == 365 ==> MarchMonth(t) == 12 && t.d == 29
  {
  }

  /** The month and day come back from the day of the March year. */
  lemma MonthBack(t: Date)
    requires IsDate(t)
    ensures var j := 80 * (MarchDay(t) + 31) / 2447;
            j == MarchMonth(t) && MarchDay(t) + 31 - 2447 * j / 80 == t.d
  {
  }

  /** The year of the March century comes back from its day count. */
  lemma YearBack(i: int, t: int)
    requires 0 <= i <= 99 && 0 <= t <= 365 && (t == 365 ==> i % 4 == 3)
    ensures 4000 * (1461 * i / 4 + t + 1) / 1461001 == i
  {
  }

  /** The century comes back from the day count since March -4900. */
  lemma CenturyBack(n: int, r: int)
    requires 0 <= n && 0 <= r <= 36524 && (r == 36524 ==> n % 4 == 0)
    ensures 4 * ((146097 * n + 3) / 4 + r) / 146097 == n
  {
    var q, k := n / 4, n % 4;
    assert n == 4 * q + k;
    assert (146097 * n + 3) / 4 == 146097 * q + (146097 * k + 3) / 4;
    var low := 4 * ((146097 * k + 3) / 4 + r) - 146097 * k;
    assert 0 <= low < 146097;
    assert 4 * ((146097 * n + 3) / 4 + r) == 146097 * n + low;
  }

  /** The Julian day number in terms of March century, year of it, and day of that year. */
  lemma CenturyForm(t: Date)
    requires IsDate(t)
    ensures var n, i := (MarchYear(t) + 100) / 100, (MarchYear(t) + 100) % 100;
            DateToJulian(t) + 68569 == (146097 * n + 3) / 4 + 1461 * i / 4 + MarchDay(t)
  {
    var y := MarchYear(t);
    var n, i := (y + 100) / 100, (y + 100) % 100;
    JulianForm(t);
    assert y == 100 * n + i - 100;
    assert 1461 * y / 4 == 36525 * n + 1461 * i / 4 - 36525;
    assert (146097 * n + 3) / 4 == 36525 * n - (3 * n) / 4;
  }

  /** February 29 only ends a March year whose number says so. */
  lemma LeapDay(t: Date)
    requires IsDate(t) && MarchDay(t) == 365
    ensures var n, i := (MarchYear(t) + 100) / 100, (MarchYear(t) + 100) % 100;
            i % 4 == 3 && (i == 99 ==> n % 4 == 0)
  {
    MarchDayRange(t);
    assert IsLeap(t.y) && MarchYear(t) == t.y + 4799;
    LeapMarchYear(t.y, (MarchYear(t) + 100) / 100, (MarchYear(t) + 100) % 100);
  }

  /** A March year ends in a leap February exactly when its number in its century says so. */
  lemma LeapMarchYear(y: int, n: nat, i: nat)
    requires y + 4899 == 100 * n + i && i < 100
    ensures IsLeap(y) <==> i % 4 == 3 && (i == 99 ==> n % 4 == 0)
  {
    if i == 99 { LeapCentury(y, n - 48); } else { LeapWithin(y, n - 49, i + 1); }
  }

  lemma LeapCentury(y: int, c: int)
    requires y == 100 * c
    ensures IsLeap(y) <==> c % 4 == 0
  {
    FourCenturies(y, c / 4, c % 4);
  }

  lemma FourCenturies(y: int, q: int, r: nat)
    requires y == 400 * q + 100 * r && r < 4
    ensures y % 400 == 100 * r && y % 100 == 0 && y % 4 == 0
  {
    Mod400(y, q, 100 * r);
    Mod100(y, 4 * q + r);
    Mod4(y, 100 * q + 25 * r);
  }

  lemma Mod400(y: int, q: int, r: nat)
    requires y == 400 * q + r && r < 400
    ensures y % 400 == r
  {
  }

  lemma Mod100(y: int, q: int)
    requires y == 100 * q
    ensures y % 100 == 0
  {
  }

  lemma Mod4(y: int, q: int)
    requires y == 4 * q
    ensures y % 4 == 0
  {
  }

  lemma LeapWithin(y: int, c: int, r: nat)
    requires y == 100 * c + r && 0 < r < 100
    ensures IsLeap(y) <==> r % 4 == 0
  {
    assert y == 4 * (25 * c) + r;
  }

  /** The day of the March century, and which centuries have the longest one. */
  lemma DayOfCentury(t: Date)
    requires IsDate(t)
    ensures var n, i := (MarchYear(t) + 100) / 100, (MarchYear(t) + 100) % 100;
            var r := 1461 * i / 4 + MarchDay(t);
            && 0 <= r <= 36524 && (r == 36524 ==> n % 4 == 0)
            && 0 <= MarchDay(t) <= 365 && (MarchDay(t) == 365 ==> i % 4 == 3)
  {
    MarchDayRange(t);
    if MarchDay(t) == 365 { LeapDay(t); }
  }

  /** julian_to_date undoes date_to_julian. */
  lemma JulianToDateInverts(t: Date)
    requires IsDate(t)
    ensures JulianToDate(DateToJulian(t)) == t
    ensures DateToJulian(t) + 68569 >= 0
  {
    CenturyForm(t);
    DayOfCentury(t);
    MonthBack(t);
    Rewind(DateToJulian(t), (MarchYear(t) + 100) / 100, (MarchYear(t) + 100) % 100, MarchDay(t), MarchMonth(t), t.d);
    YearAndMonth(t);
  }

  /** julian_to_date on a day number given as century, year, day of the year, month and day */
  lemma Rewind(jd: int, n: nat, i: nat, day: int, month: int, d: int)
    requires i <= 99 && 0 <= day <= 365 && (day == 365 ==> i % 4 == 3)
    requires jd + 68569 == (146097 * n + 3) / 4 + 1461 * i / 4 + day
    requires 0 <= 1461 * i / 4 + day <= 36524 && (1461 * i / 4 + day == 36524 ==> n % 4 == 0)
    requires 80 * (day + 31) / 2447 == month && day + 31 - 2447 * month / 80 == d
    ensures JulianToDate(jd) == Date(100 * (n - 49) + i + TDiv(month, 11), month + 2 - 12 * TDiv(month, 11), d)
  {
    CenturyBack(n, 1461 * i / 4 + day);
    YearBack(i, day);
    Unwind(jd, n, i, day);
  }

  lemma YearAndMonth(t: Date)
    requires IsDate(t)
    ensures var n, i, j := (MarchYear(t) + 100) / 100, (MarchYear(t) + 100) % 100, MarchMonth(t);
            100 * (n - 49) + i + TDiv(j, 11) == t.y && j + 2 - 12 * TDiv(j, 11) == t.m
  {
    assert TDiv(MarchMonth(t), 11) == if t.m <= 2 then 1 else 0;
  }

  /** julian_to_date, step by step. */
  lemma Unwind(jd: int, n: int, i: int, day: int)
    requires 0 <= n && 0 <= i <= 99 && 0 <= day <= 365
    requires jd + 68569 == (146097 * n + 3) / 4 + 1461 * i / 4 + day
    requires 4 * (jd + 68569) / 146097 == n
    requires 4000 * (1461 * i / 4 + day + 1) / 1461001 == i
    ensures var j := 80 * (day + 31) / 2447;
            JulianToDate(jd)
            == Date(100 * (n - 49) + i + TDiv(j, 11), j + 2 - 12 * TDiv(j, 11), day + 31 - 2447 * j / 80)
  {
  }

  lemma SameMarchYear(t: Date)
    requires IsDate(t) && !(t.m == 2 && t.d == DaysInMonth(t.y, 2))
    ensures MarchYear(NextDay(t)) == MarchYear(t) && MarchDay(NextDay(t)) == MarchDay(t) + 1
  {
  }

  /** The last day of February starts a new March year. */
  lemma NewMarchYear(t: Date)
    requires IsDate(t) && t.m == 2 && t.d == DaysInMonth(t.y, 2)
    ensures var y, n, i := MarchYear(t), (MarchYear(t) + 100) / 100, (MarchYear(t) + 100) % 100;
            && NextDay(t) == Date(t.y, 3, 1) && MarchYear(NextDay(t)) == y + 1 && MarchDay(NextDay(t)) == 0
            && MarchDay(t) == if i % 4 == 3 && (i == 99 ==> n % 4 == 0) then 365 else 364
  {
    LeapMarchYear(t.y, (MarchYear(t) + 100) / 100, (MarchYear(t) + 100) % 100);
  }

  lemma NextCentury(n: int)
    requires 0 <= n
    ensures (146097 * (n + 1) + 3) / 4 == (146097 * n + 3) / 4 + 36524 + if n % 4 == 0 then 1 else 0
  {
  }

  /** The three summands of CenturyForm, from the March year. */
  function YearStart(y: int): int {
    (146097 * ((y + 100) / 100) + 3) / 4 + 1461 * ((y + 100) % 100) / 4
  }

  lemma YearStartStep(y: int)
    requires y >= 0
    ensures var n, i := (y + 100) / 100, (y + 100) % 100;
            YearStart(y + 1) == YearStart(y) + if i % 4 == 3 && (i == 99 ==> n % 4 == 0) then 366 else 365
  {
    var n, i := (y + 100) / 100, (y + 100) % 100;
    if i < 99 {
      assert (y + 101) / 100 == n && (y + 101) % 100 == i + 1;
    } else {
      assert (y + 101) / 100 == n + 1 && (y + 101) % 100 == 0;
      NextCentury(n);
    }
  }

  /** Consecutive days have consecutive numbers, across month ends, leap days and century years. */
  lemma NextDayIsNext(t: Date)
    requires IsDate(t)
    ensures DateToJulian(NextDay(t)) == DateToJulian(t) + 1
  {
    if t.m == 2 && t.d == DaysInMonth(t.y, 2) { NextInNewYear(t); } else { NextInSameYear(t); }
  }

  lemma NextInNewYear(t: Date)
    requires IsDate(t) && t.m == 2 && t.d == DaysInMonth(t.y, 2)
    ensures DateToJulian(NextDay(t)) == DateToJulian(t) + 1
  {
    CenturyForm(t);
    CenturyForm(NextDay(t));
    NewMarchYear(t);
    YearStartStep(MarchYear(t));
  }

  lemma NextInSameYear(t: Date)
    requires IsDate(t) && !(t.m == 2 && t.d == DaysInMonth(t.y, 2))
    ensures DateToJulian(NextDay(t)) == DateToJulian(t) + 1
  {
    CenturyForm(t);
    CenturyForm(NextDay(t));
    SameMarchYear(t);
  }

  const FIRST_DATE: Date := Date(FIRST_YEAR, 1, 1)

  /** Every day number from the first date's on belongs to a date: the conversion is a bijection. */
  lemma {:induction false} EveryDayIsADate(jd: int) returns (t: Date)
    requires jd >= DateToJulian(FIRST_DATE)
    ensures IsDate(t) && DateToJulian(t) == jd && JulianToDate(jd) == t
    decreases jd - DateToJulian(FIRST_DATE)
  {
    if jd == DateToJulian(FIRST_DATE) {
      t := FIRST_DATE;
    } else {
      var s := EveryDayIsADate(jd - 1);
      NextDayIsNext(s);
      t := NextDay(s);
    }
    JulianToDateInverts(t);
  }

  /** Later in the calendar. */
  predicate Before(a: Date, b: Date) {
    a.y < b.y || (a.y == b.y && (a.m < b.m || (a.m == b.m && a.d < b.d)))
  }

  /** Day numbers are ordered as the dates are. */
  lemma JulianIsMonotone(a: Date, b: Date)
    requires IsDate(a) && IsDate(b)
    ensures DateToJulian(a) < DateToJulian(b) <==> Before(a, b)
  {
    if DateToJulian(a) < DateToJulian(b) { Ahead(a, b); }
    if DateToJulian(b) < DateToJulian(a) { Ahead(b, a); }
    if DateToJulian(a) == DateToJulian(b) { SameNumberSameDate(a, b); }
  }

  lemma NextIsLater(a: Date, b: Date)
    requires IsDate(a)
    ensures Before(a, NextDay(a))
    ensures Before(NextDay(a), b) ==> Before(a, b)
  {
  }

  lemma {:induction false} Ahead(a: Date, b: Date)
    requires IsDate(a) && IsDate(b) && DateToJulian(a) < DateToJulian(b)
    ensures Before(a, b)
    decreases DateToJulian(b) - DateToJulian(a)
  {
    NextDayIsNext(a);
    NextIsLater(a, b);
    if DateToJulian(NextDay(a)) < DateToJulian(b) {
      Ahead(NextDay(a), b);
    } else {
      SameNumberSameDate(NextDay(a), b);
    }
  }

  lemma SameNumberSameDate(a: Date, b: Date)
    requires IsDate(a) && IsDate(b) && DateToJulian(a) == DateToJulian(b)
    ensures a == b
  {
    JulianToDateInverts(a);
    JulianToDateInverts(b);
  }
}
