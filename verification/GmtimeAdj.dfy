/** Second-exact date adjustment (OPENSSL_gmtime_adj in o_time.c). */
module GmtimeAdj {
  import opened Calendar
  import opened Wrappers

  const SECS_PER_DAY: int := 24 * 60 * 60

  /** The fields of struct tm the code uses, with its offsets: years from 1900, months from 0. */
  datatype Time = Time(year: int, mon: int, mday: int, hour: int, min: int, sec: int)

  function DateOf(t: Time): Date { Date(t.year + 1900, t.mon + 1, t.mday) }

  predicate Normalised(t: Time) {
    IsDate(DateOf(t)) && 0 <= t.hour < 24 && 0 <= t.min < 60 && 0 <= t.sec < 60
  }

  function SecondOfDay(t: Time): int { t.hour * 3600 + t.min * 60 + t.sec }

  /** A second as its day and the second of that day */
  function SecondAt(day: int, hms: int): int { SECS_PER_DAY * day + hms }

  /** Seconds since the start of Julian day 0. */
  function Seconds(t: Time): int { SecondAt(DateToJulian(DateOf(t)), SecondOfDay(t)) }

  /** The day and the second of it that an offset leads to; C's division truncates. */
  function Move(day: int, hms: int, offDay: int, offsetSec: int): (int, int) {
    var days := TDiv(offsetSec, SECS_PER_DAY);
    var moved := offsetSec - days * SECS_PER_DAY + hms;
    var carry := if moved >= SECS_PER_DAY then 1 else if moved < 0 then -1 else 0;
    (day + (days + offDay + carry), moved - carry * SECS_PER_DAY)
  }

  function Target(t: Time, offDay: int, offsetSec: int): (int, int) {
    Move(DateToJulian(DateOf(t)), SecondOfDay(t), offDay, offsetSec)
  }

  function TimeOf(d: Date, hms: int): Time {
    Time(d.y - 1900, d.m - 1, d.d, TDiv(hms, 3600), TDiv(hms, 60) % 60, hms % 60)
  }

  function Adjust(t: Time, offDay: int, offsetSec: int): Option<Time> {
    var (day, hms) := Target(t, offDay, offsetSec);
    Settle(day, hms)
  }

  function Settle(day: int, hms: int): Option<Time> {
    if day < 0 then None else Checked(JulianToDate(day), hms)
  }

  function Checked(d: Date, hms: int): Option<Time> {
    if d.y < 1900 || d.y > 9999 then None else Some(TimeOf(d, hms))
  }

  const FIRST_DAY: int := 2415021   // 1900-01-01
  const LAST_DAY: int := 5373484    // 9999-12-31

  lemma FirstDay()
    ensures DateToJulian(Date(1900, 1, 1)) == FIRST_DAY
  {
  }

  lemma LastDay()
    ensures DateToJulian(Date(9999, 12, 31)) == LAST_DAY
  {
  }

  lemma FirstDateIsEarly()
    ensures DateToJulian(FIRST_DATE) < 0
  {
  }

  /** Moving splits the target second into its day and the second of that day. */
  lemma MoveExact(day: int, hms: int, offDay: int, offsetSec: int)
    requires 0 <= hms < SECS_PER_DAY
    ensures var (day', hms') := Move(day, hms, offDay, offsetSec);
            && 0 <= hms' < SECS_PER_DAY
            && SecondAt(day', hms') == SecondAt(day, hms) + SECS_PER_DAY * offDay + offsetSec
  {
  }

  lemma SecondOfDayRange(t: Time)
    requires Normalised(t)
    ensures 0 <= SecondOfDay(t) < SECS_PER_DAY
  {
  }

  /** A second of the day comes back from its hours, minutes and seconds. */
  lemma HmsBack(d: Date, hms: int)
    requires IsDate(d) && 0 <= hms < SECS_PER_DAY
    ensures var t := TimeOf(d, hms);
            Normalised(t) && SecondOfDay(t) == hms && DateOf(t) == d
  {
    assert hms == 3600 * (hms / 3600) + 60 * ((hms / 60) % 60) + hms % 60;
  }

  lemma HmsUnique(h: int, m: int, s: int, h': int, m': int, s': int)
    requires 0 <= m < 60 && 0 <= s < 60 && 0 <= m' < 60 && 0 <= s' < 60
    requires h * 3600 + m * 60 + s == h' * 3600 + m' * 60 + s'
    ensures h == h' && m == m' && s == s'
  {
  }

  lemma SecondAtUnique(day: int, hms: int, day': int, hms': int)
    requires 0 <= hms < SECS_PER_DAY && 0 <= hms' < SECS_PER_DAY && SecondAt(day, hms) == SecondAt(day', hms')
    ensures day == day' && hms == hms'
  {
  }

  /** The years the code accepts are these days. */
  lemma YearRange(day: int) returns (d: Date)
    requires day >= 0
    ensures IsDate(d) && DateToJulian(d) == day && JulianToDate(day) == d
    ensures 1900 <= d.y <= 9999 <==> FIRST_DAY <= day <= LAST_DAY
  {
    FirstDateIsEarly();
    d := EveryDayIsADate(day);
    FirstDay();
    LastDay();
    JulianIsMonotone(d, Date(1900, 1, 1));
    JulianIsMonotone(Date(9999, 12, 31), d);
  }

  lemma InRangeIff(day: int, hms: int)
    requires 0 <= hms < SECS_PER_DAY
    ensures FIRST_DAY <= day <= LAST_DAY
            <==> SECS_PER_DAY * FIRST_DAY <= SecondAt(day, hms) < SECS_PER_DAY * (LAST_DAY + 1)
  {
  }

  /** A second that comes from a day of the calendar. */
  predicate Exact(r: Option<Time>, second: int) {
    && (r.Some? <==> SECS_PER_DAY * FIRST_DAY <= second < SECS_PER_DAY * (LAST_DAY + 1))
    && (r.Some? ==> Normalised(r.value) && Seconds(r.value) == second)
  }

  lemma CheckedExact(day: int, hms: int)
    requires day >= 0 && 0 <= hms < SECS_PER_DAY
    ensures Exact(Checked(JulianToDate(day), hms), SecondAt(day, hms))
  {
    var d := YearRange(day);
    HmsBack(d, hms);
    InRangeIff(day, hms);
  }

  /**
   * An adjustment succeeds exactly when the target second lies in the years 1900 to 9999, and then the
   * result is the normalised time of exactly that second.
   */
  lemma AdjustIsExact(t: Time, offDay: int, offsetSec: int)
    requires Normalised(t)
    ensures Exact(Adjust(t, offDay, offsetSec), Seconds(t) + SECS_PER_DAY * offDay + offsetSec)
  {
    var (day, hms) := Target(t, offDay, offsetSec);
    SecondOfDayRange(t);
    MoveExact(DateToJulian(DateOf(t)), SecondOfDay(t), offDay, offsetSec);
    if day >= 0 { CheckedExact(day, hms); } else { InRangeIff(day, hms); }
  }

  /** A second has one normalised time. */
  lemma SecondsInjective(a: Time, b: Time)
    requires Normalised(a) && Normalised(b) && Seconds(a) == Seconds(b)
    ensures a == b
  {
    SecondOfDayRange(a);
    SecondOfDayRange(b);
    SecondAtUnique(DateToJulian(DateOf(a)), SecondOfDay(a), DateToJulian(DateOf(b)), SecondOfDay(b));
    HmsUnique(a.hour, a.min, a.sec, b.hour, b.min, b.sec);
    SameNumberSameDate(DateOf(a), DateOf(b));
  }

  lemma ExactUnique(a: Option<Time>, b: Option<Time>, second: int)
    requires Exact(a, second) && Exact(b, second)
    ensures a == b
  {
    if a.Some? { SecondsInjective(a.value, b.value); }
  }

  /** After a successful adjustment, a second one does what the first would have done with the summed offsets. */
  lemma AdjustmentsCompose(t: Time, offDay: int, offsetSec: int, offDay': int, offsetSec': int)
    requires Normalised(t) && Adjust(t, offDay, offsetSec).Some?
    ensures Adjust(t, offDay + offDay', offsetSec + offsetSec')
            == Adjust(Adjust(t, offDay, offsetSec).value, offDay', offsetSec')
  {
    AdjustIsExact(t, offDay, offsetSec);
    Second(t, Adjust(t, offDay, offsetSec).value, offDay, offsetSec, offDay', offsetSec');
  }

  lemma Second(t: Time, mid: Time, offDay: int, offsetSec: int, offDay': int, offsetSec': int)
    requires Normalised(t) && Normalised(mid)
    requires Seconds(mid) == Seconds(t) + SECS_PER_DAY * offDay + offsetSec
    ensures Adjust(t, offDay + offDay', offsetSec + offsetSec') == Adjust(mid, offDay', offsetSec')
  {
    AdjustIsExact(mid, offDay', offsetSec');
    AdjustIsExact(t, offDay + offDay', offsetSec + offsetSec');
    Summed(Seconds(t), offDay, offsetSec, offDay', offsetSec');
    ExactUnique(Adjust(t, offDay + offDay', offsetSec + offsetSec'), Adjust(mid, offDay', offsetSec'),
                Seconds(t) + SECS_PER_DAY * (offDay + offDay') + (offsetSec + offsetSec'));
  }

  lemma Summed(second: int, offDay: int, offsetSec: int, offDay': int, offsetSec': int)
    ensures (second + SECS_PER_DAY * offDay + offsetSec) + SECS_PER_DAY * offDay' + offsetSec'
            == second + SECS_PER_DAY * (offDay + offDay') + (offsetSec + offsetSec')
  {
  }

  /** struct tm */
  class Tm {
    var year: int
    var mon: int
    var mday: int
    var hour: int
    var min: int
    var sec: int

    ghost function View(): Time
      reads this
    {
      Time(year, mon, mday, hour, min, sec)
    }

    constructor (t: Time)
      ensures View() == t
    {
      year, mon, mday, hour, min, sec := t.year, t.mon, t.mday, t.hour, t.min, t.sec;
    }
  }

  method SplitOffset(hms: int, offDay: int, offsetSec: int) returns (offsetDay: int, offsetHms: int)
    ensures forall day :: Move(day, hms, offDay, offsetSec) == (day + offsetDay, offsetHms)
  {
    offsetDay := TDiv(offsetSec, SECS_PER_DAY);
    offsetHms := offsetSec - offsetDay * SECS_PER_DAY;
    offsetDay := offsetDay + offDay;
    offsetHms := offsetHms + hms;
    if offsetHms >= SECS_PER_DAY {
      offsetDay := offsetDay + 1;
      offsetHms := offsetHms - SECS_PER_DAY;
    } else if offsetHms < 0 {
      offsetDay := offsetDay - 1;
      offsetHms := offsetHms + SECS_PER_DAY;
    }
  }

  method MoveTime(tm: Tm, offDay: int, offsetSec: int) returns (timeJd: int, offsetHms: int)
    ensures (timeJd, offsetHms) == Target(tm.View(), offDay, offsetSec)
  {
    var offsetDay;
    offsetDay, offsetHms := SplitOffset(tm.hour * 3600 + tm.min * 60 + tm.sec, offDay, offsetSec);
    timeJd := DateToJulian(Date(tm.year + 1900, tm.mon + 1, tm.mday));
    timeJd := timeJd + offsetDay;
  }

  method Store(tm: Tm, day: int, hms: int) returns (ok: bool)
    modifies tm
    ensures ok == Settle(day, hms).Some?
    ensures ok ==> tm.View() == Settle(day, hms).value
    ensures !ok ==> tm.View() == old(tm.View())
  {
    if day < 0 { return false; }
    var date := JulianToDate(day);
    if date.y < 1900 || date.y > 9999 { return false; }
    tm.year := date.y - 1900;
    tm.mon := date.m - 1;
    tm.mday := date.d;
    tm.hour := TDiv(hms, 3600);
    tm.min := TDiv(hms, 60) % 60;
    tm.sec := hms % 60;
    ok := true;
  }

  /** OPENSSL_gmtime_adj */
  method GmtimeAdjust(tm: Tm, offDay: int, offsetSec: int) returns (ok: bool)
    modifies tm
    ensures ok == Adjust(old(tm.View()), offDay, offsetSec).Some?
    ensures ok ==> tm.View() == Adjust(old(tm.View()), offDay, offsetSec).value
    ensures !ok ==> tm.View() == old(tm.View())
  {
    var timeJd, offsetHms := MoveTime(tm, offDay, offsetSec);
    ok := Store(tm, timeJd, offsetHms);
  }
}
