/**
 * Calendar dates as JavaScript's `Date` presents them through its local-time getters:
 * year, month index 0..11 (`getMonth()`), day of the month 1..31 (`getDate()`) and the
 * time of day in milliseconds; with `setMonth`/`setFullYear` normalisation and the
 * next-payment-date computation of server/src/utils/calculateNextPaymentDate.ts.
 */
module Calendar {

  const MsPerDay: int := 86400000

  datatype DateTime = DateTime(year: int, month: int, day: int, timeMs: int)

  /** Gregorian leap years (the proleptic calendar `Date` uses). */
  predicate IsLeapYear(y: int)
  {
    (y % 4 == 0 && y % 100 != 0) || y % 400 == 0
  }

  /** Days in month `m` (0 = January) of year `y`. */
  function DaysInMonth(y: int, m: int): (n: int)
    requires 0 <= m < 12
    ensures 28 <= n <= 31
    ensures m == 1 ==> (n == 29 <==> IsLeapYear(y))
  {
    if m == 1 then (if IsLeapYear(y) then 29 else 28)
    else if m == 3 || m == 5 || m == 8 || m == 10 then 30
    else 31
  }

  /** A point the calendar can show: a real month, a day inside it, a time inside the day. */
  predicate IsValid(d: DateTime)
  {
    0 <= d.month < 12 && 1 <= d.day <= DaysInMonth(d.year, d.month) && 0 <= d.timeMs < MsPerDay
  }

  /** Every `Date` that holds a time value is a valid calendar point. */
  type Date = d: DateTime | IsValid(d) witness DateTime(1970, 0, 1, 0)

  /** `a` is the same instant as `b` or later. */
  predicate AtOrAfter(a: DateTime, b: DateTime)
  {
    a.year > b.year
    || (a.year == b.year && (a.month > b.month
    || (a.month == b.month && (a.day > b.day
    || (a.day == b.day && a.timeMs >= b.timeMs)))))
  }

  /** `a` is strictly later than `b`. */
  predicate After(a: DateTime, b: DateTime)
  {
    AtOrAfter(a, b) && a != b
  }

  /** The instants are totally ordered. */
  lemma AtOrAfterTotal(a: DateTime, b: DateTime)
    ensures AtOrAfter(a, b) || AtOrAfter(b, a)
    ensures AtOrAfter(a, b) && AtOrAfter(b, a) ==> a == b
  {
  }

  /** Being at or after is transitive. */
  lemma AtOrAfterTransitive(a: DateTime, b: DateTime, c: DateTime)
    requires AtOrAfter(a, b) && AtOrAfter(b, c)
    ensures AtOrAfter(a, c)
  {
  }

  /**
   * The date `Date` builds from a year, a month index that may lie outside 0..11 and a
   * day of the month that may run past the month's end: months outside 0..11 move
   * whole years, and surplus days run into the following months.
   */
  function MakeDate(year: int, month: int, day: int, timeMs: int): (r: Date)
    requires 1 <= day && 0 <= timeMs < MsPerDay
    ensures r.timeMs == timeMs
    ensures day <= DaysInMonth(year + month / 12, month % 12) ==>
              r == DateTime(year + month / 12, month % 12, day, timeMs)
    decreases day
  {
    var y := year + month / 12;
    var m := month % 12;
    if day <= DaysInMonth(y, m) then DateTime(y, m, day, timeMs)
    else MakeDate(y, m + 1, day - DaysInMonth(y, m), timeMs)
  }

  /**
   * `calculateNextPaymentDate(startDate)`: a copy of the start date moved one month
   * forward with `setMonth(getMonth() + 1)`. `Date` values are modelled as values, so
   * the caller's date cannot be changed by the call.
   */
  function NextPaymentDate(start: Date): (r: Date)
    ensures After(r, start) && r.timeMs == start.timeMs
  {
    MonthLaterShape(start);
    MakeDate(start.year, start.month + 1, start.day, start.timeMs)
  }

  /** The month after `month` of `year`, December rolling over into January. */
  function NextMonth(year: int, month: int): (ym: (int, int))
    requires 0 <= month < 12
    ensures 0 <= ym.1 < 12
  {
    if month == 11 then (year + 1, 0) else (year, month + 1)
  }

  /**
   * The next payment date falls in the following month on the same day at the same time,
   * unless that month is too short: then the surplus days run into the month after it.
   * It is always strictly later than the start date.
   */
  lemma NextPaymentDateShape(start: Date)
    ensures var (y, m) := NextMonth(start.year, start.month);
      var r := NextPaymentDate(start);
      && (start.day <= DaysInMonth(y, m) ==> r == DateTime(y, m, start.day, start.timeMs))
      && (start.day > DaysInMonth(y, m) ==>
            m < 11 && r == DateTime(y, m + 1, start.day - DaysInMonth(y, m), start.timeMs))
    ensures After(NextPaymentDate(start), start)
  {
    MonthLaterShape(start);
  }

  /** The shape of `setMonth(getMonth() + 1)`, for `NextPaymentDate` and its lemma. */
  lemma MonthLaterShape(start: Date)
    ensures var (y, m) := NextMonth(start.year, start.month);
      var r := MakeDate(start.year, start.month + 1, start.day, start.timeMs);
      && (start.day <= DaysInMonth(y, m) ==> r == DateTime(y, m, start.day, start.timeMs))
      && (start.day > DaysInMonth(y, m) ==>
            m < 11 && r == DateTime(y, m + 1, start.day - DaysInMonth(y, m), start.timeMs))
      && After(r, start)
  {
    var (y, m) := NextMonth(start.year, start.month);
    assert start.year + (start.month + 1) / 12 == y && (start.month + 1) % 12 == m;
    if start.day > DaysInMonth(y, m) {
      assert m == 1 || m == 3 || m == 5 || m == 8 || m == 10;
      var d := start.day - DaysInMonth(y, m);
      assert 1 <= d <= 3;
      assert y + (m + 1) / 12 == y && (m + 1) % 12 == m + 1;
    }
  }

  /** A December date moves to January of the next year, same day and time. */
  lemma DecemberRollsOver(start: Date)
    requires start.month == 11
    ensures NextPaymentDate(start) == DateTime(start.year + 1, 0, start.day, start.timeMs)
  {
    NextPaymentDateShape(start);
  }

  /** January 31st moves past February: to March 3rd, or March 2nd in a leap year. */
  lemma EndOfJanuaryOverflows(year: int, timeMs: int)
    requires 0 <= timeMs < MsPerDay
    ensures NextPaymentDate(DateTime(year, 0, 31, timeMs))
            == DateTime(year, 2, if IsLeapYear(year) then 2 else 3, timeMs)
  {
    NextPaymentDateShape(DateTime(year, 0, 31, timeMs));
  }

  /**
   * `new Date(now.setFullYear(now.getFullYear() + 1))`: the same month, day and time one
   * year later, normalised as `setFullYear` does.
   */
  function OneYearLater(now: Date): (r: Date)
    ensures r.year == now.year + 1 && r.timeMs == now.timeMs
    ensures After(r, now)
  {
    if now.month == 1 && now.day == 29 then
      LeapDayNextYear(now);
      MakeDate(now.year + 1, now.month, now.day, now.timeMs)
    else
      SameDayNextYear(now);
      MakeDate(now.year + 1, now.month, now.day, now.timeMs)
  }

  /** One year later keeps month, day and time, except that February 29th becomes March 1st. */
  lemma OneYearLaterShape(now: Date)
    ensures now.month == 1 && now.day == 29 ==>
              OneYearLater(now) == DateTime(now.year + 1, 2, 1, now.timeMs)
    ensures !(now.month == 1 && now.day == 29) ==>
              OneYearLater(now) == DateTime(now.year + 1, now.month, now.day, now.timeMs)
    ensures After(OneYearLater(now), now)
  {
    if now.month == 1 && now.day == 29 {
      LeapDayNextYear(now);
    } else {
      SameDayNextYear(now);
    }
  }

  lemma LeapDayNextYear(now: Date)
    requires now.month == 1 && now.day == 29
    ensures MakeDate(now.year + 1, now.month, now.day, now.timeMs) == DateTime(now.year + 1, 2, 1, now.timeMs)
  {
    assert IsLeapYear(now.year);
    assert !IsLeapYear(now.year + 1);
    assert (now.year + 1) + 1 / 12 == now.year + 1 && 1 % 12 == 1;
    assert DaysInMonth(now.year + 1, 1) == 28;
    assert (now.year + 1) + 2 / 12 == now.year + 1 && 2 % 12 == 2;
  }

  lemma SameDayNextYear(now: Date)
    requires !(now.month == 1 && now.day == 29)
    ensures MakeDate(now.year + 1, now.month, now.day, now.timeMs) == DateTime(now.year + 1, now.month, now.day, now.timeMs)
  {
    assert (now.year + 1) + now.month / 12 == now.year + 1 && now.month % 12 == now.month;
    if now.month != 1 {
      assert DaysInMonth(now.year + 1, now.month) == DaysInMonth(now.year, now.month);
    }
  }
}
