/** Naive calendar date-times as Python's `datetime` and `date` hold them, with
    Python's validity rules and its field-by-field comparison. */
module Calendar {

  datatype DateTime = DateTime(year: int, month: int, day: int, hour: int, minute: int, second: int)

  datatype Date = Date(year: int, month: int, day: int)

  predicate IsLeapYear(y: int) {
    y % 4 == 0 && (y % 100 != 0 || y % 400 == 0)
  }

  function DaysInMonth(y: int, m: int): (n: int)
    requires 1 <= m <= 12
    ensures 28 <= n <= 31
  {
    if m == 2 then (if IsLeapYear(y) then 29 else 28)
    else if m == 4 || m == 6 || m == 9 || m == 11 then 30
    else 31
  }

  /** Years 1..9999 (datetime.MINYEAR..MAXYEAR), a month, a day that month has. */
  predicate ValidDate(d: Date) {
    1 <= d.year <= 9999 && 1 <= d.month <= 12 && 1 <= d.day <= DaysInMonth(d.year, d.month)
  }

  /** What the `datetime` constructor accepts (seconds stop at 59). */
  predicate Valid(dt: DateTime) {
    ValidDate(DateOf(dt)) && 0 <= dt.hour < 24 && 0 <= dt.minute < 60 && 0 <= dt.second < 60
  }

  /** `datetime.date()`: drop the time of day. */
  function DateOf(dt: DateTime): Date {
    Date(dt.year, dt.month, dt.day)
  }

  /** `a <= b` on dates: year first, then month, then day. */
  predicate DateNotAfter(a: Date, b: Date) {
    a.year < b.year ||
    (a.year == b.year && (a.month < b.month || (a.month == b.month && a.day <= b.day)))
  }

  /** `a <= b` on naive date-times: the dates first, then hour, minute, second. */
  predicate NotAfter(a: DateTime, b: DateTime) {
    if DateOf(a) != DateOf(b) then
      DateNotAfter(DateOf(a), DateOf(b))
    else
      a.hour < b.hour ||
      (a.hour == b.hour && (a.minute < b.minute || (a.minute == b.minute && a.second <= b.second)))
  }

  /** `<=` on date-times is a total order, so a range [start, end] is an interval. */
  lemma NotAfterTotalOrder(a: DateTime, b: DateTime, c: DateTime)
    ensures NotAfter(a, a)
    ensures NotAfter(a, b) || NotAfter(b, a)
    ensures NotAfter(a, b) && NotAfter(b, a) ==> a == b
    ensures NotAfter(a, b) && NotAfter(b, c) ==> NotAfter(a, c)
  {
  }

  /** Comparing the dates of two date-times is coarser than comparing the date-times. */
  lemma NotAfterDate(a: DateTime, b: DateTime)
    ensures NotAfter(a, b) ==> DateNotAfter(DateOf(a), DateOf(b))
  {
  }

  /** A date as one number, day-major digits last: with month and day below 100 its
      numeric order is the calendar order. */
  function DateKey(d: Date): int {
    d.year * 10000 + d.month * 100 + d.day
  }

  /** A date-time as one number: the date key, then the second of the day. */
  function DateTimeKey(dt: DateTime): int {
    DateKey(DateOf(dt)) * 100000 + dt.hour * 3600 + dt.minute * 60 + dt.second
  }

  /** The field-by-field date comparison is the order of the date keys. */
  lemma DateNotAfterByKey(a: Date, b: Date)
    requires ValidDate(a) && ValidDate(b)
    ensures DateNotAfter(a, b) <==> DateKey(a) <= DateKey(b)
  {
  }

  /** The field-by-field date-time comparison is the order of the date-time keys. */
  lemma NotAfterByKey(a: DateTime, b: DateTime)
    requires Valid(a) && Valid(b)
    ensures NotAfter(a, b) <==> DateTimeKey(a) <= DateTimeKey(b)
  {
    DateNotAfterByKey(DateOf(a), DateOf(b));
  }

  /** The 29th of February is a valid date exactly in leap years. */
  lemma LeapDayValid(dt: DateTime)
    requires dt.month == 2 && dt.day == 29
    ensures Valid(dt) <==> && 1 <= dt.year <= 9999 && IsLeapYear(dt.year)
                           && 0 <= dt.hour < 24 && 0 <= dt.minute < 60 && 0 <= dt.second < 60
  {
  }
}
