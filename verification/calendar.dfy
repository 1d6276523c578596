/** Calendar arithmetic the source obtains from the JavaScript `Date` object.
    A date is what the local getters report: full year, month index 0..11
    (`getMonth`) and day of month (`getDate`). */
module Calendar {

  datatype Date = Date(year: int, month: int, day: int)

  /** Gregorian leap years. */
  predicate IsLeapYear(y: int)
  {
    (y % 4 == 0 && y % 100 != 0) || y % 400 == 0
  }

  /** Length of month `m` (1..12) of year `y`. */
  function DaysInMonth(y: int, m: int): (n: int)
    requires 1 <= m <= 12
    ensures 28 <= n <= 31
    ensures m == 2 ==> (n == 29 <==> IsLeapYear(y))
  {
    if m == 2 then (if IsLeapYear(y) then 29 else 28)
    else if m == 4 || m == 6 || m == 9 || m == 11 then 30
    else 31
  }

  /** A date whose fields are in range. */
  predicate Valid(d: Date)
  {
    0 <= d.month < 12 && 1 <= d.day <= DaysInMonth(d.year, d.month + 1)
  }

  /** Chronological order on dates (lexicographic on year, month, day). */
  predicate Before(a: Date, b: Date)
  {
    a.year < b.year
    || (a.year == b.year && a.month < b.month)
    || (a.year == b.year && a.month == b.month && a.day < b.day)
  }

  /** The next date with the given month and day that is not before `today`:
      this year's, or next year's if this year's has already passed
      (`getUpcomingDate`). */
  function NextOccurrence(today: Date, month: int, day: int): (r: Date)
    ensures r.month == month && r.day == day
    ensures !Before(r, today)
    ensures r.year == today.year || r.year == today.year + 1
    ensures forall y :: !Before(Date(y, month, day), today) ==> r.year <= y
  {
    var thisYear := Date(today.year, month, day);
    if Before(thisYear, today) then Date(today.year + 1, month, day) else thisYear
  }

  /** An integer that orders dates chronologically (the role `getTime()` plays
      for the sort comparator). */
  function OrdinalKey(d: Date): int
  {
    (d.year * 12 + d.month) * 32 + d.day
  }

  /** On dates whose month index and day are in range, the key order is the
      chronological order. */
  lemma {:induction false} OrdinalKeyOrders(a: Date, b: Date)
    requires 0 <= a.month < 12 && 1 <= a.day <= 31
    requires 0 <= b.month < 12 && 1 <= b.day <= 31
    ensures Before(a, b) <==> OrdinalKey(a) < OrdinalKey(b)
    ensures a == b <==> OrdinalKey(a) == OrdinalKey(b)
  {
    var ma := a.year * 12 + a.month;
    var mb := b.year * 12 + b.month;
    assert OrdinalKey(a) == ma * 32 + a.day;
    assert OrdinalKey(b) == mb * 32 + b.day;
    if ma < mb {
      assert ma * 32 + 32 <= mb * 32;
    } else if mb < ma {
      assert mb * 32 + 32 <= ma * 32;
    }
    assert ma == mb <==> (a.year == b.year && a.month == b.month);
    assert ma < mb <==> (a.year < b.year || (a.year == b.year && a.month < b.month));
  }

  // ---------------------------------------------------------------------------
  // The `new Date(year, monthIndex, day)` constructor
  // ---------------------------------------------------------------------------

  /** The constructor reads years 0..99 as 1900..1999. */
  function ConstructorYear(y: int): int
  {
    if 0 <= y <= 99 then 1900 + y else y
  }

  /** Whether `new Date(y, m - 1, d).getDate() === d`: month overflow carries
      into the year, and a day outside the resulting month rolls over into a
      neighbouring month, changing `getDate()`. */
  predicate KeepsDay(y: int, m: int, d: int)
  {
    var year := ConstructorYear(y) + (m - 1) / 12;
    var month := (m - 1) % 12 + 1;
    1 <= d <= DaysInMonth(year, month)
  }

  /** For a month chosen from 1..12 the check is exactly "the day exists in
      that month", so 29 February passes only in leap years. */
  lemma KeepsDayInRange(y: int, m: int, d: int)
    requires 1 <= m <= 12
    ensures KeepsDay(y, m, d) <==> 1 <= d <= DaysInMonth(ConstructorYear(y), m)
    ensures m == 2 && d == 29 ==> (KeepsDay(y, m, d) <==> IsLeapYear(ConstructorYear(y)))
    ensures d == 31 ==> (KeepsDay(y, m, d) <==> m in {1, 3, 5, 7, 8, 10, 12})
  {
  }
}
