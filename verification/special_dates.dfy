/** The special-dates list on the profile page
    (src/components/profile/SpecialDates.tsx): which entries are shown, in
    which order, and the relative label each one carries. */
module SpecialDatesView {
  import opened Wrappers
  import opened Seqs
  import opened Calendar
  import opened Couples

  /** `couple?.anniversary` is truthy: present and not the timestamp 0. */
  predicate HasAnniversary(c: Option<Couple>)
  {
    c.Some? && c.value.anniversary.Some? && c.value.anniversary.value != 0
  }

  /** The pseudo-entry standing for the couple's anniversary. */
  function AnniversaryEntry(ts: int): SpecialDate
  {
    SpecialDate(AnniversaryId, "Anniversary", ts, Some(true))
  }

  /** `recurring ?? true`. */
  predicate IsRecurring(d: SpecialDate)
  {
    d.recurring.GetOr(true)
  }

  /** A stored entry with its missing recurring flag made explicit. */
  function Normalize(d: SpecialDate): (r: SpecialDate)
    ensures r.recurring.Some? && (r.recurring.value <==> IsRecurring(d))
    ensures r.(recurring := d.recurring) == d
  {
    d.(recurring := Some(IsRecurring(d)))
  }

  /** The stored entries of the couple shown, if any. */
  function Stored(c: Option<Couple>): seq<SpecialDate>
  {
    if c.Some? then DatesOf(c.value) else []
  }

  /** Where the stored entries start in `Items`. */
  function Offset(c: Option<Couple>): nat
  {
    if HasAnniversary(c) then 1 else 0
  }

  /** Every entry the list shows, before partitioning: the anniversary first
      when set, then each stored entry in stored order. */
  function Items(c: Option<Couple>): (r: seq<SpecialDate>)
    ensures |r| == Offset(c) + |Stored(c)|
    ensures HasAnniversary(c) ==> r[0] == AnniversaryEntry(c.value.anniversary.value)
    ensures forall i :: 0 <= i < |Stored(c)| ==> r[Offset(c) + i] == Normalize(Stored(c)[i])
  {
    var head := if HasAnniversary(c) then [AnniversaryEntry(c.value.anniversary.value)] else [];
    var tail := Map(Stored(c), Normalize);
    assert |head| == Offset(c);
    head + tail
  }

  function RecurringItems(c: Option<Couple>): seq<SpecialDate>
  {
    Filter(Items(c), IsRecurring)
  }

  predicate IsOneOff(d: SpecialDate)
  {
    !IsRecurring(d)
  }

  function OneOffItems(c: Option<Couple>): seq<SpecialDate>
  {
    Filter(Items(c), IsOneOff)
  }

  /** When the anniversary is set it heads the recurring group. */
  lemma AnniversaryHeadsRecurring(c: Option<Couple>)
    requires HasAnniversary(c)
    ensures |RecurringItems(c)| > 0 && RecurringItems(c)[0] == AnniversaryEntry(c.value.anniversary.value)
  {
    var a := [AnniversaryEntry(c.value.anniversary.value)];
    var rest := Map(Stored(c), Normalize);
    assert Items(c) == a + rest;
    FilterAppend(a, rest, IsRecurring);
    FilterAll(a, IsRecurring);
  }

  /** The two groups split the shown entries: each entry lands in exactly one
      group, according to its flag (absent meaning recurring). */
  lemma GroupsPartitionItems(c: Option<Couple>)
    ensures forall i :: 0 <= i < |RecurringItems(c)| ==> IsRecurring(RecurringItems(c)[i])
    ensures forall i :: 0 <= i < |OneOffItems(c)| ==> !IsRecurring(OneOffItems(c)[i])
    ensures |RecurringItems(c)| + |OneOffItems(c)| == |Items(c)|
    ensures multiset(RecurringItems(c)) + multiset(OneOffItems(c)) == multiset(Items(c))
  {
    FilterPartition(Items(c), IsRecurring, IsOneOff);
  }

  // ---------------------------------------------------------------------------
  // Ordering
  // ---------------------------------------------------------------------------

  /** `local(ts)` is the host's local calendar date of a timestamp. */
  ghost predicate LocalCalendar(local: int -> Date)
  {
    forall ts :: Valid(local(ts))
  }

  /** `getUpcomingDate(ts)`. */
  function Upcoming(today: Date, local: int -> Date, ts: int): Date
  {
    NextOccurrence(today, local(ts).month, local(ts).day)
  }

  /** The comparator key of the recurring group. */
  function UpcomingKey(today: Date, local: int -> Date): SpecialDate -> int
  {
    (d: SpecialDate) => OrdinalKey(Upcoming(today, local, d.date))
  }

  /** The key of the one-off group: the timestamp itself. */
  function DateKey(d: SpecialDate): int
  {
    d.date
  }

  /** `dates`: the recurring group by next occurrence, then the one-off group
      oldest first. */
  function Ordered(c: Option<Couple>, today: Date, local: int -> Date): (r: seq<SpecialDate>)
    ensures |r| == |Items(c)|
    ensures multiset(r) == multiset(Items(c))
    ensures forall i :: 0 <= i < |r| ==> (IsRecurring(r[i]) <==> i < |RecurringItems(c)|)
    ensures SortedBy(r[..|RecurringItems(c)|], UpcomingKey(today, local))
    ensures SortedBy(r[|RecurringItems(c)|..], DateKey)
  {
    GroupsPartitionItems(c);
    var rec := SortBy(RecurringItems(c), UpcomingKey(today, local));
    var one := SortBy(OneOffItems(c), DateKey);
    GroupsSideBySide(rec, one, RecurringItems(c), OneOffItems(c), IsRecurring);
    rec + one
  }

  /** In the recurring group an earlier entry's next occurrence is never after
      a later entry's: the key order is the calendar order. */
  lemma RecurringInCalendarOrder(c: Option<Couple>, today: Date, local: int -> Date, i: int, j: int)
    requires LocalCalendar(local)
    requires 0 <= i < j < |RecurringItems(c)|
    ensures var r := Ordered(c, today, local);
      !Before(Upcoming(today, local, r[j].date), Upcoming(today, local, r[i].date))
  {
    var r := Ordered(c, today, local);
    var rec := r[..|RecurringItems(c)|];
    assert rec[i] == r[i] && rec[j] == r[j];
    var a := Upcoming(today, local, r[i].date);
    var b := Upcoming(today, local, r[j].date);
    assert UpcomingKey(today, local)(rec[i]) <= UpcomingKey(today, local)(rec[j]);
    assert Valid(local(r[i].date)) && Valid(local(r[j].date));
    OrdinalKeyOrders(b, a);
  }

  /** Each next occurrence is on or after today and within a year of it. */
  lemma UpcomingNotPast(today: Date, local: int -> Date, ts: int)
    ensures !Before(Upcoming(today, local, ts), today)
    ensures Upcoming(today, local, ts).year <= today.year + 1
    ensures Upcoming(today, local, ts).month == local(ts).month && Upcoming(today, local, ts).day == local(ts).day
  {
  }

  // ---------------------------------------------------------------------------
  // Relative labels
  // ---------------------------------------------------------------------------

  /** The label templates; the numbers are those shown. */
  datatype Label =
    | Today
    | Tomorrow
    | UpcomingDays(days: int)
    | UpcomingWeeks(weeks: int)
    | UpcomingMonths(months: int)
    | InDays(days: int)
    | DaysAgo(days: int)
    | YearsAndMonthsAgo(years: int, months: int)
    | YearsAgo(years: int)
    | MonthsAgo(months: int)
    | WeeksAgo(weeks: int)

  /** `Math.round(a / b)`: halves round up. */
  function RoundDiv(a: int, b: int): (q: int)
    requires b > 0
    ensures 2 * b * q - b <= 2 * a < 2 * b * q + b
  {
    (2 * a + b) / (2 * b)
  }

  function Abs(x: int): (r: nat)
    ensures r == x || r == -x
  {
    if x < 0 then -x else x
  }

  /** The label of a recurring entry, from the whole days until its next
      occurrence. */
  function RecurringLabel(days: int): (l: Label)
    ensures days == 0 <==> l == Today
    ensures days == 1 <==> l == Tomorrow
    ensures 2 <= days <= 7 ==> l == UpcomingDays(days)
    ensures 8 <= days <= 30 ==> l.UpcomingWeeks? && 1 <= l.weeks <= 4
                                 && 14 * l.weeks - 7 <= 2 * days < 14 * l.weeks + 7
    ensures days > 30 ==> l.UpcomingMonths? && 1 <= l.months
                          && 60 * l.months - 30 <= 2 * days < 60 * l.months + 30
  {
    if days == 0 then Today
    else if days == 1 then Tomorrow
    else
      var a := Abs(days);
      if a <= 7 then UpcomingDays(a)
      else if a <= 30 then UpcomingWeeks(RoundDiv(a, 7))
      else UpcomingMonths(RoundDiv(a, 30))
  }

  /** Years and months between two dates as the source computes them: a
      negative month difference, or a zero one with the day not yet reached,
      borrows a year and takes the month difference modulo 12. */
  function YearsMonthsAsWritten(today: Date, date: Date): (r: (int, int))
    ensures Valid(today) && Valid(date) ==>
      && 0 <= r.1 < 12
      && r.0 * 12 + r.1 == ElapsedMonths(today, date)
           + (if today.day >= date.day then 0 else if today.month == date.month then -11 else 1)
  {
    var years := today.year - date.year;
    var months := today.month - date.month;
    if months < 0 || (months == 0 && today.day < date.day) then (years - 1, (months + 12) % 12)
    else (years, months)
  }

  /** Whole calendar months from `date` to `today`. */
  function ElapsedMonths(today: Date, date: Date): int
  {
    (today.year - date.year) * 12 + (today.month - date.month) - (if today.day < date.day then 1 else 0)
  }

  /** Whole years and remaining months elapsed from `date` to `today`. */
  function YearsMonthsElapsed(today: Date, date: Date): (r: (int, int))
    requires Valid(today) && Valid(date) && !Before(today, date)
    ensures r.0 >= 0 && 0 <= r.1 < 12
    ensures r.0 * 12 + r.1 == ElapsedMonths(today, date)
  {
    var n := ElapsedMonths(today, date);
    ElapsedMonthsNonNegative(today, date);
    (n / 12, n % 12)
  }

  lemma ElapsedMonthsNonNegative(today: Date, date: Date)
    requires Valid(today) && Valid(date) && !Before(today, date)
    ensures ElapsedMonths(today, date) >= 0
    ensures ElapsedMonths(today, date) == (today.year * 12 + today.month) - (date.year * 12 + date.month)
                                          - (if today.day < date.day then 1 else 0)
  {
    var dy := today.year - date.year;
    assert (today.year - date.year) * 12 == today.year * 12 - date.year * 12;
    if dy > 0 {
      assert dy * 12 >= 12;
    }
  }

  /** `n` months after `date`, same day, has been reached by `today` and
      `n + 1` months after has not: the count is exact. */
  lemma ElapsedMonthsBrackets(today: Date, date: Date)
    requires Valid(today) && Valid(date) && !Before(today, date)
    ensures var n := ElapsedMonths(today, date);
      var start := date.year * 12 + date.month;
      var now := today.year * 12 + today.month;
      && n >= 0
      && (start + n < now || (start + n == now && date.day <= today.day))
      && (now < start + n + 1 || (now == start + n + 1 && today.day < date.day))
  {
    ElapsedMonthsNonNegative(today, date);
  }

  /** The shared shape of the one-off label for past dates. */
  function PastLabel(absDays: int, ym: (int, int)): Label
  {
    var (years, months) := ym;
    if years > 0 then (if months > 0 then YearsAndMonthsAgo(years, months) else YearsAgo(years))
    else if months > 0 then MonthsAgo(months)
    else WeeksAgo(absDays / 7)
  }

  /** The label of a one-off entry as written. `diffDays` is the ceiling of
      the day difference from today's midnight to the date. */
  function OneOffLabelAsWritten(diffDays: int, today: Date, date: Date): (l: Label)
    ensures diffDays >= 0 <==> l == InDays(diffDays)
    ensures -14 < diffDays < 0 ==> l == DaysAgo(-diffDays)
    ensures diffDays <= -14 ==> l == PastLabel(-diffDays, YearsMonthsAsWritten(today, date))
  {
    if diffDays >= 0 then InDays(diffDays)
    else
      var a := -diffDays;
      if a < 14 then DaysAgo(a)
      else PastLabel(a, YearsMonthsAsWritten(today, date))
  }

  /** What the label as written says about a date at least 14 days back, in
      terms of the months actually elapsed: exact once the day of month is
      reached; one month too many when it is not and the months differ; and
      whole years only, eleven months short, in the same month. */
  lemma OneOffLabelAsWrittenMonths(diffDays: int, today: Date, date: Date)
    requires Valid(today) && Valid(date) && !Before(today, date) && diffDays <= -14
    ensures var l := OneOffLabelAsWritten(diffDays, today, date);
      var n := ElapsedMonths(today, date);
      && (today.day >= date.day ==> l == OneOffLabel(diffDays, today, date))
      && (today.day < date.day && today.month != date.month ==>
            && (n + 1) % 12 != 0
            && (n + 1 >= 12 ==> l == YearsAndMonthsAgo((n + 1) / 12, (n + 1) % 12))
            && (n + 1 < 12 ==> l == MonthsAgo(n + 1)))
      && (today.day < date.day && today.month == date.month ==>
            && n % 12 == 11
            && (n >= 12 ==> l == YearsAgo(n / 12))
            && (n < 12 ==> l == WeeksAgo(-diffDays / 7)))
  {
    var n := ElapsedMonths(today, date);
    ElapsedMonthsNonNegative(today, date);
    var ym := YearsMonthsAsWritten(today, date);
    var e := ym.0 * 12 + ym.1;
    assert 0 <= ym.1 < 12;
    assert ym.0 == e / 12 && ym.1 == e % 12 by {
      DivModOf(ym.0, ym.1, e);
    }
    if today.day >= date.day {
      var c := YearsMonthsElapsed(today, date);
      assert c.0 == n / 12 && c.1 == n % 12 by {
        DivModOf(c.0, c.1, n);
      }
    } else if today.month != date.month {
      assert e == n + 1;
    } else {
      assert e == n - 11;
      assert ym.1 == 0;
    }
  }

  /** A quotient and remainder by 12 are determined by the number. */
  lemma DivModOf(q: int, m: int, e: int)
    requires 0 <= m < 12 && q * 12 + m == e
    ensures q == e / 12 && m == e % 12
  {
  }

  /** A date more than a year back whose day of month is not reached yet,
      in another month, is labelled with one month too many. */
  lemma OneOffLabelAddsMonth()
    ensures OneOffLabelAsWritten(-420, Date(2024, 2, 5), Date(2023, 0, 10)) == YearsAndMonthsAgo(1, 2)
    ensures OneOffLabel(-420, Date(2024, 2, 5), Date(2023, 0, 10)) == YearsAndMonthsAgo(1, 1)
  {
  }

  /** A date 361 days back whose day of month is still ahead is labelled in
      weeks: eleven elapsed months become zero. */
  lemma OneOffLabelDropsElevenMonths()
    ensures OneOffLabelAsWritten(-361, Date(2024, 2, 5), Date(2023, 2, 10)) == WeeksAgo(51)
    ensures ElapsedMonths(Date(2024, 2, 5), Date(2023, 2, 10)) == 11
  {
  }

  /** The one-off label with the elapsed years and months counted exactly. */
  function OneOffLabel(diffDays: int, today: Date, date: Date): (l: Label)
    requires diffDays < 0 ==> Valid(today) && Valid(date) && !Before(today, date)
    ensures diffDays >= 0 <==> l == InDays(diffDays)
    ensures -14 < diffDays < 0 ==> l == DaysAgo(-diffDays)
    ensures diffDays <= -14 ==>
      var n := ElapsedMonths(today, date);
      && (n >= 12 && n % 12 == 0 ==> l == YearsAgo(n / 12))
      && (n >= 12 && n % 12 != 0 ==> l == YearsAndMonthsAgo(n / 12, n % 12))
      && (1 <= n < 12 ==> l == MonthsAgo(n))
      && (n == 0 ==> l == WeeksAgo(-diffDays / 7))
  {
    if diffDays >= 0 then InDays(diffDays)
    else
      var a := -diffDays;
      if a < 14 then DaysAgo(a)
      else PastLabel(a, YearsMonthsElapsed(today, date))
  }
}
