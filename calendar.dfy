/** The business-day counter of the data tools (`__business_days`).

    A date is its proleptic Gregorian ordinal, as Python's `date.toordinal()`
    numbers it: day 1 is 0001-01-01, a Monday.  Adding or subtracting a
    `timedelta` of n days is adding or subtracting n, and the `.days` of a
    difference of two dates is the difference of their ordinals.
 */
module Calendar {

  type Day = int

  /** `WEEKDAY_FRIDAY` in `__business_days`. */
  const Friday := 4

  /** `date.weekday()`: Monday is 0 and Sunday is 6. */
  function Weekday(d: Day): (w: int)
    ensures 0 <= w < 7
  {
    (d + 6) % 7
  }

  /** Monday to Friday. */
  predicate IsBusinessDay(d: Day) {
    Weekday(d) <= Friday
  }

  /** The start date of a range: a Saturday or Sunday is moved forward to the
      next Monday, any other day is kept.  The result is the first business day
      on or after `d`. */
  function ForwardToMonday(d: Day): (r: Day)
    ensures IsBusinessDay(r) && d <= r <= d + 2
    ensures IsBusinessDay(d) ==> r == d
    ensures !IsBusinessDay(d) ==> Weekday(r) == 0 && r == d + (7 - Weekday(d))
    ensures forall k :: d <= k < r ==> !IsBusinessDay(k)
  {
    if Weekday(d) > Friday then d + (7 - Weekday(d)) else d
  }

  /** The end date of a range: a Saturday or Sunday is moved back to the
      preceding Friday, any other day is kept.  The result is the last business
      day on or before `d`. */
  function RewindToFriday(d: Day): (r: Day)
    ensures IsBusinessDay(r) && d - 2 <= r <= d
    ensures IsBusinessDay(d) ==> r == d
    ensures !IsBusinessDay(d) ==> Weekday(r) == Friday && r == d - (Weekday(d) - Friday)
    ensures forall k :: r < k <= d ==> !IsBusinessDay(k)
  {
    if Weekday(d) > Friday then d - (Weekday(d) - Friday) else d
  }

  /** The arithmetic of `__business_days` once both ends are business days:
      whole weeks count 5, the weekday gap plus one gives the rest, and a gap
      that wraps past a weekend gets 5 added. */
  function WeekdaySpan(s: Day, e: Day): (n: int)
    ensures n >= 0
    ensures s > e ==> n == 0
  {
    if s > e then 0
    else
      var diffDays := e - s + 1;
      var weeks := diffDays / 7;
      var remainder := Weekday(e) - Weekday(s) + 1;
      var remainder := if remainder != 0 && Weekday(e) < Weekday(s) then 5 + remainder else remainder;
      weeks * 5 + remainder
  }

  /** `__business_days(start_date, end_date)`: never negative, and 0 when
      the normalised start comes after the normalised end. */
  function BusinessDays(start: Day, end: Day): (n: int)
    ensures n >= 0
    ensures ForwardToMonday(start) > RewindToFriday(end) ==> n == 0
  {
    WeekdaySpan(ForwardToMonday(start), RewindToFriday(end))
  }

  /** The reference definition: the number of days from Monday to Friday in
      the inclusive range [start, end]. */
  function CountBusinessDays(start: Day, end: Day): (n: nat)
    ensures n <= if start <= end then end - start + 1 else 0
    decreases end - start
  {
    if end < start then 0
    else CountBusinessDays(start, end - 1) + (if IsBusinessDay(end) then 1 else 0)
  }

  /** Normalising an already normalised date changes nothing. */
  lemma NormalisationIdempotent(d: Day)
    ensures ForwardToMonday(ForwardToMonday(d)) == ForwardToMonday(d)
    ensures RewindToFriday(RewindToFriday(d)) == RewindToFriday(d)
  {
  }

  /** The day before `d` is one weekday earlier, Sunday before Monday. */
  lemma WeekdayBefore(d: Day)
    ensures Weekday(d - 1) == if Weekday(d) == 0 then 6 else Weekday(d) - 1
  {
  }

  /** The index of the Monday-to-Sunday week that holds `d`: with it, `e - s`
      is `7 * WeekIndex(e) - 7 * WeekIndex(s)` plus the weekday gap. */
  function WeekIndex(d: Day): int {
    (d + 6) / 7
  }

  /** Once both ends are business days, the arithmetic is five days for each
      week between them plus the weekday gap plus one. */
  lemma WeekdaySpanClosedForm(s: Day, e: Day)
    requires IsBusinessDay(s) && IsBusinessDay(e) && s <= e
    ensures e - s == 7 * (WeekIndex(e) - WeekIndex(s)) + Weekday(e) - Weekday(s)
    ensures WeekdaySpan(s, e) == 5 * (WeekIndex(e) - WeekIndex(s)) + Weekday(e) - Weekday(s) + 1
  {
    var k, g := WeekIndex(e) - WeekIndex(s), Weekday(e) - Weekday(s) + 1;
    assert e - s + 1 == 7 * k + g;
    if g >= 0 {
      assert (e - s + 1) / 7 == k;
    } else {
      assert e - s + 1 == 7 * (k - 1) + (g + 7);
      assert (e - s + 1) / 7 == k - 1;
    }
  }

  /** Between two business days with nothing but weekend days strictly between
      them, the span from a fixed business day grows by exactly one. */
  lemma WeekdaySpanNext(s: Day, e0: Day, e1: Day)
    requires IsBusinessDay(s) && IsBusinessDay(e0) && IsBusinessDay(e1)
    requires s <= e1 && e0 < e1
    requires e0 == RewindToFriday(e1 - 1)
    ensures WeekdaySpan(s, e1) == WeekdaySpan(s, e0) + 1
  {
    WeekdayBefore(e1);
    WeekdayBefore(e1 - 1);
    WeekdaySpanClosedForm(s, e1);
    if s > e0 {
      // s lies in (e0, e1] and nothing strictly between them is a business day
      assert s == e1;
    } else {
      WeekdaySpanClosedForm(s, e0);
      if Weekday(e1) == 0 {
        assert e0 == e1 - 3 && Weekday(e0) == Friday;
        assert WeekIndex(e0) == WeekIndex(e1) - 1;
      } else {
        assert e0 == e1 - 1 && Weekday(e0) == Weekday(e1) - 1;
        assert WeekIndex(e0) == WeekIndex(e1);
      }
    }
  }

  /** Moving the end of the range forward by one calendar day adds one when
      that day is a business day and nothing when it falls on a weekend. */
  lemma BusinessDaysStep(start: Day, end: Day)
    requires start <= end
    ensures BusinessDays(start, end) == BusinessDays(start, end - 1) + (if IsBusinessDay(end) then 1 else 0)
  {
    var s := ForwardToMonday(start);
    WeekdayBefore(end);
    if IsBusinessDay(end) {
      assert s <= end;
      WeekdaySpanNext(s, RewindToFriday(end - 1), end);
    } else {
      WeekdayBefore(end - 1);
      assert RewindToFriday(end) == RewindToFriday(end - 1);
    }
  }

  /** `__business_days` counts exactly the days from Monday to Friday in the
      inclusive range [start, end]. */
  lemma {:induction false} BusinessDaysCorrect(start: Day, end: Day)
    ensures BusinessDays(start, end) == CountBusinessDays(start, end)
    decreases end - start
  {
    if end >= start {
      BusinessDaysCorrect(start, end - 1);
      BusinessDaysStep(start, end);
    }
  }

  /** The result is never negative and never exceeds the inclusive calendar
      span; it is 0 exactly when the range holds no business day. */
  lemma BusinessDaysBounds(start: Day, end: Day)
    ensures 0 <= BusinessDays(start, end) <= if start <= end then end - start + 1 else 0
    ensures BusinessDays(start, end) == 0 <==> ForwardToMonday(start) > RewindToFriday(end)
  {
    BusinessDaysCorrect(start, end);
    var s, e := ForwardToMonday(start), RewindToFriday(end);
    if s <= e {
      assert start <= e <= end && IsBusinessDay(e);
      CountBusinessDaysPositive(start, end, e);
    }
  }

  /** A range holding a business day counts at least one. */
  lemma {:induction false} CountBusinessDaysPositive(start: Day, end: Day, d: Day)
    requires start <= d <= end && IsBusinessDay(d)
    ensures CountBusinessDays(start, end) >= 1
    decreases end - start
  {
    if d < end {
      CountBusinessDaysPositive(start, end - 1, d);
    }
  }

  /** The worked cases: a weekday alone counts 1; Saturday to the following
      Sunday counts 0; Monday to the Friday of the same week counts 5; Friday
      to the following Monday counts 2 (the wrap-around correction). */
  lemma BusinessDaysExamples(d: Day)
    ensures IsBusinessDay(d) ==> BusinessDays(d, d) == 1
    ensures Weekday(d) == 5 ==> BusinessDays(d, d + 1) == 0
    ensures Weekday(d) == 0 ==> BusinessDays(d, d + 4) == 5
    ensures Weekday(d) == Friday ==> BusinessDays(d, d + 3) == 2
  {
  }
}
