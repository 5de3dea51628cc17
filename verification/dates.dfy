/**
 * The proleptic Gregorian calendar of Python's `datetime.date`, as far as the
 * accounts and to-do processors use it: which (year, month, day) triples are
 * dates, the ordinal and weekday of a date, and adding a number of days
 * (`date + timedelta(days=n)`), which fails past 9999-12-31.
 */
module Dates {
  import opened Wrappers

  datatype Date = Date(year: int, month: int, day: int)

  const MinYear: int := 1
  const MaxYear: int := 9999
  const MaxDate: Date := Date(9999, 12, 31)

  predicate IsLeap(y: int) {
    y % 4 == 0 && (y % 100 != 0 || y % 400 == 0)
  }

  function DaysInMonth(y: int, m: int): (n: int)
    requires 1 <= m <= 12
    ensures 28 <= n <= 31
  {
    if m == 2 then (if IsLeap(y) then 29 else 28)
    else if m == 4 || m == 6 || m == 9 || m == 11 then 30
    else 31
  }

  /** What `date(year, month, day)` accepts; any other triple raises ValueError. */
  predicate IsValid(d: Date) {
    && MinYear <= d.year <= MaxYear
    && 1 <= d.month <= 12
    && 1 <= d.day <= DaysInMonth(d.year, d.month)
  }

  function DaysInYear(y: int): int {
    if IsLeap(y) then 366 else 365
  }

  /** Days in the years before `y`. */
  function DaysBeforeYear(y: int): int {
    var p := y - 1;
    p * 365 + p / 4 - p / 100 + p / 400
  }

  /** Days in the months of year `y` before month `m`. */
  function DaysBeforeMonth(y: int, m: int): int
    requires 1 <= m <= 12
  {
    var table := [0, 31, 59, 90, 120, 151, 181, 212, 243, 273, 304, 334];
    table[m - 1] + (if m > 2 && IsLeap(y) then 1 else 0)
  }

  /** The day number of a date, 0001-01-01 being day 1 (`date.toordinal()`). */
  function Ordinal(d: Date): int
    requires IsValid(d)
  {
    DaysBeforeYear(d.year) + DaysBeforeMonth(d.year, d.month) + d.day
  }

  /** Monday is 0 and Sunday is 6 (`date.weekday()`). */
  function Weekday(d: Date): (w: int)
    requires IsValid(d)
    ensures 0 <= w < 7
  {
    (Ordinal(d) + 6) % 7
  }

  lemma MonthStep(y: int, m: int)
    requires 1 <= m < 12
    ensures DaysBeforeMonth(y, m + 1) == DaysBeforeMonth(y, m) + DaysInMonth(y, m)
  {
  }

  lemma YearStep(y: int)
    ensures DaysBeforeYear(y + 1) == DaysBeforeYear(y) + DaysInYear(y)
  {
    var p := y - 1;
    DivStep(p, 4);
    DivStep(p, 100);
    DivStep(p, 400);
  }

  lemma DivStep(p: int, k: int)
    requires k == 4 || k == 100 || k == 400
    ensures (p + 1) / k == p / k + (if (p + 1) % k == 0 then 1 else 0)
  {
    var q, r := p / k, p % k;
    assert p == k * q + r && 0 <= r < k;
    if r + 1 == k {
      assert p + 1 == k * (q + 1);
    } else {
      assert p + 1 == k * q + (r + 1);
    }
  }

  /** The day after `d`; None after 9999-12-31, where Python overflows. */
  function NextDay(d: Date): (r: Option<Date>)
    requires IsValid(d)
    ensures r.None? <==> d == MaxDate
    ensures r.Some? ==> IsValid(r.value) && Ordinal(r.value) == Ordinal(d) + 1
  {
    if d.day < DaysInMonth(d.year, d.month) then Some(Date(d.year, d.month, d.day + 1))
    else if d.month < 12 then
      MonthStep(d.year, d.month);
      Some(Date(d.year, d.month + 1, 1))
    else if d.year < MaxYear then
      YearStep(d.year);
      Some(Date(d.year + 1, 1, 1))
    else None
  }

  /** `d + timedelta(days=n)`; None when the sum is past the last date. */
  function AddDays(d: Date, n: nat): (r: Option<Date>)
    requires IsValid(d)
    ensures r.Some? ==> IsValid(r.value) && Ordinal(r.value) == Ordinal(d) + n
    decreases n
  {
    if n == 0 then Some(d)
    else match NextDay(d)
      case None => None
      case Some(e) => AddDays(e, n - 1)
  }

  /** The last date has the largest ordinal. */
  lemma OrdinalBound(d: Date)
    requires IsValid(d)
    ensures Ordinal(d) <= Ordinal(MaxDate)
  {
    DaysBeforeYearMonotone(d.year, MaxYear);
    assert DaysBeforeMonth(d.year, d.month) + d.day <= DaysInYear(d.year);
    YearStep(d.year);
    YearStep(MaxYear);
  }

  lemma {:induction false} DaysBeforeYearMonotone(a: int, b: int)
    requires a <= b
    ensures DaysBeforeYear(a) + (if a < b then DaysInYear(a) else 0) <= DaysBeforeYear(b)
    decreases b - a
  {
    if a < b {
      YearStep(a);
      if a + 1 < b {
        DaysBeforeYearMonotone(a + 1, b);
      }
    }
  }

  /** Adding days fails exactly when it would pass the last date. */
  lemma {:induction false} AddDaysFails(d: Date, n: nat)
    requires IsValid(d)
    ensures AddDays(d, n).None? <==> Ordinal(d) + n > Ordinal(MaxDate)
    decreases n
  {
    OrdinalBound(d);
    if n > 0 {
      match NextDay(d)
      case None =>
      case Some(e) =>
        AddDaysFails(e, n - 1);
    }
  }

  /** Adding `n` days moves the weekday `n` places on. */
  lemma AddDaysWeekday(d: Date, n: nat)
    requires IsValid(d) && AddDays(d, n).Some?
    ensures Weekday(AddDays(d, n).value) == (Weekday(d) + n) % 7
  {
    WeekdayOfLater(d, AddDays(d, n).value, n);
  }

  /** A date `n` days after another falls `n` weekdays after it. */
  lemma WeekdayOfLater(d: Date, e: Date, n: int)
    requires IsValid(d) && IsValid(e) && Ordinal(e) == Ordinal(d) + n
    ensures Weekday(e) == (Weekday(d) + n) % 7
  {
    ShiftMod7(Ordinal(d) + 6, n);
  }

  lemma ShiftMod7(o: int, n: int)
    ensures (o + n) % 7 == (o % 7 + n) % 7
  {
    var q := o / 7;
    assert o == 7 * q + o % 7;
    ShiftByMultiple(o % 7 + n, q);
  }

  lemma ShiftByMultiple(a: int, q: int)
    ensures (7 * q + a) % 7 == a % 7
  {
  }
}
