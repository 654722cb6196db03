/** Calendar arithmetic of the automation schedule (platform/automation/services.py), over the proleptic
    Gregorian calendar of section 3.2.1 of ISO 8601:2004 and the years 1 to 9999 a datetime can hold. */
module Calendar {
  import opened Wrappers

  datatype Date = Date(year: int, month: int, day: int)

  /** A point in time: a date and the microseconds since its midnight, in UTC. */
  datatype Moment = Moment(date: Date, micros: int)

  datatype Cadence = Once | Daily | Weekly | Monthly

  datatype DateError = OutOfRange

  const MAX_YEAR := 9999
  const DAY_MICROS := 86400000000

  predicate Leap(y: int) {
    y % 4 == 0 && (y % 100 != 0 || y % 400 == 0)
  }

  function MonthLength(y: int, m: int): int {
    if m == 2 then (if Leap(y) then 29 else 28)
    else if m == 4 || m == 6 || m == 9 || m == 11 then 30
    else 31
  }

  predicate ValidDate(d: Date) {
    1 <= d.year <= MAX_YEAR && 1 <= d.month <= 12 && 1 <= d.day <= MonthLength(d.year, d.month)
  }

  predicate Valid(t: Moment) {
    ValidDate(t.date) && 0 <= t.micros < DAY_MICROS
  }

  /** Days in the years before y, from year 1. */
  function DaysBeforeYear(y: int): int {
    365 * (y - 1) + (y - 1) / 4 - (y - 1) / 100 + (y - 1) / 400
  }

  function DaysBeforeMonth(y: int, m: int): int
    requires 1 <= m
    decreases m
  {
    if m == 1 then 0 else DaysBeforeMonth(y, m - 1) + MonthLength(y, m - 1)
  }

  /** The day number, 1 for the first of January of year 1. */
  function Ordinal(d: Date): int
    requires 1 <= d.month
  {
    DaysBeforeYear(d.year) + DaysBeforeMonth(d.year, d.month) + d.day
  }

  function Instant(t: Moment): int
    requires 1 <= t.date.month
  {
    Ordinal(t.date) * DAY_MICROS + t.micros
  }

  lemma MonthsOfYear(y: int)
    ensures DaysBeforeMonth(y, 12) == 306 + MonthLength(y, 2)
  {
    assert DaysBeforeMonth(y, 3) == 31 + MonthLength(y, 2);
    assert DaysBeforeMonth(y, 5) == DaysBeforeMonth(y, 3) + 61;
    assert DaysBeforeMonth(y, 7) == DaysBeforeMonth(y, 5) + 61;
    assert DaysBeforeMonth(y, 9) == DaysBeforeMonth(y, 7) + 62;
    assert DaysBeforeMonth(y, 11) == DaysBeforeMonth(y, 9) + 61;
  }

  /** The multiples of n passed between two consecutive numbers. */
  lemma MultiplesPassed(y: int, n: int)
    requires n == 4 || n == 100 || n == 400
    ensures y / n - (y - 1) / n == if y % n == 0 then 1 else 0
  {}

  lemma LeapByMultiples(y: int)
    ensures y % 400 == 0 ==> y % 100 == 0
    ensures y % 100 == 0 ==> y % 4 == 0
  {}

  lemma YearLength(y: int)
    ensures DaysBeforeYear(y + 1) - DaysBeforeYear(y) == DaysBeforeMonth(y, 12) + MonthLength(y, 12)
  {
    MonthsOfYear(y);
    MultiplesPassed(y, 4);
    MultiplesPassed(y, 100);
    MultiplesPassed(y, 400);
    LeapByMultiples(y);
  }

  /** The calendar month after this one. */
  function NextMonth(y: int, m: int): (int, int) {
    (y + m / 12, m % 12 + 1)
  }

  lemma MonthsFollow(y: int, m: int)
    requires 1 <= m <= 12
    ensures var (y', m') := NextMonth(y, m);
            1 <= m' <= 12 && 12 * y' + m' == 12 * y + m + 1 &&
            Ordinal(Date(y', m', 1)) == Ordinal(Date(y, m, 1)) + MonthLength(y, m)
  {
    if m == 12 {
      YearLength(y);
    } else {
      assert m / 12 == 0 && m % 12 == m;
    }
  }

  function NextDay(d: Date): Result<Date, DateError> {
    if d.day < MonthLength(d.year, d.month) then Ok(d.(day := d.day + 1))
    else
      var (y, m) := NextMonth(d.year, d.month);
      if y > MAX_YEAR then Err(OutOfRange) else Ok(Date(y, m, 1))
  }

  function AddDays(d: Date, n: nat): Result<Date, DateError>
    decreases n
  {
    if n == 0 then Ok(d)
    else match NextDay(d)
      case Err(e) => Err(e)
      case Ok(next) => AddDays(next, n - 1)
  }

  lemma {:induction false} AddDaysCounts(d: Date, n: nat)
    requires ValidDate(d)
    ensures AddDays(d, n).Ok? ==> ValidDate(AddDays(d, n).value) && Ordinal(AddDays(d, n).value) == Ordinal(d) + n
    ensures d.year < MAX_YEAR && n <= 31 ==> AddDays(d, n).Ok?
    decreases n
  {
    if n > 0 {
      MonthsFollow(d.year, d.month);
      if NextDay(d).Ok? {
        AddDaysCounts(NextDay(d).value, n - 1);
        if d.year < MAX_YEAR && n <= 31 && NextDay(d).value.year == MAX_YEAR {
          DaysInJanuary(NextDay(d).value, n - 1);
        }
      }
    }
  }

  lemma {:induction false} DaysInJanuary(d: Date, n: nat)
    requires d.month == 1 && 1 <= d.day && d.day + n <= 31
    ensures AddDays(d, n) == Ok(d.(day := d.day + n))
    decreases n
  {
    if n > 0 { DaysInJanuary(d.(day := d.day + 1), n - 1); }
  }

  /** The lengths of the months. */
  lemma MonthTable(y: int, m: int)
    requires 1 <= m <= 12
    ensures m in {1, 3, 5, 7, 8, 10, 12} ==> MonthLength(y, m) == 31
    ensures m in {4, 6, 9, 11} ==> MonthLength(y, m) == 30
    ensures m == 2 ==> MonthLength(y, m) == if y % 400 == 0 || (y % 4 == 0 && y % 100 != 0) then 29 else 28
  {
    LeapByMultiples(y);
  }

  /** The days of January of year 1 are numbered from 1, those of January 1970 from 719163. */
  lemma DayNumbers(d: Date)
    requires d.month == 1
    ensures d.year == 1 ==> Ordinal(d) == d.day
    ensures d.year == 1970 ==> Ordinal(d) == 719162 + d.day
  {}

  /** d is an earlier date than e. */
  predicate Before(d: Date, e: Date) {
    || d.year < e.year
    || (d.year == e.year && d.month < e.month)
    || (d.year == e.year && d.month == e.month && d.day < e.day)
  }

  lemma {:induction false} YearsGrow(y: int, z: int)
    requires y < z
    ensures DaysBeforeYear(y) + DaysBeforeMonth(y, 12) + MonthLength(y, 12) <= DaysBeforeYear(z)
    decreases z - y
  {
    if y + 1 < z {
      YearsGrow(y, z - 1);
      YearLength(z - 1);
      MonthsOfYear(z - 1);
    } else {
      YearLength(y);
    }
  }

  lemma {:induction false} MonthsGrow(y: int, m: int, n: int)
    requires 1 <= m < n
    ensures DaysBeforeMonth(y, m) + MonthLength(y, m) <= DaysBeforeMonth(y, n)
    decreases n - m
  {
    if m < n - 1 {
      MonthsGrow(y, m, n - 1);
    }
  }

  lemma {:induction false} MonthsCount(y: int, m: int)
    requires 1 <= m
    ensures DaysBeforeMonth(y, m) >= 0
    decreases m
  {
    if m > 1 { MonthsCount(y, m - 1); }
  }

  /** Day numbers order valid dates as the calendar does, and so do instants moments. */
  lemma OrdinalsInOrder(d: Date, e: Date)
    requires ValidDate(d) && ValidDate(e)
    ensures Ordinal(d) < Ordinal(e) <==> Before(d, e)
    ensures Ordinal(d) == Ordinal(e) <==> d == e
  {
    if Before(d, e) {
      BeforeIsLess(d, e);
    } else if Before(e, d) {
      BeforeIsLess(e, d);
    }
  }

  lemma BeforeIsLess(d: Date, e: Date)
    requires ValidDate(d) && ValidDate(e) && Before(d, e)
    ensures Ordinal(d) < Ordinal(e)
  {
    if d.year < e.year {
      YearsGrow(d.year, e.year);
      MonthsCount(e.year, e.month);
      if d.month < 12 { MonthsGrow(d.year, d.month, 12); }
    } else if d.month < e.month {
      MonthsGrow(d.year, d.month, e.month);
    }
  }

  /** The instants of two moments compare as the moments do: by date, then by time of day. */
  lemma InstantsInOrder(s: Moment, t: Moment)
    requires Valid(s) && Valid(t)
    ensures Instant(s) <= Instant(t) <==> Before(s.date, t.date) || (s.date == t.date && s.micros <= t.micros)
  {
    OrdinalsInOrder(s.date, t.date);
  }

  /** Adding days fails exactly when it would pass the last day a datetime can hold. */
  lemma {:induction false} AddDaysFailsIff(d: Date, n: nat)
    requires ValidDate(d)
    ensures AddDays(d, n).Err? <==> Ordinal(d) + n > Ordinal(Date(9999, 12, 31))
    decreases n
  {
    var last := Date(9999, 12, 31);
    OrdinalsInOrder(last, d);
    MonthsFollow(d.year, d.month);
    if n > 0 {
      AddDaysCounts(d, 1);
      assert NextDay(d).Ok? ==> AddDays(d, 1) == Ok(NextDay(d).value);
      if NextDay(d).Ok? {
        AddDaysFailsIff(NextDay(d).value, n - 1);
      } else {
        assert d == last;
      }
    }
  }

  function AddMonth(d: Date): Result<Date, DateError> {
    var (year, month) := NextMonth(d.year, d.month);
    if year > MAX_YEAR then Err(OutOfRange) else Ok(Date(year, month, Min(d.day, MonthLength(year, month))))
  }

  lemma NextMonthIs(y: int, m: int)
    requires 1 <= m <= 12
    ensures NextMonth(y, m) == if m == 12 then (y + 1, 1) else (y, m + 1)
  {}

  lemma WithinMonth(d: Date)
    requires 1 <= d.month
    ensures Ordinal(d) == Ordinal(Date(d.year, d.month, 1)) + d.day - 1
  {}

  /** A day and the same day of the next month, cut to that month's end, are 28 to 31 days apart. */
  lemma CutDayApart(day: int, length: int, next: int)
    requires 1 <= day <= length && 28 <= length <= 31 && 28 <= next <= 31
    ensures 28 <= length + Min(day, next) - day <= 31
  {}

  /** Monthly advance: a valid date in the very next calendar month, 28 to 31 days later. */
  lemma AddMonthShape(d: Date)
    requires ValidDate(d)
    ensures AddMonth(d).Err? <==> d.year == MAX_YEAR && d.month == 12
    ensures AddMonth(d).Ok? ==>
              var r := AddMonth(d).value;
              && ValidDate(r)
              && 12 * r.year + r.month == 12 * d.year + d.month + 1
              && 28 <= Ordinal(r) - Ordinal(d) <= 31
              && r.day == Min(d.day, MonthLength(r.year, r.month))
  {
    NextMonthIs(d.year, d.month);
    if AddMonth(d).Ok? {
      var r := AddMonth(d).value;
      MonthsFollow(d.year, d.month);
      WithinMonth(d);
      WithinMonth(r);
      CutDayApart(d.day, MonthLength(d.year, d.month), MonthLength(r.year, r.month));
    }
  }

  function AddMonths(d: Date, k: nat): Result<Date, DateError> {
    if k == 0 then Ok(d)
    else match AddMonths(d, k - 1)
      case Err(e) => Err(e)
      case Ok(r) => AddMonth(r)
  }

  /** The shortest of the k months entered after the given one, 31 if there is none. */
  function ShortestEntered(y: int, m: int, k: nat): int
    decreases k
  {
    if k == 0 then 31
    else
      var (y', m') := NextMonth(y, m);
      Min(MonthLength(y', m'), ShortestEntered(y', m', k - 1))
  }

  lemma {:induction false} AddMonthsFirst(d: Date, k: nat)
    requires k > 0
    ensures AddMonths(d, k) == match AddMonth(d) case Err(e) => Err(e) case Ok(r) => AddMonths(r, k - 1)
  {
    if k > 1 {
      AddMonthsFirst(d, k - 1);
    }
  }

  lemma ShortestStep(d: Date, first: Date, k: nat)
    requires k > 0 && NextMonth(d.year, d.month) == (first.year, first.month)
    ensures ShortestEntered(d.year, d.month, k) ==
            Min(MonthLength(first.year, first.month), ShortestEntered(first.year, first.month, k - 1))
  {}

  lemma AddMonthFirst(d: Date)
    requires ValidDate(d) && AddMonth(d).Ok?
    ensures var first := AddMonth(d).value;
            && ValidDate(first) && NextMonth(d.year, d.month) == (first.year, first.month)
            && first.day == Min(d.day, MonthLength(first.year, first.month))
            && 12 * first.year + first.month == 12 * d.year + d.month + 1
  {
    AddMonthShape(d);
  }

  /** After k monthly advances the month has moved by exactly k, and the day is the start day cut to the
      shortest month entered on the way: a day lost to February does not come back. */
  lemma {:induction false} MonthlyDrift(d: Date, k: nat)
    requires ValidDate(d) && AddMonths(d, k).Ok?
    ensures var r := AddMonths(d, k).value;
            && ValidDate(r)
            && 12 * r.year + r.month == 12 * d.year + d.month + k
            && r.day == Min(d.day, ShortestEntered(d.year, d.month, k))
    decreases k
  {
    if k > 0 {
      AddMonthsFirst(d, k);
      AddMonthFirst(d);
      ShortestStep(d, AddMonth(d).value, k);
      MonthlyDrift(AddMonth(d).value, k - 1);
    }
  }

  /** The next run of a cadence after a moment; None for a rule that runs once. */
  function Advance(cadence: Cadence, from: Moment): Result<Option<Moment>, DateError> {
    match cadence
    case Once => Ok(None)
    case Daily => Shift(AddDays(from.date, 1), from)
    case Weekly => Shift(AddDays(from.date, 7), from)
    case Monthly => Shift(AddMonth(from.date), from)
  }

  function Shift(date: Result<Date, DateError>, from: Moment): Result<Option<Moment>, DateError> {
    match date
    case Err(e) => Err(e)
    case Ok(d) => Ok(Some(from.(date := d)))
  }

  function LeastDays(cadence: Cadence): int {
    match cadence case Once => 0 case Daily => 1 case Weekly => 7 case Monthly => 28
  }

  function MostDays(cadence: Cadence): int {
    match cadence case Once => 0 case Daily => 1 case Weekly => 7 case Monthly => 31
  }

  lemma ShiftInstant(from: Moment, d: Date)
    requires 1 <= from.date.month && 1 <= d.month
    ensures Instant(from.(date := d)) == Instant(from) + (Ordinal(d) - Ordinal(from.date)) * DAY_MICROS
  {}

  /** An advance lands on a valid moment at the same time of day, the cadence's number of days later, and
      fails only at the very end of the calendar. */
  lemma AdvanceMovesOn(cadence: Cadence, from: Moment)
    requires Valid(from)
    ensures cadence.Once? <==> Advance(cadence, from) == Ok(None)
    ensures from.date.year < MAX_YEAR ==> Advance(cadence, from).Ok?
    ensures Advance(cadence, from).Ok? && Advance(cadence, from).value.Some? ==>
              var next := Advance(cadence, from).value.value;
              && Valid(next) && next.micros == from.micros
              && LeastDays(cadence) * DAY_MICROS <= Instant(next) - Instant(from) <= MostDays(cadence) * DAY_MICROS
              && Instant(next) > Instant(from)
  {
    match cadence
    case Once =>
    case Daily =>
      AddDaysCounts(from.date, 1);
      if AddDays(from.date, 1).Ok? { ShiftInstant(from, AddDays(from.date, 1).value); }
    case Weekly =>
      AddDaysCounts(from.date, 7);
      if AddDays(from.date, 7).Ok? { ShiftInstant(from, AddDays(from.date, 7).value); }
    case Monthly =>
      AddMonthShape(from.date);
      if AddMonth(from.date).Ok? { ShiftInstant(from, AddMonth(from.date).value); }
  }
}
