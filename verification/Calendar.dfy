/** Calendar arithmetic in UTC, as Go's time.AddDate does it. */
module Calendar {
  import opened Prelude

  predicate Leap(year: int) {
    year % 4 == 0 && (year % 100 != 0 || year % 400 == 0)
  }

  /** Months are numbered from January 1970, which is month 0. */
  function MonthLength(month: int): (days: int)
    ensures 28 <= days <= 31
  {
    var year, m := 1970 + month / 12, month % 12;
    if m == 1 then (if Leap(year) then 29 else 28)
    else if m == 3 || m == 5 || m == 8 || m == 10 then 30
    else 31
  }

  /** The day number of a month's first day; 1 January 1970 is day 0. */
  function MonthStart(month: int): int
    decreases if month < 0 then -month else month
  {
    if month == 0 then 0
    else if month > 0 then MonthStart(month - 1) + MonthLength(month - 1)
    else MonthStart(month + 1) - MonthLength(month)
  }

  lemma MonthFollows(month: int)
    ensures MonthStart(month + 1) == MonthStart(month) + MonthLength(month)
  {
  }

  function FindUp(day: int, month: int): (found: int)
    requires MonthStart(month) <= day
    ensures MonthStart(found) <= day < MonthStart(found + 1)
    decreases day - MonthStart(month)
  {
    MonthFollows(month);
    if day < MonthStart(month + 1) then month else FindUp(day, month + 1)
  }

  function FindDown(day: int, month: int): (found: int)
    requires day < MonthStart(month + 1)
    ensures MonthStart(found) <= day < MonthStart(found + 1)
    decreases MonthStart(month + 1) - day
  {
    MonthFollows(month);
    if MonthStart(month) <= day then month else FindDown(day, month - 1)
  }

  /** The month that a day belongs to. */
  function MonthOf(day: int): (found: int)
    ensures MonthStart(found) <= day < MonthStart(found + 1)
  {
    if day >= 0 then FindUp(day, 0) else FindDown(day, -1)
  }

  // ---------------------------------------------------------------- the civil calendar

  /** Leap days before the first of January of a year. */
  function LeapDaysBefore(year: int): int {
    (year - 1) / 4 - (year - 1) / 100 + (year - 1) / 400
  }

  lemma OneMoreYear(year: int)
    ensures LeapDaysBefore(year + 1) == LeapDaysBefore(year) + if Leap(year) then 1 else 0
  {
    DivisorStep(year, 4);
    DivisorStep(year, 100);
    DivisorStep(year, 400);
  }

  lemma DivisorStep(n: int, d: int)
    requires d > 0
    ensures n / d == (n - 1) / d + if n % d == 0 then 1 else 0
  {
    var q, r := n / d, n % d;
    assert n == q * d + r;
    var p, s := (n - 1) / d, (n - 1) % d;
    assert n - 1 == p * d + s;
    if p > q { MulMonotone(q + 1, p, d); }
    if p < q - 1 { MulMonotone(p + 2, q, d); }
    assert (q - 1) * d == q * d - d;
  }

  /** How many days of a year lie before its month m, counted from 0. */
  function DaysBefore(m: int, leap: bool): int {
    [0, 31, 59, 90, 120, 151, 181, 212, 243, 273, 304, 334, 365][if 0 <= m <= 12 then m else 0]
      + if leap && m > 1 then 1 else 0
  }

  lemma {:induction false} MonthInYear(year: int, m: nat)
    requires m <= 12
    ensures MonthStart(12 * (year - 1970) + m) == MonthStart(12 * (year - 1970)) + DaysBefore(m, Leap(year))
  {
    if m > 0 {
      var month := 12 * (year - 1970) + m - 1;
      MonthInYear(year, m - 1);
      MonthFollows(month);
      assert month / 12 == year - 1970 && month % 12 == m - 1;
    }
  }

  lemma {:induction false} YearStart(year: int)
    ensures MonthStart(12 * (year - 1970)) == 365 * (year - 1970) + LeapDaysBefore(year) - LeapDaysBefore(1970)
    decreases if year < 1970 then 1970 - year else year - 1970
  {
    if year > 1970 {
      YearStart(year - 1);
      MonthInYear(year - 1, 12);
      OneMoreYear(year - 1);
    } else if year < 1970 {
      YearStart(year + 1);
      MonthInYear(year, 12);
      OneMoreYear(year);
    }
  }

  /**
    Month m, from 0, of a year begins as many days after 1 January 1970 as the Gregorian calendar says:
    365 for each year, one more for each leap year, and the days of the year's earlier months.
   */
  lemma MonthStartIs(year: int, m: nat)
    requires m <= 12
    ensures MonthStart(12 * (year - 1970) + m)
         == 365 * (year - 1970) + LeapDaysBefore(year) - LeapDaysBefore(1970) + DaysBefore(m, Leap(year))
  {
    YearStart(year);
    MonthInYear(year, m);
  }

  lemma FourCenturies(year: int)
    ensures LeapDaysBefore(year + 400) == LeapDaysBefore(year) + 97 && (Leap(year + 400) <==> Leap(year))
  {
    var n := year - 1;
    assert (n + 400) / 4 == n / 4 + 100 && (n + 400) / 100 == n / 100 + 4 && (n + 400) / 400 == n / 400 + 1;
    assert (year + 400) % 4 == year % 4 && (year + 400) % 100 == year % 100 && (year + 400) % 400 == year % 400;
  }

  /** Twelve months from a January are a year, and 4800 months are always 146097 days. */
  lemma WholeYears(year: int, m: nat)
    requires m < 12
    ensures MonthStart(12 * (year + 1 - 1970)) == MonthStart(12 * (year - 1970)) + if Leap(year) then 366 else 365
    ensures MonthStart(12 * (year + 400 - 1970) + m) == MonthStart(12 * (year - 1970) + m) + 146_097
  {
    MonthInYear(year, 12);
    MonthStartIs(year, m);
    MonthStartIs(year + 400, m);
    FourCenturies(year);
  }

  lemma {:induction false} MonthsInOrder(a: int, b: int)
    requires a <= b
    ensures MonthStart(b) - MonthStart(a) >= 28 * (b - a)
    decreases b - a
  {
    if a < b {
      MonthsInOrder(a, b - 1);
      MonthFollows(b - 1);
    }
  }

  /** A day belongs to one month only. */
  lemma MonthOfIs(day: int, month: int)
    ensures MonthOf(day) == month <==> MonthStart(month) <= day < MonthStart(month + 1)
  {
    var m := MonthOf(day);
    if m < month { MonthsInOrder(m + 1, month); }
    if month < m { MonthsInOrder(month + 1, m); }
  }

  /** The day of the month, from 0. */
  function DayOfMonth(day: int): int {
    day - MonthStart(MonthOf(day))
  }

  /**
    Two months on, at the same distance from the start of the month and the same time of day; a day
    that the target month lacks thereby runs over into the next one.
   */
  function TwoMonthsAfter(now: int): int {
    var month := MonthOf(now / DAY);
    now + (MonthStart(month + 2) - MonthStart(month)) * DAY
  }

  /**
    The step keeps the time of day.  It leads to the same day of the month two months on; where that
    month lacks the day, it leads into the month after, by as many days as are lacking.
   */
  lemma TwoMonthsLater(now: int)
    ensures TwoMonthsAfter(now) % DAY == now % DAY
    ensures var day, later, target := now / DAY, TwoMonthsAfter(now) / DAY, MonthOf(now / DAY) + 2;
            && later - MonthStart(target) == DayOfMonth(day)
            && if DayOfMonth(day) < MonthLength(target)
               then MonthOf(later) == target && DayOfMonth(later) == DayOfMonth(day)
               else MonthOf(later) == target + 1 && DayOfMonth(later) == DayOfMonth(day) - MonthLength(target)
  {
    StepInDays(now);
    InMonth(now / DAY);
    SameDistance(MonthOf(now / DAY) + 2, DayOfMonth(now / DAY));
  }

  lemma StepInDays(now: int)
    ensures TwoMonthsAfter(now) % DAY == now % DAY
    ensures TwoMonthsAfter(now) / DAY == MonthStart(MonthOf(now / DAY) + 2) + DayOfMonth(now / DAY)
  {
    WholeDays(now, MonthStart(MonthOf(now / DAY) + 2) - MonthStart(MonthOf(now / DAY)));
  }

  lemma InMonth(day: int)
    ensures 0 <= DayOfMonth(day) < MonthLength(MonthOf(day)) <= 31
  {
    MonthFollows(MonthOf(day));
  }

  /** The day at a distance from the start of a month, which the month may lack. */
  lemma SameDistance(month: int, distance: int)
    requires 0 <= distance < 31
    ensures var day := MonthStart(month) + distance;
            if distance < MonthLength(month) then MonthOf(day) == month && DayOfMonth(day) == distance
            else MonthOf(day) == month + 1 && DayOfMonth(day) == distance - MonthLength(month)
  {
    MonthFollows(month);
    if distance < MonthLength(month) {
      MonthOfIs(MonthStart(month) + distance, month);
    } else {
      MonthFollows(month + 1);
      MonthOfIs(MonthStart(month) + distance, month + 1);
    }
  }

  lemma WholeDays(now: int, days: int)
    ensures (now + days * DAY) / DAY == now / DAY + days && (now + days * DAY) % DAY == now % DAY
  {
    var q, r := now / DAY + days, now % DAY;
    assert now + days * DAY == q * DAY + r;
  }

  lemma TwoFollowingMonths(month: int)
    ensures 59 <= MonthLength(month) + MonthLength(month + 1) <= 62
  {
    var m := month % 12;
    assert (month + 1) % 12 == (m + 1) % 12;
  }

  /** On every calendar date the step is at least 59 and at most 62 days long. */
  lemma TwoMonthsBounds(now: int)
    ensures now + 59 * DAY <= TwoMonthsAfter(now) <= now + 62 * DAY
  {
    var month := MonthOf(now / DAY);
    MonthFollows(month);
    MonthFollows(month + 1);
    TwoFollowingMonths(month);
  }

  /** A certificate stored with the 89-day fallback is outside the renewal window for 27 days. */
  lemma FallbackOutsideWindow(stored: int, now: int)
    requires now < stored + 27 * DAY
    ensures TwoMonthsAfter(now) < stored + 89 * DAY
  {
    TwoMonthsBounds(now);
  }
}
