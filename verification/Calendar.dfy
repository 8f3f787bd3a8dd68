/** The proleptic Gregorian calendar in UTC, counted in days from 0000-01-01. */
module Calendar {

  datatype Date = Date(year: nat, month: nat, day: nat)

  predicate IsLeap(y: nat) {
    y % 4 == 0 && (y % 100 != 0 || y % 400 == 0)
  }

  function YearLength(y: nat): nat {
    if IsLeap(y) then 366 else 365
  }

  function DaysBeforeYear(y: nat): nat {
    if y == 0 then 0 else DaysBeforeYear(y - 1) + YearLength(y - 1)
  }

  /** Days of year y that precede month m; month 13 stands for the whole year. */
  function DaysBeforeMonth(y: nat, m: nat): nat
    requires 1 <= m <= 13
  {
    var leap := if IsLeap(y) then 1 else 0;
    match m
    case 1 => 0
    case 2 => 31
    case 3 => 59 + leap
    case 4 => 90 + leap
    case 5 => 120 + leap
    case 6 => 151 + leap
    case 7 => 181 + leap
    case 8 => 212 + leap
    case 9 => 243 + leap
    case 10 => 273 + leap
    case 11 => 304 + leap
    case 12 => 334 + leap
    case _ => 365 + leap
  }

  function MonthLength(y: nat, m: nat): nat
    requires 1 <= m <= 12
  {
    DaysBeforeMonth(y, m + 1) - DaysBeforeMonth(y, m)
  }

  predicate ValidDate(d: Date) {
    1 <= d.month <= 12 && 1 <= d.day <= MonthLength(d.year, d.month)
  }

  function DayNumber(d: Date): nat
    requires ValidDate(d)
  {
    DaysBeforeYear(d.year) + DaysBeforeMonth(d.year, d.month) + d.day - 1
  }

  function YearFrom(n: nat, y: nat): (r: nat)
    requires DaysBeforeYear(y) <= n
    ensures DaysBeforeYear(r) <= n < DaysBeforeYear(r + 1)
    decreases n - DaysBeforeYear(y)
  {
    if n < DaysBeforeYear(y + 1) then y else YearFrom(n, y + 1)
  }

  function MonthFrom(y: nat, k: nat, m: nat): (r: nat)
    requires 1 <= m <= 12 && DaysBeforeMonth(y, m) <= k < YearLength(y)
    ensures 1 <= r <= 12 && DaysBeforeMonth(y, r) <= k < DaysBeforeMonth(y, r + 1)
    decreases 12 - m
  {
    if k < DaysBeforeMonth(y, m + 1) then m else MonthFrom(y, k, m + 1)
  }

  /** The civil date of day number n: the unique date counted as n. */
  function DateOf(n: nat): (d: Date)
    ensures ValidDate(d) && DayNumber(d) == n
  {
    var y := YearFrom(n, 0);
    var k := n - DaysBeforeYear(y);
    var m := MonthFrom(y, k, 1);
    Date(y, m, k - DaysBeforeMonth(y, m) + 1)
  }

  predicate DateLess(a: Date, b: Date) {
    || a.year < b.year
    || (a.year == b.year && (a.month < b.month || (a.month == b.month && a.day < b.day)))
  }

  lemma {:induction false} YearsAccumulate(a: nat, b: nat)
    requires a <= b
    ensures DaysBeforeYear(a) <= DaysBeforeYear(b)
    decreases b
  {
    if a < b { YearsAccumulate(a, b - 1); }
  }

  lemma FourthYears(z: nat)
    ensures (z + 4) / 4 == (z + 3) / 4 + if z % 4 == 0 then 1 else 0
  {
    assert z == 4 * (z / 4) + z % 4;
  }

  lemma Centuries(z: nat)
    ensures (z + 100) / 100 == (z + 99) / 100 + if z % 100 == 0 then 1 else 0
    ensures z % 100 == 0 ==> z % 4 == 0
  {
    assert z == 100 * (z / 100) + z % 100 == 4 * (25 * (z / 100)) + z % 100;
  }

  lemma FourthCenturies(z: nat)
    ensures (z + 400) / 400 == (z + 399) / 400 + if z % 400 == 0 then 1 else 0
    ensures z % 400 == 0 ==> z % 100 == 0
  {
    assert z == 400 * (z / 400) + z % 400 == 100 * (4 * (z / 400)) + z % 400;
  }

  lemma {:induction false} LeapDaysCounted(y: nat)
    ensures DaysBeforeYear(y) == 365 * y + (y + 3) / 4 - (y + 99) / 100 + (y + 399) / 400
  {
    if y > 0 {
      LeapDaysCounted(y - 1);
      FourthYears(y - 1);
      Centuries(y - 1);
      FourthCenturies(y - 1);
    }
  }

  lemma {:induction false} MonthsAccumulate(y: nat, a: nat, b: nat)
    requires 1 <= a <= b <= 13
    ensures DaysBeforeMonth(y, a) <= DaysBeforeMonth(y, b)
    decreases b
  {
    if a < b { MonthsAccumulate(y, a, b - 1); }
  }

  lemma EarlierDateCountsLess(a: Date, b: Date)
    requires ValidDate(a) && ValidDate(b) && DateLess(a, b)
    ensures DayNumber(a) < DayNumber(b)
  {
    if a.year < b.year {
      YearsAccumulate(a.year + 1, b.year);
      MonthsAccumulate(a.year, a.month + 1, 13);
    } else if a.month < b.month {
      MonthsAccumulate(a.year, a.month + 1, b.month);
    }
  }

  /** Counting days is injective and DateOf inverts it. */
  lemma DateRoundTrip(d: Date)
    requires ValidDate(d)
    ensures DateOf(DayNumber(d)) == d
  {
    var e := DateOf(DayNumber(d));
    if DateLess(d, e) { EarlierDateCountsLess(d, e); }
    if DateLess(e, d) { EarlierDateCountsLess(e, d); }
  }

  /** Day numbers sort as the dates they count. */
  lemma DateOrder(m: nat, n: nat)
    ensures DateLess(DateOf(m), DateOf(n)) <==> m < n
    ensures DateOf(m) == DateOf(n) <==> m == n
  {
    var a, b := DateOf(m), DateOf(n);
    if DateLess(a, b) { EarlierDateCountsLess(a, b); }
    if DateLess(b, a) { EarlierDateCountsLess(b, a); }
  }

  // ----- The calendar without its tables -----

  /** From March on, months follow a pattern of five months in 153 days. */
  lemma MonthsInClosedForm(y: nat, m: nat)
    requires 1 <= m <= 13
    ensures var leap := if y % 4 == 0 && (y % 100 != 0 || y % 400 == 0) then 1 else 0;
            DaysBeforeMonth(y, m) == if m <= 2 then 31 * (m - 1) else 59 + leap + (153 * (m - 3) + 2) / 5
  {
    assert m == 1 || m == 2 || m == 3 || m == 4 || m == 5 || m == 6 || m == 7 || m == 8 || m == 9 || m == 10 || m == 11
      || m == 12 || m == 13;
  }

  /** The last day of a month, as everybody knows it. */
  function LastDay(y: nat, m: nat): nat {
    if m == 2 then (if (y % 4 == 0 && y % 100 != 0) || y % 400 == 0 then 29 else 28)
    else if m in {4, 6, 9, 11} then 30 else 31
  }

  lemma MonthLengths(y: nat, m: nat)
    requires 1 <= m <= 12
    ensures MonthLength(y, m) == LastDay(y, m)
  {
    MonthsInClosedForm(y, m);
    MonthsInClosedForm(y, m + 1);
  }

  function NextDay(d: Date): Date {
    if d.day < LastDay(d.year, d.month) then Date(d.year, d.month, d.day + 1)
    else if d.month < 12 then Date(d.year, d.month + 1, 1)
    else Date(d.year + 1, 1, 1)
  }

  lemma NextDayCounts(d: Date)
    requires ValidDate(d)
    ensures ValidDate(NextDay(d)) && DayNumber(NextDay(d)) == DayNumber(d) + 1
  {
    MonthLengths(d.year, d.month);
    if d.day == LastDay(d.year, d.month) {
      if d.month < 12 {
        MonthLengths(d.year, d.month + 1);
      } else {
        MonthLengths(d.year + 1, 1);
      }
    }
  }

  lemma DateIs(n: nat, d: Date)
    requires ValidDate(d) && DayNumber(d) == n
    ensures DateOf(n) == d
  {
    DateRoundTrip(d);
  }

  lemma FirstDay(y: nat)
    requires y == 0
    ensures ValidDate(Date(y, 1, 1)) && DayNumber(Date(y, 1, 1)) == 0
  {
    MonthLengths(y, 1);
  }

  /** With FirstDay, the whole calendar: every day is followed by the next civil date. */
  lemma DaysFollowEachOther(n: nat, next: nat)
    requires next == n + 1
    ensures DateOf(next) == NextDay(DateOf(n))
  {
    FollowingDate(DateOf(n), next);
  }

  lemma FollowingDate(d: Date, next: nat)
    requires ValidDate(d) && next == DayNumber(d) + 1
    ensures DateOf(next) == NextDay(d)
  {
    NextDayCounts(d);
    DateIs(next, NextDay(d));
  }

  /** 1970-01-01 is day 719528. */
  lemma EpochDay(y: nat)
    requires y == 1970
    ensures ValidDate(Date(y, 1, 1)) && DayNumber(Date(y, 1, 1)) == 719528
  {
    MonthLengths(y, 1);
    LeapDaysCounted(y);
  }
}
