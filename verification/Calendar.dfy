/**
  The civil calendar. A date is a day number (day 0 is 1 January of year 0); a month is its index
  12 * year + month, with January as month 0.
*/
module Calendar {
  import opened Rounding

  predicate IsLeap(year: int) {
    year % 4 == 0 && (year % 100 != 0 || year % 400 == 0)
  }

  function MonthDays(k: int): (n: nat)
    ensures 28 <= n <= 31
  {
    var m := k % 12;
    if m == 1 then (if IsLeap(k / 12) then 29 else 28)
    else if m == 3 || m == 5 || m == 8 || m == 10 then 30
    else 31
  }

  /** The day number of the first day of a month. */
  function MonthStart(k: nat): nat {
    if k == 0 then 0 else MonthStart(k - 1) + MonthDays(k - 1)
  }

  lemma NextMonthStart(k: nat)
    ensures MonthStart(k + 1) == MonthStart(k) + MonthDays(k)
  {
    hide MonthDays;
  }

  lemma {:induction false} MonthStartsApart(a: nat, b: nat)
    requires a <= b
    ensures MonthStart(a) + 28 * (b - a) <= MonthStart(b)
  {
    hide MonthDays;
    if a < b { MonthStartsApart(a, b - 1); }
  }

  function MonthFrom(k: nat, day: nat): (r: nat)
    requires MonthStart(k) <= day
    ensures MonthStart(r) <= day < MonthStart(r) + MonthDays(r)
    decreases day - MonthStart(k)
  {
    if day < MonthStart(k) + MonthDays(k) then k
    else
      NextMonthStart(k);
      MonthFrom(k + 1, day)
  }

  /** The month a day belongs to. */
  function MonthOf(day: nat): (r: nat)
    ensures MonthStart(r) <= day < MonthStart(r + 1)
  {
    MonthFrom(0, day)
  }

  function DayOfMonth(day: nat): (d: nat)
    ensures 1 <= d <= MonthDays(MonthOf(day))
  {
    day - MonthStart(MonthOf(day)) + 1
  }

  lemma MonthOfIs(day: nat, k: nat)
    requires MonthStart(k) <= day < MonthStart(k + 1)
    ensures MonthOf(day) == k
  {
    hide MonthOf, MonthStart;
    var r := MonthOf(day);
    if r < k {
      MonthStartsApart(r + 1, k);
    } else if k < r {
      MonthStartsApart(k + 1, r);
    }
  }

  lemma MonthOfMonotone(a: nat, b: nat)
    requires a <= b
    ensures MonthOf(a) <= MonthOf(b)
  {
    hide MonthOf, MonthStart;
    if MonthOf(b) < MonthOf(a) {
      MonthStartsApart(MonthOf(b) + 1, MonthOf(a));
    }
  }

  // ─── Years ────────────────────────────────────────────

  /** The years before one that have a 29 February. */
  function LeapYearsBefore(year: nat): nat { (year + 3) / 4 - (year + 99) / 100 + (year + 399) / 400 }

  lemma DaysOfMonth(year: nat, m: nat)
    requires m < 12
    ensures MonthDays(12 * year + m)
         == if m == 1 then (if IsLeap(year) then 29 else 28) else if m in {3, 5, 8, 10} then 30 else 31
  {
    hide IsLeap;
    DivUnique(12 * year + m, 12, year, m);
  }

  /** Where a month starts in its year: from March on, 153 days every five months. */
  lemma {:induction false} MonthInYear(year: nat, m: nat)
    requires m < 12
    ensures MonthStart(12 * year + m) - MonthStart(12 * year)
         == if m < 2 then 31 * m else 59 + (if IsLeap(year) then 1 else 0) + (153 * (m - 2) + 2) / 5
  {
    hide MonthStart, MonthDays, IsLeap;
    if m > 0 {
      MonthInYear(year, m - 1);
      NextMonthStart(12 * year + m - 1);
      DaysOfMonth(year, m - 1);
    }
  }

  lemma TwelveMonths(year: nat)
    ensures MonthStart(12 * year + 12) == MonthStart(12 * year) + 365 + (if IsLeap(year) then 1 else 0)
  {
    hide MonthStart, MonthDays, IsLeap;
    MonthInYear(year, 11);
    NextMonthStart(12 * year + 11);
    DaysOfMonth(year, 11);
  }

  lemma OneMoreMultiple(year: nat, d: nat)
    requires d > 0
    ensures (year + d) / d == (year + d - 1) / d + (if year % d == 0 then 1 else 0)
  {
    var q, r := year / d, year % d;
    DivBounds(year, d);
    DivUnique(year + d, d, q + 1, r);
    if r == 0 { DivUnique(year + d - 1, d, q, d - 1); } else { DivUnique(year + d - 1, d, q + 1, r - 1); }
  }

  lemma Divisible(year: nat)
    ensures year % 400 == 0 ==> year % 100 == 0
    ensures year % 100 == 0 ==> year % 4 == 0
  {
    DivBounds(year, 400);
    DivBounds(year, 100);
    if year % 400 == 0 { DivUnique(year, 100, 4 * (year / 400), 0); }
    if year % 100 == 0 { DivUnique(year, 4, 25 * (year / 100), 0); }
  }

  lemma OneMoreLeapYear(year: nat)
    ensures LeapYearsBefore(year + 1) == LeapYearsBefore(year) + (if IsLeap(year) then 1 else 0)
  {
    OneMoreMultiple(year, 4);
    OneMoreMultiple(year, 100);
    OneMoreMultiple(year, 400);
    Divisible(year);
  }

  /** Where a year starts: 365 days a year, and one more for every leap year before it. */
  lemma {:induction false} YearStart(year: nat)
    ensures MonthStart(12 * year) == 365 * year + LeapYearsBefore(year)
  {
    hide MonthStart, LeapYearsBefore, IsLeap;
    if year > 0 {
      YearStart(year - 1);
      TwelveMonths(year - 1);
      OneMoreLeapYear(year - 1);
    } else {
      YearZero();
    }
  }

  lemma YearZero()
    ensures MonthStart(0) == 0 && LeapYearsBefore(0) == 0
  {
  }

  // ─── Shifting ─────────────────────────────────────────

  /**
    Adds months and keeps the day of the month, clipped to the last day of the target month; months
    may be negative as long as the calendar reaches that far back.
  */
  function AddMonthsClamped(day: nat, months: int): nat
    requires MonthOf(day) + months >= 0
  {
    var k := MonthOf(day) + months;
    MonthStart(k) + Min(DayOfMonth(day), MonthDays(k)) - 1
  }

  /** The shifted date falls in the shifted month, on its day unless that month is too short. */
  lemma AddMonthsLands(day: nat, months: int)
    requires MonthOf(day) + months >= 0
    ensures MonthOf(AddMonthsClamped(day, months)) == MonthOf(day) + months
    ensures DayOfMonth(AddMonthsClamped(day, months)) == Min(DayOfMonth(day), MonthDays(MonthOf(day) + months))
  {
    hide MonthOf, MonthStart, MonthDays;
    var k := MonthOf(day) + months;
    NextMonthStart(k);
    MonthOfIs(AddMonthsClamped(day, months), k);
  }

  /** Shifting two dates by the same number of months keeps their order, in spite of the clipping. */
  lemma AddMonthsMonotone(a: nat, b: nat, months: int)
    requires a <= b && MonthOf(a) + months >= 0
    ensures MonthOf(b) + months >= 0
    ensures AddMonthsClamped(a, months) <= AddMonthsClamped(b, months)
  {
    hide MonthOf, MonthStart, MonthDays;
    MonthOfMonotone(a, b);
    var ka, kb := MonthOf(a) + months, MonthOf(b) + months;
    if ka < kb {
      NextMonthStart(ka);
      MonthStartsApart(ka + 1, kb);
    }
  }
}
