/**
  The deadline is the first instant with the promised business time behind it, and two weeks of it are
  always within reach.
*/
module SlaLaws {
  import opened Rounding
  import opened Sla

  // ─── The least instant ────────────────────────────────

  lemma {:induction false} WholeDaysWorked(h: BusinessHours, from: int, to: int, n: nat)
    requires WithinTheDay(h) && to >= DayStart(DayOf(from) + n)
    ensures Worked(h, from, to, DayOf(from), n) == Capacity(h, from, n)
  {
    if n > 0 { WholeDaysWorked(h, from, to, n - 1); }
  }

  /** Business time from an instant: the days gone by whole, and what has passed of the last one. */
  lemma BusinessTimeSoFar(h: BusinessHours, from: int, to: int)
    requires WithinTheDay(h) && from <= to
    ensures DayOf(from) <= DayOf(to)
    ensures var n := DayOf(to) - DayOf(from);
            BusinessTime(h, from, to) == Capacity(h, from, n) + WorkedOn(h, from, to, DayOf(to))
  {
    hide DayOf;
    DayOfMonotone(from, to);
    DayBounds(to);
    WholeDaysWorked(h, from, to, DayOf(to) - DayOf(from));
  }

  lemma DayOfIs(t: int, d: int)
    requires DayStart(d) <= t < DayStart(d + 1)
    ensures DayOf(t) == d
  {
    DivUnique(t + AR_OFFSET, DAY, d, t - DayStart(d));
  }

  /** At the deadline, exactly the promised business time has passed. */
  lemma DueHasTheTime(h: BusinessHours, from: int, total: nat, due: int, n: nat)
    requires WithinTheDay(h) && DueOn(h, from, total, due, n)
    ensures from <= due && BusinessTime(h, from, due) == total
  {
    hide DayOf;
    var d := DayOf(from) + n;
    DayBounds(from);
    assert DayStart(d) <= Opens(h, d) <= due <= Closes(h, d) <= DayStart(d + 1);
    if due < DayStart(d + 1) {
      DayOfIs(due, d);
      BusinessTimeSoFar(h, from, due);
    } else {
      DayOfStart(d + 1);
      BusinessTimeSoFar(h, from, due);
    }
  }

  /** Before the deadline, less has. */
  lemma BeforeDueThereIsLess(h: BusinessHours, from: int, total: nat, due: int, n: nat, t: int)
    requires WithinTheDay(h) && DueOn(h, from, total, due, n) && total > 0
    requires from <= t < due
    ensures BusinessTime(h, from, t) < total
  {
    hide DayOf;
    var d, m := DayOf(from) + n, DayOf(t) - DayOf(from);
    DayBounds(from);
    DayBounds(t);
    BusinessTimeSoFar(h, from, t);
    assert due <= Closes(h, d) <= DayStart(d + 1);
    if DayOf(t) < d {
      CapacityGrows(h, from, m + 1, n);
      assert WorkedOn(h, from, t, DayOf(t)) <= Available(h, from, DayOf(t));
    } else {
      DayOrder(DayOf(t), d + 1);
      assert DayOf(t) == d;
    }
  }

  lemma DayOrder(a: int, b: int)
    ensures a >= b ==> DayStart(a) >= DayStart(b)
  {
  }

  /** The deadline is the least instant with exactly the promised business time since `from`. */
  lemma DueIsTheLeast(h: BusinessHours, from: int, total: nat, due: int)
    requires WithinTheDay(h) && total > 0 && Due(h, from, total, due)
    ensures from <= due && BusinessTime(h, from, due) == total
    ensures forall t :: from <= t < due ==> BusinessTime(h, from, t) < total
  {
    hide DueOn, BusinessTime;
    var n :| 0 <= n < MAX_DAYS_SCANNED && DueOn(h, from, total, due, n);
    DueHasTheTime(h, from, total, due, n);
    forall t | from <= t < due ensures BusinessTime(h, from, t) < total {
      BeforeDueThereIsLess(h, from, total, due, n, t);
    }
  }

  predicate WithinHours(h: BusinessHours, t: int) {
    Weekday(DayOf(t)) in h.days && Opens(h, DayOf(t)) <= t < Closes(h, DayOf(t))
  }

  /**
    With nothing to wait for, the deadline is the first business instant: within opening hours, with none
    between `from` and it. So it is the least instant with no business time only if `from` is within hours.
  */
  lemma NothingToWaitFor(h: BusinessHours, from: int, due: int)
    requires WithinTheDay(h) && Due(h, from, 0, due)
    ensures from <= due && BusinessTime(h, from, from) == 0
    ensures WithinHours(h, due) && forall t :: from <= t < due ==> !WithinHours(h, t)
    ensures due == from <==> WithinHours(h, from)
  {
    hide DayOf, Weekday;
    var n :| 0 <= n < MAX_DAYS_SCANNED && DueOn(h, from, 0, due, n);
    var d := DayOf(from) + n;
    DayBounds(from);
    BusinessTimeSoFar(h, from, from);
    DayOrder(DayOf(from) + n, DayOf(from) + 1);
    DayOfIs(due, d);
    forall t | from <= t < due ensures !WithinHours(h, t) {
      ClosedBefore(h, from, due, n, t);
    }
  }

  lemma ClosedBefore(h: BusinessHours, from: int, due: int, n: nat, t: int)
    requires WithinTheDay(h) && DueOn(h, from, 0, due, n) && from <= t < due
    ensures !WithinHours(h, t)
  {
    hide DayOf, Weekday;
    var d := DayOf(from) + n;
    DayBounds(from);
    DayBounds(t);
    DayOrder(DayOf(t), d + 1);
    DayOrder(DayOf(from), DayOf(t) + 1);
    if DayOf(t) < d { CapacityGrows(h, from, DayOf(t) - DayOf(from) + 1, n); }
  }

  // ─── What business time is ────────────────────────────

  /** The time of day of an instant, three hours behind the universal one, and its weekday; day 0 was a Thursday. */
  function TimeOfDay(t: int): int { (t - 3 * 3_600_000) % 86_400_000 }

  function WeekdayAt(t: int): int { ((t - 3 * 3_600_000) / 86_400_000 + 4) % 7 }

  /** Open at an instant: on a business day, from the opening hour to before the closing one. */
  predicate OpenAt(h: BusinessHours, t: int) {
    WeekdayAt(t) in h.days && h.fromHour * 3_600_000 <= TimeOfDay(t) < h.untilHour * 3_600_000
  }

  lemma OpenIsWithinHours(h: BusinessHours, t: int)
    ensures OpenAt(h, t) <==> WithinHours(h, t)
  {
    DivBounds(t + AR_OFFSET, DAY);
  }

  lemma NothingSinceItself(h: BusinessHours, from: int)
    requires WithinTheDay(h)
    ensures BusinessTime(h, from, from) == 0
  {
    hide DayOf, Weekday;
    DayBounds(from);
    BusinessTimeSoFar(h, from, from);
  }

  /** Business time is the time the hours are open: it starts at nothing, and goes on exactly while they are. */
  lemma BusinessTimeIsTheOpenTime(h: BusinessHours, from: int, t: int)
    requires WithinTheDay(h) && from <= t
    ensures BusinessTime(h, from, from) == 0
    ensures BusinessTime(h, from, t + 1) == BusinessTime(h, from, t) + (if OpenAt(h, t) then 1 else 0)
  {
    hide DayOf, Weekday, OpenAt, BusinessTime;
    NothingSinceItself(h, from);
    OpenIsWithinHours(h, t);
    var d := DayOf(t);
    DayBounds(from);
    DayBounds(t);
    BusinessTimeSoFar(h, from, t);
    BusinessTimeSoFar(h, from, t + 1);
    if t + 1 < DayStart(d + 1) { DayOfIs(t + 1, d); } else { DayOfStart(d + 1); }
  }

  // ─── Reach of the scan ────────────────────────────────

  function Open(h: BusinessHours, w: int): nat { if w in h.days then 1 else 0 }

  /** How many weekdays are business days. */
  function OpenDays(h: BusinessHours): nat {
    Open(h, 0) + Open(h, 1) + Open(h, 2) + Open(h, 3) + Open(h, 4) + Open(h, 5) + Open(h, 6)
  }

  function OpenBelow(days: set<int>, n: nat): nat {
    if n == 0 then 0 else OpenBelow(days, n - 1) + (if n - 1 in days then 1 else 0)
  }

  lemma {:induction false} SameBelow(a: set<int>, b: set<int>, n: nat)
    requires forall w :: 0 <= w < n ==> (w in a <==> w in b)
    ensures OpenBelow(a, n) == OpenBelow(b, n)
  {
    if n > 0 { SameBelow(a, b, n - 1); }
  }

  lemma {:induction false} SizeBelow(days: set<int>, n: nat)
    requires forall w :: w in days ==> 0 <= w < n
    ensures OpenBelow(days, n) == |days|
  {
    if n == 0 {
      forall w ensures w !in days {}
      assert days == {};
    } else {
      SizeBelow(days - {n - 1}, n - 1);
      SameBelow(days, days - {n - 1}, n - 1);
      SizeSplit(days, n - 1);
    }
  }

  lemma OpenDaysIsTheSize(h: BusinessHours)
    requires forall w :: w in h.days ==> 0 <= w <= 6
    ensures OpenDays(h) == |h.days|
  {
    SizeBelow(h.days, 7);
    assert OpenBelow(h.days, 1) == Open(h, 0);
    assert OpenBelow(h.days, 2) == Open(h, 0) + Open(h, 1);
    assert OpenBelow(h.days, 4) == OpenBelow(h.days, 2) + Open(h, 2) + Open(h, 3);
    assert OpenBelow(h.days, 6) == OpenBelow(h.days, 4) + Open(h, 4) + Open(h, 5);
  }

  lemma SizeSplit(s: set<int>, x: int)
    ensures |s| == |s - {x}| + (if x in s then 1 else 0)
  {
    if x in s { assert s == (s - {x}) + {x}; }
  }

  /** Any seven days in a row have every weekday once. */
  lemma AnyWeek(h: BusinessHours, d: int)
    ensures Open(h, Weekday(d)) + Open(h, Weekday(d + 1)) + Open(h, Weekday(d + 2)) + Open(h, Weekday(d + 3))
            + Open(h, Weekday(d + 4)) + Open(h, Weekday(d + 5)) + Open(h, Weekday(d + 6)) == OpenDays(h)
  {
    hide Open, Weekday;
    WeekdayAfter(d, 1);
    WeekdayAfter(d, 2);
    WeekdayAfter(d, 3);
    WeekdayAfter(d, 4);
    WeekdayAfter(d, 5);
    WeekdayAfter(d, 6);
    assert 0 <= Weekday(d) <= 6 by { WeekdayAfter(d, 0); }
  }

  lemma WeekdayAfter(d: int, k: nat)
    requires k <= 6
    ensures 0 <= Weekday(d) <= 6
    ensures Weekday(d + k) == if Weekday(d) + k < 7 then Weekday(d) + k else Weekday(d) + k - 7
  {
  }

  function DayLength(h: BusinessHours): int { (h.untilHour - h.fromHour) * HOUR }

  lemma WholeDay(h: BusinessHours, from: int, d: int)
    requires h.fromHour < h.untilHour && from < DayStart(d)
    ensures Available(h, from, d) == Open(h, Weekday(d)) * DayLength(h)
  {
  }

  lemma CapacityOfAWeek(h: BusinessHours, from: int, n: nat)
    requires h.fromHour < h.untilHour && n >= 1
    ensures Capacity(h, from, n + 7) == Capacity(h, from, n) + OpenDays(h) * DayLength(h)
  {
    hide DayOf;
    var d, l := DayOf(from) + n, DayLength(h);
    DayBounds(from);
    WholeDay(h, from, d);
    WholeDay(h, from, d + 1);
    WholeDay(h, from, d + 2);
    WholeDay(h, from, d + 3);
    WholeDay(h, from, d + 4);
    WholeDay(h, from, d + 5);
    WholeDay(h, from, d + 6);
    AnyWeek(h, d);
    hide Available, Open, DayLength;
    SevenSteps(h, from, n);
    SevenProducts(Open(h, Weekday(d)), Open(h, Weekday(d + 1)), Open(h, Weekday(d + 2)), Open(h, Weekday(d + 3)),
                  Open(h, Weekday(d + 4)), Open(h, Weekday(d + 5)), Open(h, Weekday(d + 6)), l);
  }

  lemma SevenSteps(h: BusinessHours, from: int, n: nat)
    ensures var d := DayOf(from) + n;
            Capacity(h, from, n + 7) == Capacity(h, from, n)
              + Available(h, from, d) + Available(h, from, d + 1) + Available(h, from, d + 2)
                  + Available(h, from, d + 3)
              + Available(h, from, d + 4) + Available(h, from, d + 5) + Available(h, from, d + 6)
  {
    hide Available;
    assert Capacity(h, from, n + 2) == Capacity(h, from, n + 1) + Available(h, from, DayOf(from) + n + 1);
    assert Capacity(h, from, n + 4) == Capacity(h, from, n + 3) + Available(h, from, DayOf(from) + n + 3);
    assert Capacity(h, from, n + 6) == Capacity(h, from, n + 5) + Available(h, from, DayOf(from) + n + 5);
  }

  lemma SevenProducts(a: int, b: int, c: int, d: int, e: int, f: int, g: int, l: int)
    ensures a * l + b * l + c * l + d * l + e * l + f * l + g * l == (a + b + c + d + e + f + g) * l
  {
  }

  /**
    With at least one business day and some opening hours, a deadline of up to
    120 minutes * business days * hours a day is always found by the scan: it never falls back to
    wall time.
  */
  lemma TwoWeeksAreWithinReach(h: BusinessHours, from: int, minutes: nat)
    requires WithinTheDay(h) && h.fromHour < h.untilHour
    requires h.days != {} && forall w :: w in h.days ==> 0 <= w <= 6
    requires minutes <= 120 * |h.days| * (h.untilHour - h.fromHour)
    ensures SomeTime(h, from, MAX_DAYS_SCANNED) && minutes * MINUTE <= Capacity(h, from, MAX_DAYS_SCANNED)
  {
    hide DayOf, Available, OpenDays;
    OpenDaysIsTheSize(h);
    CapacityOfAWeek(h, from, 1);
    CapacityOfAWeek(h, from, 8);
    CapacityGrows(h, from, 0, 1);
    var k, l := |h.days|, h.untilHour - h.fromHour;
    Minutes(minutes, k, l);
    MulPositive(k, DayLength(h));
    if !SomeTime(h, from, MAX_DAYS_SCANNED) { NoTimeNoCapacity(h, from, MAX_DAYS_SCANNED); }
  }

  lemma Minutes(minutes: nat, k: nat, l: nat)
    requires minutes <= 120 * k * l
    ensures minutes * MINUTE <= 2 * (k * (l * HOUR))
  {
    assert 120 * k * l * MINUTE == 2 * (k * (l * HOUR));
  }

  lemma {:induction false} NoTimeNoCapacity(h: BusinessHours, from: int, n: nat)
    requires !SomeTime(h, from, n)
    ensures Capacity(h, from, n) == 0
  {
    if n > 0 { NoTimeNoCapacity(h, from, n - 1); }
  }
}
