/**
  How much interest a day accrues, in each mode, and what the days add up to: the balance it starts with, the
  rate in force on it, the rounding, the cap, and the days counted of each kind.
*/
module PenaltyAmounts {
  import opened Penalty
  import opened PenaltyLaws
  import opened PenaltyRuns
  import opened Sorting
  import opened Wrappers

  // ─── Rounding ─────────────────────────────────────────

  /** r is c hundredths, and c is a hundred times x to the unit, halves away from zero. */
  predicate IsHundredths(r: real, c: int, x: real) {
    && r == c as real / 100.0
    && (if x >= 0.0 then -0.5 < c as real - x * 100.0 <= 0.5 else -0.5 <= c as real - x * 100.0 < 0.5)
  }

  ghost predicate IsRound2(r: real, x: real) { exists c :: IsHundredths(r, c, x) }

  lemma Round2IsRound2(x: real)
    ensures IsRound2(Round2(x), x)
  {
    var up := UpFromHalf(if x >= 0.0 then x else -x);
    assert IsHundredths(Round2(x), if x >= 0.0 then up else -up, x);
  }

  // ─── What a day looks at ──────────────────────────────

  /** Paid before a day, whatever order the payments come in. */
  function PaidUntil(payments: seq<Dated>, day: int): real {
    if payments == [] then 0.0
    else
      var p := payments[|payments| - 1];
      PaidUntil(payments[..|payments| - 1], day) + (if p.day < day then p.amount else 0.0)
  }

  lemma {:induction false} PaidBeforeIs(payments: seq<Dated>, day: int)
    ensures PaidBefore(payments, day) == PaidUntil(payments, day)
  {
    if payments != [] { PaidBeforeIs(payments[..|payments| - 1], day); }
  }

  /** What a day starts owing. */
  function OwedOn(total: real, payments: seq<Dated>, day: int): real {
    var rest := total - PaidUntil(payments, day);
    if rest > 0.0 then rest else 0.0
  }

  lemma BaseIsOwed(total: real, payments: seq<Dated>, day: int)
    ensures BaseOn(total, SortByDay(payments), day) == OwedOn(total, payments, day)
  {
    hide SortByDay, PaidBefore, PaidUntil;
    PaidBeforeSorted(payments, day);
    PaidBeforeIs(payments, day);
  }

  /** The rate in force on a day: the latest published by then, and of those of one day the last listed. */
  ghost predicate InForce(rates: seq<Rate>, day: int, k: nat) {
    && k < |rates| && rates[k].day <= day
    && forall j :: 0 <= j < |rates| && rates[j].day <= day ==>
         rates[j].day < rates[k].day || (rates[j].day == rates[k].day && j <= k)
  }

  predicate NoneInForce(rates: seq<Rate>, day: int) { forall j :: 0 <= j < |rates| ==> rates[j].day > day }

  /** An annual rate as a daily one: simple over the days of the year or effective, times the multiplier. */
  function PerDay(rate: Rate, rule: Rule): real
    requires rule.yearDays > 0
  {
    if rule.effective then rate.effectiveDaily * rule.bnaMultiplier
    else rate.annualPct / 100.0 / rule.yearDays as real * rule.bnaMultiplier
  }

  lemma {:induction false} RateInserted(day: int, s: seq<Rate>, x: Rate, rule: Rule)
    requires rule.yearDays > 0 && x.day <= day
    ensures DailyRate(day, Insert(s, x, RateNotLater), rule)
         == if forall j :: 0 <= j < |s| && s[j].day <= day ==> s[j].day <= x.day then [PerDay(x, rule)]
            else DailyRate(day, s, rule)
    requires Sorted(s, RateNotLater)
  {
    hide ConvertRate, PerDay;
    PerDayIs(x, rule);
    if s == [] || RateNotLater(s[|s| - 1], x) {
      assert (s + [x])[|s|] == x && (s + [x])[..|s|] == s;
      assert forall j :: 0 <= j < |s| - 1 ==> RateNotLater(s[j], s[|s| - 1]);
    } else {
      var n := |s| - 1;
      var front := Insert(s[..n], x, RateNotLater);
      RateInserted(day, s[..n], x, rule);
      assert (front + [s[n]])[..|front|] == front;
      if s[n].day > day {
        assert forall j :: 0 <= j < n ==> s[..n][j] == s[j];
      } else {
        assert !forall j :: 0 <= j < |s| && s[j].day <= day ==> s[j].day <= x.day;
      }
    }
  }

  lemma PerDayIs(rate: Rate, rule: Rule)
    requires rule.yearDays > 0
    ensures ConvertRate(rate, rule) == PerDay(rate, rule)
  {
  }

  /** The rate the engine scans for is the one in force; there is none when none has been published by then. */
  lemma {:induction false} RateInForce(rates: seq<Rate>, day: int, rule: Rule) returns (k: nat)
    requires rule.yearDays > 0
    ensures NoneInForce(rates, day) <==> DailyRate(day, SortRates(rates), rule) == []
    ensures !NoneInForce(rates, day) ==>
              InForce(rates, day, k) && DailyRate(day, SortRates(rates), rule) == [PerDay(rates[k], rule)]
  {
    hide DailyRate, PerDay, Insert, Sorted;
    k := 0;
    if rates == [] {
      NoRates(day, rule);
    } else {
      var n := |rates| - 1;
      var front, x := rates[..n], rates[n];
      k := RateInForce(front, day, rule);
      var sorted := SortRates(front);
      assert SortRates(rates) == Insert(sorted, x, RateNotLater);
      if x.day > day {
        LaterRateDoesNotCount(day, sorted, x, rule);
      } else {
        RateInserted(day, sorted, x, rule);
        SameRates(sorted, front, day, x.day);
        if NoneInForce(front, day) || front[k].day <= x.day { k := n; }
      }
    }
  }

  lemma NoRates(day: int, rule: Rule)
    requires rule.yearDays > 0
    ensures DailyRate(day, SortRates([]), rule) == []
  {
  }

  lemma SameRates(sorted: seq<Rate>, front: seq<Rate>, day: int, last: int)
    requires multiset(sorted) == multiset(front)
    ensures (forall j :: 0 <= j < |sorted| && sorted[j].day <= day ==> sorted[j].day <= last)
       <==> forall j :: 0 <= j < |front| && front[j].day <= day ==> front[j].day <= last
  {
    forall j | 0 <= j < |sorted| ensures sorted[j] in front { assert sorted[j] in multiset(front); }
    forall j | 0 <= j < |front| ensures front[j] in sorted { assert front[j] in multiset(sorted); }
  }

  /** The rate in force on a day, if any has been published by then. */
  ghost function RateOn(rates: seq<Rate>, day: int): Option<Rate> {
    if NoneInForce(rates, day) then None
    else
      SomeInForce(rates, day);
      var k: nat :| InForce(rates, day, k);
      Some(rates[k])
  }

  lemma SomeInForce(rates: seq<Rate>, day: int)
    requires !NoneInForce(rates, day)
    ensures exists k :: InForce(rates, day, k)
  {
    var k := RateInForce(rates, day, CentADay());
  }

  lemma ScannedRate(rates: seq<Rate>, day: int, rule: Rule)
    requires rule.yearDays > 0
    ensures DailyRate(day, SortRates(rates), rule)
         == match RateOn(rates, day) case None => [] case Some(r) => [PerDay(r, rule)]
  {
    hide DailyRate, SortRates, PerDay;
    var k := RateInForce(rates, day, rule);
    if !NoneInForce(rates, day) {
      SomeInForce(rates, day);
      var j: nat :| InForce(rates, day, j) && RateOn(rates, day) == Some(rates[j]);
      assert rates[j].day <= day && rates[k].day <= day;
    }
  }

  // ─── One day ──────────────────────────────────────────

  /** The daily value of the bank mode: the bank's when it is more than the agreed one. */
  ghost function BankValue(rates: seq<Rate>, day: int, rule: Rule): real
    requires rule.yearDays > 0
  {
    match RateOn(rates, day)
    case None => rule.value
    case Some(r) => if PerDay(r, rule) > rule.value then PerDay(r, rule) else rule.value
  }

  /** A day of the bank mode on which nothing is charged for lack of a rate. */
  ghost predicate Blocked(rates: seq<Rate>, day: int, rule: Rule) {
    rule.mode == MaxBnaOrDaily && rule.blockMissingRate && NoneInForce(rates, day)
  }

  /** The interest of a day that starts owing `base`, with `before` accrued. */
  ghost function Interest(rule: Rule, rates: seq<Rate>, day: int, base: real, before: real): real
    requires rule.yearDays > 0
  {
    match rule.mode
    case DailyFixed => rule.value
    case DailyPercent => base * rule.value
    case CompoundPercent => (base + before) * rule.value
    case MaxBnaOrDaily => base * BankValue(rates, day, rule)
  }

  /** What a day adds: its interest, rounded or not, and the days of each kind. */
  ghost predicate AddsDay(rule: Rule, rates: seq<Rate>, day: int, base: real, a: Accrual, b: Accrual)
    requires rule.yearDays > 0
  {
    var bank, charged := rule.mode == MaxBnaOrDaily, base > 0.0 && !Blocked(rates, day, rule);
    var above := bank && RateOn(rates, day).Some? && PerDay(RateOn(rates, day).value, rule) > rule.value;
    && (if !charged then b.accrued == a.accrued
        else if rule.roundDaily
        then IsRound2(b.accrued - a.accrued, Interest(rule, rates, day, base, a.accrued))
        else b.accrued == a.accrued + Interest(rule, rates, day, base, a.accrued))
    && b.accruingDays == a.accruingDays + (if charged then 1 else 0)
    && b.bnaDays == a.bnaDays + (if charged && above then 1 else 0)
    && b.floorDays == a.floorDays + (if charged && bank && !above then 1 else 0)
    && b.daysWithoutRate == a.daysWithoutRate + (if base > 0.0 && bank && NoneInForce(rates, day) then 1 else 0)
    && b.blockedDays == a.blockedDays + (if base > 0.0 && Blocked(rates, day, rule) then 1 else 0)
  }

  lemma AccruedDayAdds(rule: Rule, rates: seq<Rate>, day: int, base: real, a: Accrual)
    requires rule.yearDays > 0 && base >= 0.0
    ensures AddsDay(rule, rates, day, base, a, AccrueDay(rule, base, DailyRate(day, SortRates(rates), rule), a))
  {
    hide DailyRate, SortRates, PerDay, Round2, IsRound2;
    ScannedRate(rates, day, rule);
    var rate := DailyRate(day, SortRates(rates), rule);
    var x, b := Interest(rule, rates, day, base, a.accrued), AccrueDay(rule, base, rate, a);
    Round2IsRound2(x);
    if base > 0.0 && !Blocked(rates, day, rule) {
      assert rule.mode == MaxBnaOrDaily ==> GreaterRate(rule, rate) == BankValue(rates, day, rule);
      assert DayAmount(rule, base, a.accrued, rate) == x;
      assert rule.roundDaily ==> b.accrued - a.accrued == Round2(x);
    }
  }

  const NO_DAYS := Accrual(0.0, 0, 0, 0, 0, 0)

  /**
    Day after day. Until the grace is over nothing accrues; from then on each day adds what it should, on what it
    starts owing.
  */
  lemma OneMoreDay(dueDay: int, asOf: int, total: real, payments: seq<Dated>, rule: Rule, rates: seq<Rate>)
    requires rule.yearDays > 0
    ensures asOf <= dueDay + rule.graceDays ==> PenaltyAt(dueDay, asOf, total, payments, rule, rates).days == NO_DAYS
    ensures asOf >= dueDay + rule.graceDays ==>
              AddsDay(rule, rates, asOf + 1, OwedOn(total, payments, asOf + 1),
                      PenaltyAt(dueDay, asOf, total, payments, rule, rates).days,
                      PenaltyAt(dueDay, asOf + 1, total, payments, rule, rates).days)
  {
    hide AccrueDay, DailyRate, SortByDay, SortRates, Round2, AddsDay, Capped, CapOf;
    if asOf >= dueDay + rule.graceDays {
      var n, firstDay := asOf - dueDay - rule.graceDays, dueDay + rule.graceDays + 1;
      BaseIsOwed(total, payments, asOf + 1);
      AccruedDayAdds(rule, rates, asOf + 1, OwedOn(total, payments, asOf + 1),
                     AccrueDays(rule, total, SortByDay(payments), SortRates(rates), firstDay, n));
    }
  }

  // ─── The amount ───────────────────────────────────────

  /** The most that may be charged: a multiple of the total, or of what was owed when the interest began. */
  function CapFor(dueDay: int, total: real, payments: seq<Dated>, rule: Rule): real {
    (if rule.capOnOriginalTotal then total else OwedOn(total, payments, dueDay + rule.graceDays + 1))
    * (rule.maxMultiplier - 1.0)
  }

  /** The amount is what the days accrue up to the cap (when it is not negative), to the cent; nothing in grace. */
  lemma AmountWithCap(dueDay: int, asOf: int, total: real, payments: seq<Dated>, rule: Rule, rates: seq<Rate>)
    requires rule.yearDays > 0
    ensures var r, cap := PenaltyAt(dueDay, asOf, total, payments, rule, rates), CapFor(dueDay, total, payments, rule);
            && r.daysOverdue == (if asOf > dueDay then asOf - dueDay else 0)
            && (asOf <= dueDay + rule.graceDays ==> r.amount == 0.0 && !r.capHit)
            && (asOf > dueDay + rule.graceDays ==>
                  && r.baseAtStart == OwedOn(total, payments, dueDay + rule.graceDays + 1)
                  && (r.capHit <==> 0.0 <= cap < r.days.accrued)
                  && IsRound2(r.amount, if 0.0 <= cap < r.days.accrued then cap else r.days.accrued))
  {
    hide AccrueDays, SortByDay, SortRates, Round2, IsRound2, OwedOn, BaseOn;
    BaseIsOwed(total, payments, dueDay + rule.graceDays + 1);
    var r, cap := PenaltyAt(dueDay, asOf, total, payments, rule, rates), CapFor(dueDay, total, payments, rule);
    var x := if 0.0 <= cap < r.days.accrued then cap else r.days.accrued;
    Round2IsRound2(x);
    if asOf > dueDay + rule.graceDays {
      assert CapOf(rule, total, r.baseAtStart) == cap;
      assert r.amount == Round2(x);
    }
  }

  // ─── Several days ─────────────────────────────────────

  function Pow(x: real, n: nat): real { if n == 0 then 1.0 else x * Pow(x, n - 1) }

  /** The daily values of the bank mode over n days, those of the blocked ones left out. */
  ghost function BankValues(rates: seq<Rate>, first: int, n: nat, rule: Rule): real
    requires rule.yearDays > 0
  {
    if n == 0 then 0.0
    else BankValues(rates, first, n - 1, rule)
           + (if Blocked(rates, first + n - 1, rule) then 0.0 else BankValue(rates, first + n - 1, rule))
  }

  /** What n days accrue on the same balance: so much a day, simple, compound, or the bank's when it is more. */
  ghost function OverDays(rule: Rule, rates: seq<Rate>, first: int, n: nat, base: real): real
    requires rule.yearDays > 0
  {
    match rule.mode
    case DailyFixed => n as real * rule.value
    case DailyPercent => n as real * base * rule.value
    case CompoundPercent => base * (Pow(1.0 + rule.value, n) - 1.0)
    case MaxBnaOrDaily => base * BankValues(rates, first, n, rule)
  }

  lemma OneMoreOverDays(rule: Rule, rates: seq<Rate>, first: int, n: nat, base: real)
    requires rule.yearDays > 0 && !Blocked(rates, first + n, rule)
    ensures OverDays(rule, rates, first, n + 1, base)
         == OverDays(rule, rates, first, n, base)
            + Interest(rule, rates, first + n, base, OverDays(rule, rates, first, n, base))
  {
    hide BankValue;
    var v := rule.value;
    match rule.mode
    case DailyFixed =>
    case DailyPercent =>
      assert (n + 1) as real * base * v == n as real * base * v + base * v;
    case CompoundPercent =>
      var p := Pow(1.0 + v, n);
      assert Pow(1.0 + v, n + 1) == (1.0 + v) * p;
      assert base * ((1.0 + v) * p - 1.0) == base * (p - 1.0) + (base + base * (p - 1.0)) * v;
    case MaxBnaOrDaily =>
      var b := BankValues(rates, first, n, rule);
      assert base * (b + BankValue(rates, first + n, rule)) == base * b + base * BankValue(rates, first + n, rule);
  }

  /**
    Days that start owing the same, without daily rounding: what accrues in each mode, up to any day after the
    grace. In particular with no payment, when every day starts owing the total.
  */
  lemma {:induction false} SameBalanceAccrues(
    dueDay: int, asOf: int, total: real, payments: seq<Dated>, rule: Rule, rates: seq<Rate>, base: real)
    requires rule.yearDays > 0 && !rule.roundDaily && base > 0.0 && asOf >= dueDay + rule.graceDays
    requires forall day :: dueDay + rule.graceDays < day <= asOf ==> OwedOn(total, payments, day) == base
    ensures var n := asOf - dueDay - rule.graceDays;
            PenaltyAt(dueDay, asOf, total, payments, rule, rates).days.accrued
            == OverDays(rule, rates, dueDay + rule.graceDays + 1, n, base)
    decreases asOf - dueDay - rule.graceDays
  {
    hide PenaltyAt, OwedOn, Interest, OverDays;
    var n, first := asOf - dueDay - rule.graceDays, dueDay + rule.graceDays + 1;
    if n == 0 {
      OneMoreDay(dueDay, asOf, total, payments, rule, rates);
      NoDaysAccrue(rule, rates, first, base);
    } else {
      SameBalanceAccrues(dueDay, asOf - 1, total, payments, rule, rates, base);
      OneMoreDay(dueDay, asOf - 1, total, payments, rule, rates);
      if Blocked(rates, asOf, rule) {
        BlockedAddsNothing(rule, rates, first, n - 1, base);
      } else {
        OneMoreOverDays(rule, rates, first, n - 1, base);
      }
    }
  }

  lemma NoDaysAccrue(rule: Rule, rates: seq<Rate>, first: int, base: real)
    requires rule.yearDays > 0
    ensures OverDays(rule, rates, first, 0, base) == 0.0
  {
  }

  lemma BlockedAddsNothing(rule: Rule, rates: seq<Rate>, first: int, n: nat, base: real)
    requires rule.yearDays > 0 && Blocked(rates, first + n, rule)
    ensures OverDays(rule, rates, first, n + 1, base) == OverDays(rule, rates, first, n, base)
  {
  }

  lemma NoPaymentOwesTheTotal(total: real, day: int)
    requires total > 0.0
    ensures OwedOn(total, [], day) == total
  {
  }

  // ─── Payments before it ───────────────────────────────

  /** The rent a bill owes at the start of a day, of its total, its billed penalty and what was paid, in order. */
  lemma RentOwedAfterPayments(total: real, billed: real, payments: seq<Dated>, penaltyFirst: bool, day: int)
    requires NonNegative(payments)
    ensures var rent := if total > billed then total - billed else 0.0;
            var paid := PaidUntil(payments, day) - (if penaltyFirst && billed > 0.0 then billed else 0.0);
            var left := rent - (if paid > 0.0 then paid else 0.0);
            RentTotal(total, billed) == rent
            && OwedOn(RentTotal(total, billed), RentPayments(total, billed, payments, penaltyFirst), day)
               == if left > 0.0 then left else 0.0
  {
    hide RentPayments, PaidUntil, PaidBefore;
    RentOwedOn(total, billed, payments, penaltyFirst, day);
    PaidBeforeIs(payments, day);
    PaidBeforeIs(RentPayments(total, billed, payments, penaltyFirst), day);
  }
}
