/**
  Late-payment interest, day by day on the balance each day starts with, and the imputation of
  partial payments that comes before it. Amounts and rates are exact rationals (`real`); days are
  day numbers.
*/
module Penalty {
  import opened Sorting

  /** A payment. */
  datatype Dated = Dated(day: int, amount: real)

  /**
    An annual rate in force from a day. effectiveDaily is (1 + annualPct / 100) ^ (1 / yearDays) - 1 as the
    decimal library computes it.
  */
  datatype Rate = Rate(day: int, annualPct: real, effectiveDaily: real)

  datatype Mode = DailyFixed | DailyPercent | CompoundPercent | MaxBnaOrDaily

  datatype Rule = Rule(
    mode: Mode, value: real, graceDays: nat, maxMultiplier: real, bnaMultiplier: real, yearDays: nat,
    effective: bool, roundDaily: bool, capOnOriginalTotal: bool, blockMissingRate: bool)

  datatype Accrual = Accrual(
    accrued: real, accruingDays: nat, bnaDays: nat, floorDays: nat, daysWithoutRate: nat, blockedDays: nat)

  datatype Accrued = Accrued(amount: real, daysOverdue: nat, capHit: bool, baseAtStart: real, days: Accrual)

  function Larger(a: real, b: real): real { if a >= b then a else b }
  function Smaller(a: real, b: real): real { if a <= b then a else b }

  /** Half away from zero, to two decimals. */
  function Round2(x: real): real {
    if x >= 0.0 then UpFromHalf(x) as real / 100.0 else -(UpFromHalf(-x) as real / 100.0)
  }

  function UpFromHalf(x: real): int { (x * 100.0 + 0.5).Floor }

  // ─── Order by day ─────────────────────────────────────

  predicate NotLater(a: Dated, b: Dated) { a.day <= b.day }

  predicate RateNotLater(a: Rate, b: Rate) { a.day <= b.day }

  predicate SortedByDay(s: seq<Dated>) { Sorted(s, NotLater) }

  /** Stable order by day: an entry goes after the earlier ones of its day. */
  function SortByDay(s: seq<Dated>): (r: seq<Dated>)
    ensures SortedByDay(r) && multiset(r) == multiset(s)
  {
    SortIsSorted(s, NotLater);
    Sort(s, NotLater)
  }

  function SortRates(s: seq<Rate>): (r: seq<Rate>)
    ensures Sorted(r, RateNotLater) && multiset(r) == multiset(s)
  {
    SortIsSorted(s, RateNotLater);
    Sort(s, RateNotLater)
  }

  // ─── Imputation of payments ───────────────────────────

  datatype Imputation = Imputation(penaltyLeft: real, rentLeft: real, rentPayments: seq<Dated>)

  function ImputeOne(penaltyFirst: bool, s: Imputation, p: Dated): Imputation {
    var toRent := if penaltyFirst then p.amount - Smaller(p.amount, s.penaltyLeft) else Smaller(p.amount, s.rentLeft);
    var toPenalty := if penaltyFirst then Smaller(p.amount, s.penaltyLeft)
                     else Smaller(p.amount - toRent, s.penaltyLeft);
    Imputation(s.penaltyLeft - toPenalty, Larger(s.rentLeft - toRent, 0.0), s.rentPayments + [Dated(p.day, toRent)])
  }

  function ImputeAll(penaltyFirst: bool, billed: real, rent: real, ps: seq<Dated>): Imputation {
    if ps == [] then Imputation(billed, rent, [])
    else ImputeOne(penaltyFirst, ImputeAll(penaltyFirst, billed, rent, ps[..|ps| - 1]), ps[|ps| - 1])
  }

  lemma ImputeNothing(penaltyFirst: bool, billed: real, rent: real)
    ensures ImputeAll(penaltyFirst, billed, rent, []) == Imputation(billed, rent, [])
  {
  }

  lemma ImputeStep(penaltyFirst: bool, billed: real, rent: real, ps: seq<Dated>, i: nat)
    requires i < |ps|
    ensures ImputeAll(penaltyFirst, billed, rent, ps[..i + 1])
         == ImputeOne(penaltyFirst, ImputeAll(penaltyFirst, billed, rent, ps[..i]), ps[i])
  {
    assert ps[..i + 1][..i] == ps[..i];
  }

  function RentTotal(total: real, billed: real): real { Larger(total - billed, 0.0) }

  function RentPayments(total: real, billed: real, payments: seq<Dated>, penaltyFirst: bool): seq<Dated> {
    if billed <= 0.0 then payments
    else ImputeAll(penaltyFirst, billed, RentTotal(total, billed), SortByDay(payments)).rentPayments
  }

  method SplitPayments(total: real, billed: real, payments: seq<Dated>, penaltyFirst: bool)
    returns (rentTotal: real, rentPayments: seq<Dated>)
    ensures rentTotal == RentTotal(total, billed)
    ensures rentPayments == RentPayments(total, billed, payments, penaltyFirst)
  {
    hide SortByDay, ImputeAll, SortedByDay;
    rentTotal := Larger(total - billed, 0.0);
    if billed <= 0.0 {
      return rentTotal, payments;
    }
    var sorted := SortByDay(payments);
    var penaltyLeft, rentLeft := billed, rentTotal;
    rentPayments := [];
    assert sorted[..0] == [];
    ImputeNothing(penaltyFirst, billed, rentTotal);
    for i := 0 to |sorted|
      invariant Imputation(penaltyLeft, rentLeft, rentPayments)
          == ImputeAll(penaltyFirst, billed, rentTotal, sorted[..i])
    {
      ImputeStep(penaltyFirst, billed, rentTotal, sorted, i);
      var amount := sorted[i].amount;
      var toRent: real;
      if penaltyFirst {
        var toPenalty := Smaller(amount, penaltyLeft);
        penaltyLeft := penaltyLeft - toPenalty;
        toRent := amount - toPenalty;
      } else {
        toRent := Smaller(amount, rentLeft);
        var toPenalty := Smaller(amount - toRent, penaltyLeft);
        penaltyLeft := penaltyLeft - toPenalty;
      }
      rentLeft := Larger(rentLeft - toRent, 0.0);
      rentPayments := rentPayments + [Dated(sorted[i].day, toRent)];
    }
    assert sorted[..|sorted|] == sorted;
  }

  // ─── Accrual ──────────────────────────────────────────

  /** The daily rate of an annual one, nominal or effective, times the multiplier. */
  function ConvertRate(rate: Rate, rule: Rule): real
    requires rule.yearDays > 0
  {
    (if rule.effective then rate.effectiveDaily
     else rate.annualPct / 100.0 / rule.yearDays as real) * rule.bnaMultiplier
  }

  /** The last published annual rate in force on a day, converted to a daily one. */
  function DailyRate(day: int, rates: seq<Rate>, rule: Rule): (r: seq<real>)
    requires rule.yearDays > 0
    ensures |r| <= 1
  {
    if rates == [] then []
    else if rates[|rates| - 1].day <= day
    then [ConvertRate(rates[|rates| - 1], rule)]
    else DailyRate(day, rates[..|rates| - 1], rule)
  }

  /** What was paid strictly before a day. */
  function PaidBefore(payments: seq<Dated>, day: int): real {
    if payments == [] then 0.0
    else
      var n := |payments| - 1;
      PaidBefore(payments[..n], day) + (if payments[n].day < day then payments[n].amount else 0.0)
  }

  function BaseOn(total: real, payments: seq<Dated>, day: int): real {
    Larger(total - PaidBefore(payments, day), 0.0)
  }

  predicate UsesBna(rule: Rule, rate: seq<real>) {
    rate != [] && rate[0] > rule.value
  }

  function GreaterRate(rule: Rule, rate: seq<real>): real {
    if UsesBna(rule, rate) then rate[0] else rule.value
  }

  function DayAmount(rule: Rule, base: real, accrued: real, rate: seq<real>): real {
    match rule.mode
    case DailyFixed => rule.value
    case DailyPercent => base * rule.value
    case CompoundPercent => (base + accrued) * rule.value
    case MaxBnaOrDaily => base * GreaterRate(rule, rate)
  }

  /** One day with base `base`: nothing accrues without a balance, or on a blocked day without a rate. */
  function AccrueDay(rule: Rule, base: real, rate: seq<real>, s: Accrual): Accrual
    requires |rate| <= 1
  {
    if base <= 0.0 then s
    else if rule.mode == MaxBnaOrDaily && rate == [] && rule.blockMissingRate
    then s.(daysWithoutRate := s.daysWithoutRate + 1, blockedDays := s.blockedDays + 1)
    else
      var usesBna := rule.mode == MaxBnaOrDaily && UsesBna(rule, rate);
      var amount := DayAmount(rule, base, s.accrued, rate);
      Accrual(
        s.accrued + (if rule.roundDaily then Round2(amount) else amount),
        s.accruingDays + 1,
        s.bnaDays + (if usesBna then 1 else 0),
        s.floorDays + (if rule.mode == MaxBnaOrDaily && !usesBna then 1 else 0),
        s.daysWithoutRate + (if rule.mode == MaxBnaOrDaily && rate == [] then 1 else 0),
        s.blockedDays)
  }

  /** The first n days from firstDay on. */
  function AccrueDays(rule: Rule, total: real, payments: seq<Dated>, rates: seq<Rate>, firstDay: int, n: nat): Accrual
    requires rule.yearDays > 0
  {
    if n == 0 then Accrual(0.0, 0, 0, 0, 0, 0)
    else
      var day := firstDay + n - 1;
      AccrueDay(rule, BaseOn(total, payments, day), DailyRate(day, rates, rule),
                AccrueDays(rule, total, payments, rates, firstDay, n - 1))
  }

  function DaysOverdue(dueDay: int, asOf: int): nat { if asOf > dueDay then asOf - dueDay else 0 }

  function CapBase(rule: Rule, total: real, start: real): real {
    if rule.capOnOriginalTotal then total else start
  }

  function CapOf(rule: Rule, total: real, start: real): real {
    CapBase(rule, total, start) * (rule.maxMultiplier - 1.0)
  }

  function Capped(accrued: real, cap: real): real {
    if cap >= 0.0 && accrued > cap then cap else accrued
  }

  function PenaltyAt(dueDay: int, asOf: int, total: real, payments: seq<Dated>, rule: Rule, rates: seq<Rate>): Accrued
    requires rule.yearDays > 0
  {
    var overdue := DaysOverdue(dueDay, asOf);
    if overdue <= rule.graceDays then Accrued(0.0, overdue, false, 0.0, Accrual(0.0, 0, 0, 0, 0, 0))
    else
      var firstDay := dueDay + rule.graceDays + 1;
      var days := AccrueDays(rule, total, SortByDay(payments), SortRates(rates), firstDay, overdue - rule.graceDays);
      var start := BaseOn(total, SortByDay(payments), firstDay);
      var cap := CapOf(rule, total, start);
      Accrued(Round2(Capped(days.accrued, cap)), overdue, cap >= 0.0 && days.accrued > cap, start, days)
  }

  method PaidBeforeDay(payments: seq<Dated>, day: int) returns (paid: real)
    ensures paid == PaidBefore(payments, day)
  {
    paid := 0.0;
    for i := 0 to |payments|
      invariant paid == PaidBefore(payments[..i], day)
    {
      assert payments[..i + 1][..i] == payments[..i];
      if payments[i].day < day {
        paid := paid + payments[i].amount;
      }
    }
    assert payments[..|payments|] == payments;
  }

  method RateOnDay(day: int, rates: seq<Rate>, rule: Rule) returns (rate: seq<real>)
    requires rule.yearDays > 0 && Sorted(rates, RateNotLater)
    ensures rate == DailyRate(day, rates, rule)
  {
    hide ConvertRate;
    rate := [];
    var i := 0;
    while i < |rates| && rates[i].day <= day
      invariant 0 <= i <= |rates|
      invariant rate == DailyRate(day, rates[..i], rule)
    {
      assert rates[..i + 1][..i] == rates[..i];
      rate := [ConvertRate(rates[i], rule)];
      i := i + 1;
    }
    LaterRatesDoNotCount(day, rates, rule, i);
  }

  lemma {:induction false} LaterRatesDoNotCount(day: int, rates: seq<Rate>, rule: Rule, i: nat)
    requires rule.yearDays > 0 && i <= |rates|
    requires forall j :: i <= j < |rates| ==> rates[j].day > day
    ensures DailyRate(day, rates, rule) == DailyRate(day, rates[..i], rule)
  {
    if i == |rates| {
      assert rates[..i] == rates;
    } else {
      var front := rates[..|rates| - 1];
      LaterRatesDoNotCount(day, front, rule, i);
      assert front[..i] == rates[..i];
    }
  }

  /** The day-by-day loop, with its counters, its cap and its final rounding. */
  method AccruePenalty(dueDay: int, asOf: int, total: real, payments: seq<Dated>, rule: Rule, bnaRates: seq<Rate>)
    returns (r: Accrued)
    requires rule.yearDays > 0
    ensures r == PenaltyAt(dueDay, asOf, total, payments, rule, bnaRates)
  {
    hide Round2, PaidBefore, DailyRate, SortByDay, SortRates, DayAmount;
    var overdue := DaysOverdue(dueDay, asOf);
    if overdue <= rule.graceDays {
      return Accrued(0.0, overdue, false, 0.0, Accrual(0.0, 0, 0, 0, 0, 0));
    }
    var sorted, rates := SortByDay(payments), SortRates(bnaRates);
    var firstDay := dueDay + rule.graceDays + 1;
    var accrued, start := 0.0, 0.0;
    var counted: nat, bnaDays: nat, floorDays: nat, daysWithoutRate: nat, blockedDays: nat := 0, 0, 0, 0, 0;
    for i := 0 to overdue - rule.graceDays
      invariant Accrual(accrued, counted, bnaDays, floorDays, daysWithoutRate, blockedDays)
             == AccrueDays(rule, total, sorted, rates, firstDay, i)
      invariant i > 0 ==> start == BaseOn(total, sorted, firstDay)
    {
      var day := firstDay + i;
      var paid := PaidBeforeDay(sorted, day);
      var base := Larger(total - paid, 0.0);
      if i == 0 {
        start := base;
      }
      if base > 0.0 {
        var rate := RateOnDay(day, rates, rule);
        var blocked := false;
        if rule.mode == MaxBnaOrDaily {
          if rate == [] {
            daysWithoutRate := daysWithoutRate + 1;
          }
          if rate == [] && rule.blockMissingRate {
            blockedDays := blockedDays + 1;
            blocked := true;
          } else if UsesBna(rule, rate) {
            bnaDays := bnaDays + 1;
          } else {
            floorDays := floorDays + 1;
          }
        }
        if !blocked {
          var amount := DayAmount(rule, base, accrued, rate);
          counted := counted + 1;
          accrued := accrued + (if rule.roundDaily then Round2(amount) else amount);
        }
      }
    }
    var days := Accrual(accrued, counted, bnaDays, floorDays, daysWithoutRate, blockedDays);
    var cap := CapOf(rule, total, start);
    var capHit := false;
    if cap >= 0.0 && accrued > cap {
      accrued := cap;
      capHit := true;
    }
    r := Accrued(Round2(accrued), overdue, capHit, start, days);
  }
}
