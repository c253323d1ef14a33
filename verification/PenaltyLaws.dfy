/**
  Relations between two runs of the interest engine: which imputation of payments costs the tenant
  more, what billing more penalty does, and what one more day can do.
*/
module PenaltyLaws {
  import opened Penalty
  import opened Sorting

  // ─── Arithmetic ───────────────────────────────────────

  lemma ProductMonotone(a: real, b: real, k: real)
    requires a <= b && k >= 0.0
    ensures a * k <= b * k
  {
  }

  lemma FloorMonotone(a: real, b: real)
    requires a <= b
    ensures a.Floor <= b.Floor
  {
  }

  lemma Round2Monotone(a: real, b: real)
    requires a <= b
    ensures Round2(a) <= Round2(b)
    ensures a >= 0.0 ==> Round2(a) >= 0.0
  {
    if a >= 0.0 {
      FloorMonotone(0.0, a * 100.0 + 0.5);
      FloorMonotone(a * 100.0 + 0.5, b * 100.0 + 0.5);
    } else if b < 0.0 {
      FloorMonotone(-b * 100.0 + 0.5, -a * 100.0 + 0.5);
    } else {
      FloorMonotone(0.0, -a * 100.0 + 0.5);
      FloorMonotone(0.0, b * 100.0 + 0.5);
    }
  }

  // ─── Imputation ───────────────────────────────────────

  ghost predicate NonNegative(ps: seq<Dated>) {
    forall i :: 0 <= i < |ps| ==> ps[i].amount >= 0.0
  }

  function Total(ps: seq<Dated>): real {
    if ps == [] then 0.0 else Total(ps[..|ps| - 1]) + ps[|ps| - 1].amount
  }

  lemma {:induction false} TotalNonNegative(ps: seq<Dated>)
    requires NonNegative(ps)
    ensures Total(ps) >= 0.0
  {
    if ps != [] { TotalNonNegative(ps[..|ps| - 1]); }
  }

  lemma TotalSnoc(ps: seq<Dated>, p: Dated)
    ensures Total(ps + [p]) == Total(ps) + p.amount
  {
    assert (ps + [p])[..|ps|] == ps;
  }

  lemma RentFirstStep(billed: real, rent: real, s: Imputation, paid: real, p: Dated)
    requires rent >= 0.0 && paid >= 0.0 && p.amount >= 0.0
    requires s.rentLeft == Larger(rent - paid, 0.0)
    requires Total(s.rentPayments) == rent - s.rentLeft && NonNegative(s.rentPayments)
    ensures var t := ImputeOne(false, s, p);
            t.rentLeft == Larger(rent - (paid + p.amount), 0.0)
            && Total(t.rentPayments) == rent - t.rentLeft && NonNegative(t.rentPayments)
  {
    hide Total;
    TotalSnoc(s.rentPayments, Dated(p.day, Smaller(p.amount, s.rentLeft)));
  }

  lemma PenaltyFirstStep(billed: real, rent: real, s: Imputation, paid: real, p: Dated)
    requires billed >= 0.0 && paid >= 0.0 && p.amount >= 0.0
    requires s.penaltyLeft == Larger(billed - paid, 0.0)
    requires Total(s.rentPayments) == Larger(paid - billed, 0.0) && NonNegative(s.rentPayments)
    ensures var t := ImputeOne(true, s, p);
            t.penaltyLeft == Larger(billed - (paid + p.amount), 0.0)
            && Total(t.rentPayments) == Larger(paid + p.amount - billed, 0.0) && NonNegative(t.rentPayments)
  {
    hide Total;
    TotalSnoc(s.rentPayments, Dated(p.day, p.amount - Smaller(p.amount, s.penaltyLeft)));
  }

  /**
    Rent first: the rent left is the rent less everything paid, down to zero, and the rent payments
    are what is missing of it.
  */
  lemma {:induction false} RentFirstTotals(billed: real, rent: real, ps: seq<Dated>)
    requires rent >= 0.0 && NonNegative(ps)
    ensures var s := ImputeAll(false, billed, rent, ps);
            s.rentLeft == Larger(rent - Total(ps), 0.0)
            && Total(s.rentPayments) == rent - s.rentLeft
            && NonNegative(s.rentPayments)
  {
    if ps != [] {
      var front := ps[..|ps| - 1];
      RentFirstTotals(billed, rent, front);
      TotalNonNegative(front);
      RentFirstStep(billed, rent, ImputeAll(false, billed, rent, front), Total(front), ps[|ps| - 1]);
    }
  }

  /** Penalty first: the rent payments are what is paid beyond the billed penalty. */
  lemma {:induction false} PenaltyFirstTotals(billed: real, rent: real, ps: seq<Dated>)
    requires billed >= 0.0 && NonNegative(ps)
    ensures var s := ImputeAll(true, billed, rent, ps);
            s.penaltyLeft == Larger(billed - Total(ps), 0.0)
            && Total(s.rentPayments) == Larger(Total(ps) - billed, 0.0)
            && NonNegative(s.rentPayments)
  {
    if ps != [] {
      var front := ps[..|ps| - 1];
      PenaltyFirstTotals(billed, rent, front);
      TotalNonNegative(front);
      PenaltyFirstStep(billed, rent, ImputeAll(true, billed, rent, front), Total(front), ps[|ps| - 1]);
    }
  }

  lemma {:induction false} RentPaymentsKeepTheirDay(penaltyFirst: bool, billed: real, rent: real, ps: seq<Dated>)
    ensures var rp := ImputeAll(penaltyFirst, billed, rent, ps).rentPayments;
            |rp| == |ps| && forall i :: 0 <= i < |ps| ==> rp[i].day == ps[i].day
  {
    if ps != [] { RentPaymentsKeepTheirDay(penaltyFirst, billed, rent, ps[..|ps| - 1]); }
  }

  lemma {:induction false} AllBefore(ps: seq<Dated>, day: int)
    requires forall i :: 0 <= i < |ps| ==> ps[i].day < day
    ensures PaidBefore(ps, day) == Total(ps)
  {
    if ps != [] { AllBefore(ps[..|ps| - 1], day); }
  }

  lemma LaterDoesNotCount(ps: seq<Dated>, p: Dated, day: int)
    requires p.day >= day
    ensures PaidBefore(ps + [p], day) == PaidBefore(ps, day)
  {
    assert (ps + [p])[..|ps|] == ps;
  }

  // ─── Payment order does not matter ────────────────────

  lemma {:induction false} PaidBeforeInsert(s: seq<Dated>, x: Dated, day: int)
    ensures PaidBefore(Insert(s, x, NotLater), day) == PaidBefore(s, day) + (if x.day < day then x.amount else 0.0)
  {
    if s == [] {
    } else if s[|s| - 1].day <= x.day {
      assert (s + [x])[..|s|] == s;
    } else {
      var front := Insert(s[..|s| - 1], x, NotLater);
      PaidBeforeInsert(s[..|s| - 1], x, day);
      assert (front + [s[|s| - 1]])[..|front|] == front;
    }
  }

  lemma {:induction false} PaidBeforeSorted(s: seq<Dated>, day: int)
    ensures PaidBefore(SortByDay(s), day) == PaidBefore(s, day)
  {
    if s != [] {
      PaidBeforeSorted(s[..|s| - 1], day);
      PaidBeforeInsert(SortByDay(s[..|s| - 1]), s[|s| - 1], day);
    }
  }

  lemma {:induction false} PaidBeforeNonNegative(ps: seq<Dated>, day: int)
    requires NonNegative(ps)
    ensures PaidBefore(ps, day) >= 0.0
  {
    if ps != [] { PaidBeforeNonNegative(ps[..|ps| - 1], day); }
  }

  lemma SortedNonNegative(ps: seq<Dated>)
    requires NonNegative(ps)
    ensures NonNegative(SortByDay(ps))
  {
    var s := SortByDay(ps);
    forall i | 0 <= i < |s| ensures s[i].amount >= 0.0 {
      assert s[i] in multiset(ps);
    }
  }

  // ─── What an imputation leaves each day ───────────────

  /** Of the billed penalty, what comes before the rent. */
  function Ahead(billed: real, penaltyFirst: bool): real { if penaltyFirst then Larger(billed, 0.0) else 0.0 }

  /** What is left of the rent by then, of what was paid before it and after the penalty ahead of it. */
  function OwedAfter(rent: real, paid: real, ahead: real): real { Larger(rent - Larger(paid - ahead, 0.0), 0.0) }

  lemma ImputedBaseAfterAll(billed: real, rent: real, ps: seq<Dated>, penaltyFirst: bool, day: int)
    requires billed >= 0.0 && rent >= 0.0 && NonNegative(ps) && forall i :: 0 <= i < |ps| ==> ps[i].day < day
    ensures BaseOn(rent, ImputeAll(penaltyFirst, billed, rent, ps).rentPayments, day)
         == OwedAfter(rent, PaidBefore(ps, day), Ahead(billed, penaltyFirst))
  {
    hide ImputeAll, Total, PaidBefore;
    RentPaymentsKeepTheirDay(penaltyFirst, billed, rent, ps);
    AllBefore(ps, day);
    AllBefore(ImputeAll(penaltyFirst, billed, rent, ps).rentPayments, day);
    TotalNonNegative(ps);
    if penaltyFirst { PenaltyFirstTotals(billed, rent, ps); } else { RentFirstTotals(billed, rent, ps); }
  }

  lemma ImputedBaseWithoutLast(billed: real, rent: real, ps: seq<Dated>, penaltyFirst: bool, day: int)
    requires ps != [] && ps[|ps| - 1].day >= day
    ensures PaidBefore(ps, day) == PaidBefore(ps[..|ps| - 1], day)
    ensures PaidBefore(ImputeAll(penaltyFirst, billed, rent, ps).rentPayments, day)
         == PaidBefore(ImputeAll(penaltyFirst, billed, rent, ps[..|ps| - 1]).rentPayments, day)
  {
    hide ImputeAll, PaidBefore;
    var n := |ps| - 1;
    var all := ImputeAll(penaltyFirst, billed, rent, ps).rentPayments;
    RentPaymentsKeepTheirDay(penaltyFirst, billed, rent, ps);
    LastRentPayment(penaltyFirst, billed, rent, ps);
    LaterDoesNotCount(ps[..n], ps[n], day);
    LaterDoesNotCount(all[..n], all[n], day);
    assert ps == ps[..n] + [ps[n]];
  }

  lemma {:induction false} ImputedBase(billed: real, rent: real, ps: seq<Dated>, penaltyFirst: bool, day: int)
    requires billed >= 0.0 && rent >= 0.0 && NonNegative(ps) && SortedByDay(ps)
    ensures BaseOn(rent, ImputeAll(penaltyFirst, billed, rent, ps).rentPayments, day)
         == OwedAfter(rent, PaidBefore(ps, day), Ahead(billed, penaltyFirst))
  {
    hide ImputeAll, PaidBefore, OwedAfter, Ahead;
    if ps != [] && ps[|ps| - 1].day >= day {
      ImputedBase(billed, rent, ps[..|ps| - 1], penaltyFirst, day);
      ImputedBaseWithoutLast(billed, rent, ps, penaltyFirst, day);
    } else {
      ImputedBaseAfterAll(billed, rent, ps, penaltyFirst, day);
    }
  }

  /** On every day, rent-first leaves at most the balance that penalty-first leaves. */
  lemma RentFirstLowersTheBase(billed: real, rent: real, ps: seq<Dated>, day: int)
    requires billed >= 0.0 && rent >= 0.0 && NonNegative(ps) && SortedByDay(ps)
    ensures BaseOn(rent, ImputeAll(false, billed, rent, ps).rentPayments, day)
         <= BaseOn(rent, ImputeAll(true, billed, rent, ps).rentPayments, day)
  {
    hide ImputeAll, BaseOn;
    ImputedBase(billed, rent, ps, false, day);
    ImputedBase(billed, rent, ps, true, day);
  }

  lemma LastRentPayment(penaltyFirst: bool, billed: real, rent: real, ps: seq<Dated>)
    requires ps != []
    ensures var all := ImputeAll(penaltyFirst, billed, rent, ps).rentPayments;
            |all| == |ps| && all == all[..|ps| - 1] + [all[|ps| - 1]]
            && all[..|ps| - 1] == ImputeAll(penaltyFirst, billed, rent, ps[..|ps| - 1]).rentPayments
  {
    RentPaymentsKeepTheirDay(penaltyFirst, billed, rent, ps);
    RentPaymentsKeepTheirDay(penaltyFirst, billed, rent, ps[..|ps| - 1]);
  }

  /**
    The rent owed at the start of a day, for any payments recorded in any order: the rent less what was paid
    before the day, all of it when the rent goes first, what exceeds the billed penalty when it goes second.
  */
  lemma RentOwedOn(total: real, billed: real, payments: seq<Dated>, penaltyFirst: bool, day: int)
    requires NonNegative(payments)
    ensures BaseOn(RentTotal(total, billed), RentPayments(total, billed, payments, penaltyFirst), day)
         == OwedAfter(RentTotal(total, billed), PaidBefore(payments, day), Ahead(billed, penaltyFirst))
    ensures NonNegative(RentPayments(total, billed, payments, penaltyFirst))
  {
    hide ImputeAll;
    PaidBeforeNonNegative(payments, day);
    if billed > 0.0 {
      var rent, sorted := RentTotal(total, billed), SortByDay(payments);
      SortedNonNegative(payments);
      PaidBeforeSorted(payments, day);
      ImputedBase(billed, rent, sorted, penaltyFirst, day);
      if penaltyFirst { PenaltyFirstTotals(billed, rent, sorted); } else { RentFirstTotals(billed, rent, sorted); }
    }
  }

  // ─── Accrual of two runs ──────────────────────────────

  ghost predicate LowerBase(total: real, a: seq<Dated>, b: seq<Dated>) {
    forall day :: BaseOn(total, a, day) <= BaseOn(total, b, day)
  }

  /** One day: a lower balance and less accrued so far accrue no more, in every mode and rounding. */
  lemma AccrueDayMonotone(rule: Rule, base: real, base': real, rate: seq<real>, s: Accrual, s': Accrual)
    requires |rate| <= 1 && rule.value >= 0.0
    requires 0.0 <= base <= base' && 0.0 <= s.accrued <= s'.accrued
    ensures 0.0 <= AccrueDay(rule, base, rate, s).accrued <= AccrueDay(rule, base', rate, s').accrued
    ensures s'.accrued <= AccrueDay(rule, base', rate, s').accrued
  {
    hide Round2, DayAmount;
    var x, x' := DayAmount(rule, base, s.accrued, rate), DayAmount(rule, base', s'.accrued, rate);
    DayAmountMonotone(rule, base, base', rate, s.accrued, s'.accrued);
    Round2Monotone(0.0, x);
    Round2Monotone(x, x');
  }

  lemma GreaterRateNonNegative(rule: Rule, rate: seq<real>)
    requires rule.value >= 0.0
    ensures GreaterRate(rule, rate) >= 0.0
  {
  }

  lemma DayAmountMonotone(rule: Rule, base: real, base': real, rate: seq<real>, accrued: real, accrued': real)
    requires rule.value >= 0.0 && 0.0 <= base <= base' && 0.0 <= accrued <= accrued'
    ensures 0.0 <= DayAmount(rule, base, accrued, rate) <= DayAmount(rule, base', accrued', rate)
  {
    hide GreaterRate;
    var k := if rule.mode == MaxBnaOrDaily then GreaterRate(rule, rate) else rule.value;
    assert k >= 0.0 by { GreaterRateNonNegative(rule, rate); }
    if rule.mode == CompoundPercent {
      ProductMonotone(0.0, base + accrued, k);
      ProductMonotone(base + accrued, base' + accrued', k);
    } else if rule.mode != DailyFixed {
      ProductMonotone(0.0, base, k);
      ProductMonotone(base, base', k);
    }
  }

  lemma {:induction false} AccrueDaysMonotone(
    rule: Rule, total: real, a: seq<Dated>, b: seq<Dated>, rates: seq<Rate>, firstDay: int, n: nat)
    requires rule.yearDays > 0 && rule.value >= 0.0
    requires LowerBase(total, a, b)
    ensures 0.0 <= AccrueDays(rule, total, a, rates, firstDay, n).accrued
                <= AccrueDays(rule, total, b, rates, firstDay, n).accrued
  {
    hide AccrueDay, DailyRate, PaidBefore;
    if n > 0 {
      AccrueDaysMonotone(rule, total, a, b, rates, firstDay, n - 1);
      var day := firstDay + n - 1;
      AccrueDayMonotone(rule, BaseOn(total, a, day), BaseOn(total, b, day), DailyRate(day, rates, rule),
                        AccrueDays(rule, total, a, rates, firstDay, n - 1),
                        AccrueDays(rule, total, b, rates, firstDay, n - 1));
    }
  }

  lemma {:induction false} PaidBeforeGrows(ps: seq<Dated>, day: int, day': int)
    requires NonNegative(ps) && day <= day'
    ensures PaidBefore(ps, day) <= PaidBefore(ps, day')
  {
    if ps != [] { PaidBeforeGrows(ps[..|ps| - 1], day, day'); }
  }

  /** A debt already paid on the first day accrues nothing ever after. */
  lemma {:induction false} PaidFromTheStart(
    rule: Rule, total: real, ps: seq<Dated>, rates: seq<Rate>, firstDay: int, n: nat)
    requires rule.yearDays > 0 && NonNegative(ps) && BaseOn(total, ps, firstDay) == 0.0
    ensures AccrueDays(rule, total, ps, rates, firstDay, n).accrued == 0.0
  {
    if n > 0 {
      PaidFromTheStart(rule, total, ps, rates, firstDay, n - 1);
      PaidBeforeGrows(ps, firstDay, firstDay + n - 1);
    }
  }

  lemma CapMonotone(x: real, y: real, k: real, start: real, start': real)
    requires 0.0 <= x <= y && 0.0 <= start <= start'
    requires start == 0.0 ==> x == 0.0
    ensures Capped(x, start * k) <= Capped(y, start' * k)
  {
    if k >= 0.0 {
      ProductMonotone(start, start', k);
    } else if start > 0.0 {
      assert start * k < 0.0 && start' * k < 0.0;
    }
  }

  /** A run whose balance is never above another's never ends with more interest. */
  lemma LowerBaseLowerPenalty(
    dueDay: int, asOf: int, total: real, a: seq<Dated>, b: seq<Dated>, rule: Rule, rates: seq<Rate>)
    requires rule.yearDays > 0 && rule.value >= 0.0 && total >= 0.0
    requires NonNegative(a) && LowerBase(total, a, b)
    ensures PenaltyAt(dueDay, asOf, total, a, rule, rates).amount
         <= PenaltyAt(dueDay, asOf, total, b, rule, rates).amount
  {
    hide AccrueDays, Round2, Capped, PaidBefore;
    var overdue := DaysOverdue(dueDay, asOf);
    if overdue > rule.graceDays {
      var firstDay, n, rs := dueDay + rule.graceDays + 1, overdue - rule.graceDays, SortRates(rates);
      var sa, sb := SortByDay(a), SortByDay(b);
      forall day ensures BaseOn(total, sa, day) <= BaseOn(total, sb, day) {
        PaidBeforeSorted(a, day);
        PaidBeforeSorted(b, day);
        assert BaseOn(total, a, day) <= BaseOn(total, b, day);
      }
      AccrueDaysMonotone(rule, total, sa, sb, rs, firstDay, n);
      var x, y := AccrueDays(rule, total, sa, rs, firstDay, n).accrued,
          AccrueDays(rule, total, sb, rs, firstDay, n).accrued;
      var start, start' := BaseOn(total, sa, firstDay), BaseOn(total, sb, firstDay);
      SortedNonNegative(a);
      if start == 0.0 {
        PaidFromTheStart(rule, total, sa, rs, firstDay, n);
      }
      PaidBeforeNonNegative(sa, firstDay);
      CappedAmount(rule, total, start, start', x, y);
    }
  }

  lemma CappedAmount(rule: Rule, total: real, start: real, start': real, x: real, y: real)
    requires 0.0 <= x <= y && 0.0 <= start <= start' && start <= total
    requires start == 0.0 ==> x == 0.0
    ensures Round2(Capped(x, CapOf(rule, total, start))) <= Round2(Capped(y, CapOf(rule, total, start')))
  {
    hide Round2;
    CapMonotone(x, y, rule.maxMultiplier - 1.0, CapBase(rule, total, start), CapBase(rule, total, start'));
    Round2Monotone(Capped(x, CapOf(rule, total, start)), Capped(y, CapOf(rule, total, start')));
  }

  /**
    Imputing payments to the rent first never leaves the tenant owing more interest than imputing
    them to the billed penalty first: for every bill, list of payments and non-negative daily value,
    in the four modes, with either rounding, either cap base, any cap multiple and any rates.
  */
  lemma RentFirstNeverCostsMore(
    dueDay: int, asOf: int, total: real, billed: real, payments: seq<Dated>, rule: Rule, rates: seq<Rate>)
    requires rule.yearDays > 0 && rule.value >= 0.0 && NonNegative(payments)
    ensures PenaltyAt(dueDay, asOf, RentTotal(total, billed), RentPayments(total, billed, payments, false), rule,
              rates).amount
         <= PenaltyAt(dueDay, asOf, RentTotal(total, billed), RentPayments(total, billed, payments, true), rule,
             rates).amount
  {
    hide PenaltyAt, BaseOn;
    if billed > 0.0 {
      var rent, sorted := RentTotal(total, billed), SortByDay(payments);
      var a, b := RentPayments(total, billed, payments, false), RentPayments(total, billed, payments, true);
      SortedNonNegative(payments);
      forall day ensures BaseOn(rent, a, day) <= BaseOn(rent, b, day) {
        RentFirstLowersTheBase(billed, rent, sorted, day);
      }
      RentFirstTotals(billed, rent, sorted);
      LowerBaseLowerPenalty(dueDay, asOf, rent, a, b, rule, rates);
    }
  }

  /**
    Billing more penalty on the same rent never lowers the interest, and leaves it as it is when the rent goes
    first; when the penalty goes first, the payments of the days gone by are imputed to it again.
  */
  lemma BillingMorePenalty(
    dueDay: int, asOf: int, total: real, billed: real, total': real, billed': real, payments: seq<Dated>,
    penaltyFirst: bool, rule: Rule, rates: seq<Rate>)
    requires rule.yearDays > 0 && rule.value >= 0.0 && NonNegative(payments)
    requires RentTotal(total, billed) == RentTotal(total', billed') && billed <= billed'
    ensures var before, after := RentPayments(total, billed, payments, penaltyFirst),
                RentPayments(total', billed', payments, penaltyFirst);
            var rent := RentTotal(total, billed);
            && PenaltyAt(dueDay, asOf, rent, before, rule, rates).amount
               <= PenaltyAt(dueDay, asOf, rent, after, rule, rates).amount
            && (!penaltyFirst ==>
                  PenaltyAt(dueDay, asOf, rent, before, rule, rates).amount
                  == PenaltyAt(dueDay, asOf, rent, after, rule, rates).amount)
  {
    hide PenaltyAt, BaseOn, RentPayments;
    var rent := RentTotal(total, billed);
    var before := RentPayments(total, billed, payments, penaltyFirst);
    var after := RentPayments(total', billed', payments, penaltyFirst);
    forall day
      ensures BaseOn(rent, before, day) <= BaseOn(rent, after, day)
      ensures !penaltyFirst ==> BaseOn(rent, before, day) == BaseOn(rent, after, day)
    {
      RentOwedOn(total, billed, payments, penaltyFirst, day);
      RentOwedOn(total', billed', payments, penaltyFirst, day);
    }
    RentOwedOn(total, billed, payments, penaltyFirst, 0);
    RentOwedOn(total', billed', payments, penaltyFirst, 0);
    LowerBaseLowerPenalty(dueDay, asOf, rent, before, after, rule, rates);
    if !penaltyFirst { LowerBaseLowerPenalty(dueDay, asOf, rent, after, before, rule, rates); }
  }

  /**
    The payments must not be negative for that, as none the system records is: a payment taken back would be
    remembered as rent by one rule and as penalty by the other.
  */
  lemma NegativePaymentsCanReverseIt()
    ensures var rule := Rule(DailyFixed, 1.0, 0, 100.0, 2.0, 365, false, false, true, false);
            var payments := [Dated(0, 200.0), Dated(1, -50.0)];
            PenaltyAt(0, 2, RentTotal(110.0, 10.0), RentPayments(110.0, 10.0, payments, false), rule, []).amount
            > PenaltyAt(0, 2, RentTotal(110.0, 10.0), RentPayments(110.0, 10.0, payments, true), rule, []).amount
  {
    var rule := Rule(DailyFixed, 1.0, 0, 100.0, 2.0, 365, false, false, true, false);
    var payments := [Dated(0, 200.0), Dated(1, -50.0)];
    assert payments[..1] == [Dated(0, 200.0)];
    assert SortByDay([Dated(0, 200.0)]) == [Dated(0, 200.0)];
    assert SortByDay(payments) == payments;
    var a, b := [Dated(0, 100.0), Dated(1, -50.0)], [Dated(0, 190.0), Dated(1, 0.0)];
    assert ImputeAll(false, 10.0, 100.0, payments[..1]) == Imputation(0.0, 0.0, [Dated(0, 100.0)]);
    assert ImputeAll(true, 10.0, 100.0, payments[..1]) == Imputation(0.0, 0.0, [Dated(0, 190.0)]);
    assert RentPayments(110.0, 10.0, payments, false) == a;
    assert RentPayments(110.0, 10.0, payments, true) == b;
    TwoDays(rule, a);
    TwoDays(rule, b);
  }

  lemma TwoDays(rule: Rule, ps: seq<Dated>)
    requires rule == Rule(DailyFixed, 1.0, 0, 100.0, 2.0, 365, false, false, true, false)
    requires |ps| == 2 && ps[0].day == 0 && ps[1].day == 1 && ps[0].amount >= 100.0
    ensures PenaltyAt(0, 2, 100.0, ps, rule, []).amount == if ps[0].amount + ps[1].amount < 100.0 then 1.0 else 0.0
  {
    assert ps[..1] == [ps[0]];
    assert SortByDay([ps[0]]) == [ps[0]] && SortByDay(ps) == ps;
    assert PaidBefore([ps[0]], 1) == ps[0].amount && PaidBefore([ps[0]], 2) == ps[0].amount;
    assert PaidBefore(ps, 1) == ps[0].amount && PaidBefore(ps, 2) == ps[0].amount + ps[1].amount;
    assert AccrueDays(rule, 100.0, ps, [], 1, 1).accrued == 0.0;
  }
}
