/**
  The interest registered pass after pass, while payments are recorded, rates published, penalty billed and
  rules changed in between: each pass adds what is missing to reach the interest it computes.
*/
module PenaltyRuns {
  import opened Penalty
  import opened PenaltyLaws
  import opened Sorting

  // ─── What comes later does not count ──────────────────

  /** A payment dated on a day or after it changes nothing of what the rent had been paid before that day. */
  lemma {:induction false} LaterPaymentDoesNotCount(
    penaltyFirst: bool, billed: real, rent: real, s: seq<Dated>, x: Dated, day: int)
    requires x.day >= day
    ensures PaidBefore(ImputeAll(penaltyFirst, billed, rent, Insert(s, x, NotLater)).rentPayments, day)
         == PaidBefore(ImputeAll(penaltyFirst, billed, rent, s).rentPayments, day)
  {
    hide ImputeAll, PaidBefore;
    if s == [] || NotLater(s[|s| - 1], x) {
      assert Insert(s, x, NotLater) == s + [x];
      LaterImputation(penaltyFirst, billed, rent, s, x, day);
    } else {
      var front, last := s[..|s| - 1], s[|s| - 1];
      LaterPaymentDoesNotCount(penaltyFirst, billed, rent, front, x, day);
      LaterImputation(penaltyFirst, billed, rent, Insert(front, x, NotLater), last, day);
      LaterImputation(penaltyFirst, billed, rent, front, last, day);
      assert s == front + [last];
    }
  }

  lemma LaterImputation(penaltyFirst: bool, billed: real, rent: real, s: seq<Dated>, x: Dated, day: int)
    requires x.day >= day
    ensures PaidBefore(ImputeAll(penaltyFirst, billed, rent, s + [x]).rentPayments, day)
         == PaidBefore(ImputeAll(penaltyFirst, billed, rent, s).rentPayments, day)
  {
    assert (s + [x])[..|s|] == s;
    var before := ImputeAll(penaltyFirst, billed, rent, s);
    var after := ImputeOne(penaltyFirst, before, x);
    LaterDoesNotCount(before.rentPayments, after.rentPayments[|before.rentPayments|], day);
  }

  ghost predicate NoneBefore(ps: seq<Dated>, day: int) { forall i :: 0 <= i < |ps| ==> ps[i].day >= day }

  lemma {:induction false} ImputedLater(penaltyFirst: bool, billed: real, rent: real, a: seq<Dated>, more: seq<Dated>,
      day: int)
    requires NoneBefore(more, day)
    ensures PaidBefore(ImputeAll(penaltyFirst, billed, rent, SortByDay(a + more)).rentPayments, day)
         == PaidBefore(ImputeAll(penaltyFirst, billed, rent, SortByDay(a)).rentPayments, day)
  {
    hide ImputeAll, PaidBefore, Insert;
    if more == [] {
      assert a + more == a;
    } else {
      var n := |more| - 1;
      ImputedLater(penaltyFirst, billed, rent, a, more[..n], day);
      assert (a + more)[..|a + more| - 1] == a + more[..n];
      LaterPaymentDoesNotCount(penaltyFirst, billed, rent, SortByDay(a + more[..n]), more[n], day);
    }
  }

  lemma {:induction false} PaidLater(a: seq<Dated>, more: seq<Dated>, day: int)
    requires NoneBefore(more, day)
    ensures PaidBefore(a + more, day) == PaidBefore(a, day)
  {
    if more == [] {
      assert a + more == a;
    } else {
      var n := |more| - 1;
      PaidLater(a, more[..n], day);
      assert a + more == (a + more[..n]) + [more[n]];
      LaterDoesNotCount(a + more[..n], more[n], day);
    }
  }

  /** In either imputation, later payments do not change what the rent had been paid before. */
  lemma RentPaidLater(total: real, billed: real, a: seq<Dated>, more: seq<Dated>, penaltyFirst: bool, day: int)
    requires NoneBefore(more, day)
    ensures PaidBefore(SortByDay(RentPayments(total, billed, a + more, penaltyFirst)), day)
         == PaidBefore(SortByDay(RentPayments(total, billed, a, penaltyFirst)), day)
  {
    hide ImputeAll, PaidBefore, SortByDay;
    PaidBeforeSorted(RentPayments(total, billed, a + more, penaltyFirst), day);
    PaidBeforeSorted(RentPayments(total, billed, a, penaltyFirst), day);
    if billed <= 0.0 {
      PaidLater(a, more, day);
    } else {
      ImputedLater(penaltyFirst, billed, RentTotal(total, billed), a, more, day);
    }
  }

  lemma {:induction false} LaterRateDoesNotCount(day: int, s: seq<Rate>, x: Rate, rule: Rule)
    requires rule.yearDays > 0 && x.day > day
    ensures DailyRate(day, Insert(s, x, RateNotLater), rule) == DailyRate(day, s, rule)
  {
    hide ConvertRate;
    if s == [] || RateNotLater(s[|s| - 1], x) {
      assert (s + [x])[..|s|] == s;
    } else {
      var front := Insert(s[..|s| - 1], x, RateNotLater);
      LaterRateDoesNotCount(day, s[..|s| - 1], x, rule);
      assert (front + [s[|s| - 1]])[..|front|] == front;
    }
  }

  ghost predicate AllAfter(rs: seq<Rate>, day: int) { forall i :: 0 <= i < |rs| ==> rs[i].day > day }

  lemma {:induction false} RateLater(day: int, a: seq<Rate>, more: seq<Rate>, rule: Rule)
    requires rule.yearDays > 0 && AllAfter(more, day)
    ensures DailyRate(day, SortRates(a + more), rule) == DailyRate(day, SortRates(a), rule)
  {
    hide DailyRate, Insert;
    if more == [] {
      assert a + more == a;
    } else {
      var n := |more| - 1;
      RateLater(day, a, more[..n], rule);
      assert (a + more)[..|a + more| - 1] == a + more[..n];
      LaterRateDoesNotCount(day, SortRates(a + more[..n]), more[n], rule);
    }
  }

  // ─── From one day to another ──────────────────────────

  /** Two histories that say the same of every day up to one. */
  ghost predicate SameUpTo(asOf: int, a: seq<Dated>, b: seq<Dated>, r: seq<Rate>, r': seq<Rate>, rule: Rule)
    requires rule.yearDays > 0
  {
    forall day {:trigger PaidBefore(SortByDay(a), day)} {:trigger DailyRate(day, SortRates(r), rule)} :: day <= asOf ==>
      && PaidBefore(SortByDay(a), day) == PaidBefore(SortByDay(b), day)
      && DailyRate(day, SortRates(r), rule) == DailyRate(day, SortRates(r'), rule)
  }

  lemma {:induction false} SameDays(
    rule: Rule, total: real, a: seq<Dated>, b: seq<Dated>, r: seq<Rate>, r': seq<Rate>, firstDay: int, n: nat,
        asOf: int)
    requires rule.yearDays > 0 && SameUpTo(asOf, a, b, r, r', rule) && firstDay + n - 1 <= asOf
    ensures AccrueDays(rule, total, SortByDay(a), SortRates(r), firstDay, n)
         == AccrueDays(rule, total, SortByDay(b), SortRates(r'), firstDay, n)
  {
    hide AccrueDay, PaidBefore, DailyRate, SortByDay, SortRates;
    if n > 0 { SameDays(rule, total, a, b, r, r', firstDay, n - 1, asOf); }
  }

  lemma {:induction false} MoreDaysAccrueMore(
    rule: Rule, total: real, ps: seq<Dated>, rs: seq<Rate>, firstDay: int, n: nat, m: nat)
    requires rule.yearDays > 0 && rule.value >= 0.0 && n <= m
    ensures 0.0 <= AccrueDays(rule, total, ps, rs, firstDay, n).accrued
         <= AccrueDays(rule, total, ps, rs, firstDay, m).accrued
  {
    hide AccrueDay, PaidBefore, DailyRate;
    AccrueDaysMonotone(rule, total, ps, ps, rs, firstDay, n);
    if n < m {
      MoreDaysAccrueMore(rule, total, ps, rs, firstDay, n, m - 1);
      var day, s := firstDay + m - 1, AccrueDays(rule, total, ps, rs, firstDay, m - 1);
      var base := BaseOn(total, ps, day);
      AccrueDayMonotone(rule, base, base, DailyRate(day, rs, rule), s, s);
    }
  }

  lemma CappedGrows(rule: Rule, total: real, start: real, x: real, y: real)
    requires rule.maxMultiplier >= 1.0 && total >= 0.0 && start >= 0.0 && 0.0 <= x <= y
    ensures 0.0 <= Round2(Capped(x, CapOf(rule, total, start))) <= Round2(Capped(y, CapOf(rule, total, start)))
  {
    hide Round2;
    var cap := CapOf(rule, total, start);
    ProductMonotone(0.0, CapBase(rule, total, start), rule.maxMultiplier - 1.0);
    Round2Monotone(0.0, Capped(x, cap));
    Round2Monotone(Capped(x, cap), Capped(y, cap));
  }

  /** The interest never goes down as days pass, as long as nothing new is said of the days gone by. */
  lemma PenaltyNeverFalls(
    dueDay: int, asOf: int, asOf': int, total: real, a: seq<Dated>, b: seq<Dated>, rule: Rule, r: seq<Rate>,
        r': seq<Rate>)
    requires rule.yearDays > 0 && rule.value >= 0.0 && rule.maxMultiplier >= 1.0 && total >= 0.0
    requires asOf <= asOf' && SameUpTo(asOf, a, b, r, r', rule)
    ensures 0.0 <= PenaltyAt(dueDay, asOf, total, a, rule, r).amount
         <= PenaltyAt(dueDay, asOf', total, b, rule, r').amount
  {
    hide Round2, AccrueDays, PaidBefore, DailyRate, SortByDay, SortRates, Capped, CapOf;
    var firstDay := dueDay + rule.graceDays + 1;
    var sa, sb, ra, rb := SortByDay(a), SortByDay(b), SortRates(r), SortRates(r');
    var n', start := DaysOverdue(dueDay, asOf') - rule.graceDays, BaseOn(total, sb, firstDay);
    if n' > 0 {
      var n := DaysOverdue(dueDay, asOf) - rule.graceDays;
      if n > 0 {
        SameDays(rule, total, a, b, r, r', firstDay, n, asOf);
        assert PaidBefore(sa, firstDay) == PaidBefore(sb, firstDay);
        MoreDaysAccrueMore(rule, total, sb, rb, firstDay, n, n');
        CappedGrows(rule, total, start, AccrueDays(rule, total, sb, rb, firstDay, n).accrued,
                    AccrueDays(rule, total, sb, rb, firstDay, n').accrued);
      } else {
        MoreDaysAccrueMore(rule, total, sb, rb, firstDay, 0, n');
        CappedGrows(rule, total, start, AccrueDays(rule, total, sb, rb, firstDay, n').accrued,
                    AccrueDays(rule, total, sb, rb, firstDay, n').accrued);
      }
    }
  }

  /** In particular with payments recorded in between, as long as they are of that day or later ones. */
  lemma PenaltyGrowsWithTime(
    dueDay: int, asOf: int, asOf': int, total: real, payments: seq<Dated>, more: seq<Dated>, rule: Rule,
    rates: seq<Rate>, newer: seq<Rate>)
    requires rule.yearDays > 0 && rule.value >= 0.0 && rule.maxMultiplier >= 1.0 && total >= 0.0
    requires asOf <= asOf' && NoneBefore(more, asOf) && AllAfter(newer, asOf)
    ensures PenaltyAt(dueDay, asOf, total, payments, rule, rates).amount
         <= PenaltyAt(dueDay, asOf', total, payments + more, rule, rates + newer).amount
  {
    hide PaidBefore, DailyRate, SortByDay, SortRates, PenaltyAt;
    forall day | day <= asOf
      ensures PaidBefore(SortByDay(payments), day) == PaidBefore(SortByDay(payments + more), day)
      ensures DailyRate(day, SortRates(rates), rule) == DailyRate(day, SortRates(rates + newer), rule)
    {
      PaidBeforeSorted(payments, day);
      PaidBeforeSorted(payments + more, day);
      PaidLater(payments, more, day);
      RateLater(day, rates, newer, rule);
    }
    PenaltyNeverFalls(dueDay, asOf, asOf', total, payments, payments + more, rule, rates, rates + newer);
  }

  // ─── A run of passes ──────────────────────────────────

  /** A rule whose year has days. */
  type YearlyRule = rule: Rule | rule.yearDays > 0
    witness Rule(DailyFixed, 0.0, 0, 1.0, 1.0, 365, false, false, false, false)

  /** The liquidation the interest is of, and the rule in force. */
  datatype Debt = Debt(dueDay: int, total: real, billed: real, penaltyFirst: bool, rule: YearlyRule)

  /** A pass: its day, what it finds owed and by what rule, and the payments and rates new since the one before. */
  datatype Pass = Pass(asOf: int, debt: Debt, payments: seq<Dated>, rates: seq<Rate>)

  function PaymentsBy(passes: seq<Pass>): seq<Dated> {
    if passes == [] then [] else PaymentsBy(passes[..|passes| - 1]) + passes[|passes| - 1].payments
  }

  function RatesBy(passes: seq<Pass>): seq<Rate> {
    if passes == [] then [] else RatesBy(passes[..|passes| - 1]) + passes[|passes| - 1].rates
  }

  /** The interest of a debt at a day, with everything recorded so far. */
  function AccruedOn(d: Debt, asOf: int, payments: seq<Dated>, rates: seq<Rate>): real {
    PenaltyAt(d.dueDay, asOf, RentTotal(d.total, d.billed), RentPayments(d.total, d.billed, payments, d.penaltyFirst),
              d.rule, rates).amount
  }

  /** What the last pass computes. */
  function AccruedBy(passes: seq<Pass>): real
    requires passes != []
  {
    var last := passes[|passes| - 1];
    AccruedOn(last.debt, last.asOf, PaymentsBy(passes), RatesBy(passes))
  }

  /** What is registered after the passes: each one adds what is missing, and nothing when nothing is. */
  function Registered(passes: seq<Pass>): real {
    if passes == [] then 0.0
    else
      var existing := Registered(passes[..|passes| - 1]);
      var delta := AccruedBy(passes) - existing;
      if delta <= 0.0 then existing else existing + delta
  }

  /**
    Whatever the debt, its rule, the payments and the rates are at each pass: what is registered is the most that
    any pass computed, and never negative.
  */
  lemma {:induction false} RegistersTheMost(passes: seq<Pass>)
    ensures Registered(passes) >= 0.0
    ensures forall k :: 0 < k <= |passes| ==> AccruedBy(passes[..k]) <= Registered(passes)
    ensures Registered(passes) == 0.0 || exists k :: 0 < k <= |passes| && Registered(passes) == AccruedBy(passes[..k])
  {
    hide AccruedBy;
    var n := |passes|;
    assert passes[..n] == passes;
    if n > 0 {
      var front := passes[..n - 1];
      RegistersTheMost(front);
      forall k | 0 < k <= n ensures AccruedBy(passes[..k]) <= Registered(passes) {
        if k < n { assert front[..k] == passes[..k]; }
      }
      if Registered(passes) == Registered(front) != 0.0 {
        var k :| 0 < k <= n - 1 && Registered(front) == AccruedBy(front[..k]);
        assert front[..k] == passes[..k];
      }
    }
  }

  /** So it is what the last pass computes exactly when no pass before it computed more, and it is not negative. */
  lemma RegistersTheLastExactlyWhen(passes: seq<Pass>)
    requires passes != []
    ensures Registered(passes) == AccruedBy(passes) <==>
              AccruedBy(passes) >= 0.0 && forall k :: 0 < k < |passes| ==> AccruedBy(passes[..k]) <= AccruedBy(passes)
  {
    hide AccruedBy;
    RegistersTheMost(passes);
    assert passes[..|passes|] == passes;
  }

  // ─── Passes in time ───────────────────────────────────

  /** Days do not go back, and nothing recorded or published after a pass is of a day before it. */
  ghost predicate InTime(passes: seq<Pass>) {
    forall k :: 0 < k < |passes| ==>
      && passes[k - 1].asOf <= passes[k].asOf
      && NoneBefore(passes[k].payments, passes[k - 1].asOf)
      && AllAfter(passes[k].rates, passes[k - 1].asOf)
  }

  /** The rule stays, and the total only changes with the penalty billed. */
  predicate OnlyBillsPenalty(a: Debt, b: Debt) {
    && a.dueDay == b.dueDay && a.rule == b.rule && a.penaltyFirst == b.penaltyFirst
    && RentTotal(a.total, a.billed) == RentTotal(b.total, b.billed) && a.billed <= b.billed
  }

  /** The debt stays the same, or only penalty is billed on it, with no negative payments. */
  ghost predicate SameRent(passes: seq<Pass>) {
    || (forall k :: 0 < k < |passes| ==> passes[k].debt == passes[k - 1].debt)
    || (&& (forall k :: 0 < k < |passes| ==> OnlyBillsPenalty(passes[k - 1].debt, passes[k].debt))
        && (forall k :: 0 <= k < |passes| ==> NonNegative(passes[k].payments)))
  }

  lemma {:induction false} PaymentsAreNotNegative(passes: seq<Pass>)
    requires forall k :: 0 <= k < |passes| ==> NonNegative(passes[k].payments)
    ensures NonNegative(PaymentsBy(passes))
  {
    if passes != [] {
      PaymentsAreNotNegative(passes[..|passes| - 1]);
      assert NonNegative(passes[|passes| - 1].payments);
    }
  }

  /** Later payments and rates lower nothing: the same debt at a later day. */
  lemma AccruesWithTime(d: Debt, asOf: int, asOf': int, payments: seq<Dated>, more: seq<Dated>, rates: seq<Rate>,
      newer: seq<Rate>)
    requires d.rule.value >= 0.0 && d.rule.maxMultiplier >= 1.0
    requires asOf <= asOf' && NoneBefore(more, asOf) && AllAfter(newer, asOf)
    ensures 0.0 <= AccruedOn(d, asOf, payments, rates) <= AccruedOn(d, asOf', payments + more, rates + newer)
  {
    hide PaidBefore, DailyRate, SortByDay, SortRates, PenaltyAt, RentPayments;
    var ra := RentPayments(d.total, d.billed, payments, d.penaltyFirst);
    var rb := RentPayments(d.total, d.billed, payments + more, d.penaltyFirst);
    forall day | day <= asOf
      ensures PaidBefore(SortByDay(ra), day) == PaidBefore(SortByDay(rb), day)
      ensures DailyRate(day, SortRates(rates), d.rule) == DailyRate(day, SortRates(rates + newer), d.rule)
    {
      RentPaidLater(d.total, d.billed, payments, more, d.penaltyFirst, day);
      RateLater(day, rates, newer, d.rule);
    }
    PenaltyNeverFalls(d.dueDay, asOf, asOf', RentTotal(d.total, d.billed), ra, rb, d.rule, rates, rates + newer);
  }

  lemma OnePass(passes: seq<Pass>)
    requires InTime(passes) && SameRent(passes) && |passes| > 1
    requires passes[|passes| - 1].debt.rule.value >= 0.0 && passes[|passes| - 1].debt.rule.maxMultiplier >= 1.0
    ensures AccruedBy(passes[..|passes| - 1]) <= AccruedBy(passes)
  {
    hide PenaltyAt, RentPayments, AccruedOn, RentTotal, SameRent;
    var n := |passes| - 1;
    var before, last, d := passes[..n], passes[n], passes[n - 1].debt;
    var payments, rates := PaymentsBy(before), RatesBy(before);
    SameRentSteps(passes);
    AccruesWithTime(d, passes[n - 1].asOf, last.asOf, payments, last.payments, rates, last.rates);
    if last.debt != d {
      PaymentsAreNotNegative(passes);
      BilledAccruesMore(d, last.debt, last.asOf, PaymentsBy(passes), RatesBy(passes));
    }
  }

  lemma SameRentSteps(passes: seq<Pass>)
    requires SameRent(passes) && |passes| > 1
    ensures SameRent(passes[..|passes| - 1])
    ensures var last, d := passes[|passes| - 1].debt, passes[|passes| - 2].debt;
            && d.rule == last.rule
            && (last != d ==>
                  OnlyBillsPenalty(d, last) && forall k :: 0 <= k < |passes| ==> NonNegative(passes[k].payments))
  {
    hide NonNegative;
  }

  lemma BilledAccruesMore(a: Debt, b: Debt, asOf: int, payments: seq<Dated>, rates: seq<Rate>)
    requires a.rule.value >= 0.0 && OnlyBillsPenalty(a, b) && NonNegative(payments)
    ensures AccruedOn(a, asOf, payments, rates) <= AccruedOn(b, asOf, payments, rates)
  {
    hide PenaltyAt, RentPayments, RentTotal;
    BillingMorePenalty(a.dueDay, asOf, a.total, a.billed, b.total, b.billed, payments, a.penaltyFirst, a.rule, rates);
  }

  /**
    While payments are recorded and rates published in time, and the debt stays or only penalty is billed on it,
    what is registered after every pass is exactly the interest accrued by then: no pass ever finds more
    registered than accrued.
  */
  lemma {:induction false} RegistersWhatAccrues(passes: seq<Pass>)
    requires InTime(passes) && SameRent(passes) && passes != []
    requires passes[0].debt.rule.value >= 0.0 && passes[0].debt.rule.maxMultiplier >= 1.0
    ensures Registered(passes) == AccruedBy(passes)
    ensures AccruedBy(passes) >= Registered(passes[..|passes| - 1])
    ensures passes[|passes| - 1].debt.rule == passes[0].debt.rule
  {
    hide AccruedOn, SameRent;
    var n := |passes| - 1;
    if n > 0 {
      assert InTime(passes[..n]) by { EarlierInTime(passes); }
      SameRentSteps(passes);
      RegistersWhatAccrues(passes[..n]);
      OnePass(passes);
    } else {
      assert passes[..0] == [];
      var asOf, payments, rates := passes[0].asOf, PaymentsBy(passes), RatesBy(passes);
      assert payments + [] == payments && rates + [] == rates;
      AccruesWithTime(passes[0].debt, asOf, asOf, payments, [], rates, []);
    }
  }

  lemma EarlierInTime(passes: seq<Pass>)
    requires InTime(passes) && passes != []
    ensures InTime(passes[..|passes| - 1])
  {
  }

  // ─── Passes that find more registered ─────────────────

  /** A cent a day, without a limit that matters. */
  function CentADay(): YearlyRule { Rule(DailyFixed, 0.01, 0, 1000.0, 2.0, 365, false, false, true, false) }

  function WholeRent(): Debt { Debt(0, 100.0, 0.0, false, CentADay()) }

  /** Two days late without a payment; then the whole rent is recorded as paid on the due date. */
  function BackdatedPasses(): seq<Pass> {
    [Pass(2, WholeRent(), [], []), Pass(3, WholeRent(), [Dated(0, 100.0)], [])]
  }

  /** Two days late without a payment; then an agreement gives five days of grace. */
  function GracePasses(): seq<Pass> {
    [Pass(2, WholeRent(), [], []), Pass(3, WholeRent().(rule := CentADay().(graceDays := 5)), [], [])]
  }

  /** A day with a balance adds its amount, in every mode that needs no published rate. */
  lemma DayAdds(rule: Rule, total: real, ps: seq<Dated>, firstDay: int, n: nat)
    requires rule.yearDays > 0 && rule.mode != MaxBnaOrDaily && !rule.roundDaily
    requires BaseOn(total, ps, firstDay + n) > 0.0
    ensures var before := AccrueDays(rule, total, ps, [], firstDay, n).accrued;
            AccrueDays(rule, total, ps, [], firstDay, n + 1).accrued
            == before + DayAmount(rule, BaseOn(total, ps, firstDay + n), before, [])
  {
    hide DayAmount, BaseOn;
  }

  /** An amount that does not reach the whole total stays under a cap of at least as much. */
  lemma UnderTheCap(rule: Rule, asOf: int, total: real, ps: seq<Dated>)
    requires rule.yearDays > 0 && rule.capOnOriginalTotal && rule.maxMultiplier >= 2.0 && asOf > rule.graceDays == 0
    requires 0.0 <= AccrueDays(rule, total, SortByDay(ps), [], 1, asOf).accrued <= total
    ensures PenaltyAt(0, asOf, total, ps, rule, []).amount
         == Round2(AccrueDays(rule, total, SortByDay(ps), [], 1, asOf).accrued)
  {
    hide AccrueDays, Round2, SortByDay;
    assert SortRates([]) == [];
    ProductMonotone(1.0, rule.maxMultiplier - 1.0, total);
  }

  lemma Cents()
    ensures Round2(0.02) == 0.02 && Round2(1.0) == 1.0 && Round2(1.02) == 1.02
  {
  }

  lemma TwoDaysAccrue()
    ensures PenaltyAt(0, 2, 100.0, [], CentADay(), []).amount == 0.02
  {
    hide AccrueDays, PenaltyAt, Round2;
    var rule := CentADay();
    assert SortByDay([]) == [];
    NoDays(rule, 100.0, [], 1);
    DayAdds(rule, 100.0, [], 1, 0);
    DayAdds(rule, 100.0, [], 1, 1);
    UnderTheCap(rule, 2, 100.0, []);
    Cents();
  }

  lemma NoDays(rule: Rule, total: real, ps: seq<Dated>, firstDay: int)
    requires rule.yearDays > 0
    ensures AccrueDays(rule, total, ps, [], firstDay, 0).accrued == 0.0
  {
  }

  lemma PaidOnTimeAccruesNothing()
    ensures PenaltyAt(0, 3, 100.0, [Dated(0, 100.0)], CentADay(), []).amount == 0.0
  {
    hide AccrueDays;
    var ps := [Dated(0, 100.0)];
    assert ps[..0] == [];
    assert SortByDay(ps) == ps && PaidBefore(ps, 1) == 100.0;
    PaidFromTheStart(CentADay(), 100.0, ps, SortRates([]), 1, 3);
  }

  lemma FirstPassIs(passes: seq<Pass>)
    requires passes != []
    ensures PaymentsBy(passes[..1]) == passes[0].payments && RatesBy(passes[..1]) == passes[0].rates
  {
    assert passes[..1][..0] == [];
    assert PaymentsBy(passes[..1][..0]) == [] && RatesBy(passes[..1][..0]) == [];
  }

  /** What two passes register: what the first computes, unless the second computes more. */
  lemma TwoPasses(passes: seq<Pass>, first: real, second: real)
    requires |passes| == 2
    requires first == AccruedOn(passes[0].debt, passes[0].asOf, passes[0].payments, passes[0].rates)
    requires second == AccruedOn(passes[1].debt, passes[1].asOf, passes[0].payments + passes[1].payments,
                                 passes[0].rates + passes[1].rates)
    ensures AccruedBy(passes[..1]) == first && AccruedBy(passes) == second
    ensures Registered(passes) == Larger(Larger(first, 0.0), second)
  {
    hide AccruedOn;
    FirstPassIs(passes);
    assert passes[..1][..0] == [] && Registered(passes[..1][..0]) == 0.0;
  }

  /** A payment recorded late with an earlier date lowers what is accrued; what is registered stays. */
  lemma BackdatedPaymentLowersIt()
    ensures var passes := BackdatedPasses();
            && AccruedBy(passes[..1]) == 0.02 && AccruedBy(passes) == 0.0
            && Registered(passes) == 0.02 && !InTime(passes)
  {
    hide PenaltyAt, Registered, AccruedBy, CentADay;
    var passes := BackdatedPasses();
    TwoDaysAccrue();
    PaidOnTimeAccruesNothing();
    assert passes[0].payments + passes[1].payments == [Dated(0, 100.0)] && passes[0].rates + passes[1].rates == [];
    TwoPasses(passes, 0.02, 0.0);
    assert !NoneBefore(passes[1].payments, passes[0].asOf) by { assert passes[1].payments[0].day < 2; }
  }

  lemma NothingInGrace(rule: Rule)
    requires rule.yearDays > 0 && rule.graceDays >= 3
    ensures PenaltyAt(0, 3, 100.0, [], rule, []).amount == 0.0
  {
  }

  lemma GraceInTime()
    ensures InTime(GracePasses()) && !SameRent(GracePasses())
  {
    assert GracePasses()[1].debt.rule != GracePasses()[0].debt.rule;
  }

  /** A rule that an agreement softens lowers it too, with every payment and rate in time. */
  lemma SofterRuleLowersIt()
    ensures var passes := GracePasses();
            && AccruedBy(passes[..1]) == 0.02 && AccruedBy(passes) == 0.0
            && Registered(passes) == 0.02 && InTime(passes) && !SameRent(passes)
  {
    hide PenaltyAt, Registered, AccruedBy, InTime, SameRent;
    var passes := GracePasses();
    GraceInTime();
    TwoDaysAccrue();
    NothingInGrace(passes[1].debt.rule);
    assert passes[0].payments + passes[1].payments == [] && passes[0].rates + passes[1].rates == [];
    TwoPasses(passes, 0.02, 0.0);
  }

  // ─── Penalty billed between two passes ────────────────

  /** One per cent a day of a rent of a hundred; fifty are paid on the due date. */
  function PercentADay(): YearlyRule { Rule(DailyPercent, 0.01, 0, 1000.0, 2.0, 365, false, false, true, false) }

  /** The penalty of two days is billed on the liquidation, with a payment of ten that goes to the penalty first. */
  function BilledPasses(): seq<Pass> {
    [Pass(2, Debt(0, 100.0, 0.0, true, PercentADay()), [Dated(0, 50.0)], []),
     Pass(2, Debt(0, 101.0, 1.0, true, PercentADay()), [Dated(2, 10.0)], [])]
  }

  lemma TwoDaysOf(ps: seq<Dated>, base: real)
    requires 0.0 < base <= 100.0 && BaseOn(100.0, SortByDay(ps), 1) == base && BaseOn(100.0, SortByDay(ps), 2) == base
    ensures PenaltyAt(0, 2, 100.0, ps, PercentADay(), []).amount == Round2(0.02 * base)
  {
    hide AccrueDays, BaseOn, Round2, PenaltyAt, SortByDay;
    var rule, sorted := PercentADay(), SortByDay(ps);
    NoDays(rule, 100.0, sorted, 1);
    DayAdds(rule, 100.0, sorted, 1, 0);
    DayAdds(rule, 100.0, sorted, 1, 1);
    UnderTheCap(rule, 2, 100.0, ps);
  }

  /**
    With the penalty first, billing what two days accrued raises what they accrue: fifty cents less of the first
    payment go to the rent, so the same two days now accrue two cents more.
  */
  lemma BillingRaisesDaysGoneBy()
    ensures var passes := BilledPasses();
            && InTime(passes) && SameRent(passes)
            && AccruedBy(passes[..1]) == 1.0 && AccruedBy(passes) == 1.02 && Registered(passes) == 1.02
  {
    hide AccruedOn, Registered, AccruedBy, PercentADay, InTime, SameRent;
    var passes := BilledPasses();
    BilledInTime();
    BilledSameRent();
    BeforeBilling();
    AfterBilling();
    assert passes[0].payments + passes[1].payments == [Dated(0, 50.0), Dated(2, 10.0)];
    assert passes[0].rates + passes[1].rates == [];
    TwoPasses(passes, 1.0, 1.02);
  }

  lemma BilledInTime()
    ensures InTime(BilledPasses())
  {
    hide PercentADay;
  }

  lemma BilledSameRent()
    ensures SameRent(BilledPasses())
  {
    hide PercentADay;
    var passes := BilledPasses();
    assert OnlyBillsPenalty(passes[0].debt, passes[1].debt);
  }

  lemma BeforeBilling()
    ensures AccruedOn(Debt(0, 100.0, 0.0, true, PercentADay()), 2, [Dated(0, 50.0)], []) == 1.0
  {
    hide AccruedOn, PercentADay, Round2;
    TwoDaysBilled(100.0, 0.0, [Dated(0, 50.0)], 50.0);
    Cents();
  }

  lemma AfterBilling()
    ensures AccruedOn(Debt(0, 101.0, 1.0, true, PercentADay()), 2, [Dated(0, 50.0), Dated(2, 10.0)], []) == 1.02
  {
    hide AccruedOn, PercentADay, Round2;
    TwoDaysBilled(101.0, 1.0, [Dated(0, 50.0), Dated(2, 10.0)], 51.0);
    Cents();
  }

  lemma TwoDaysBilled(total: real, billed: real, payments: seq<Dated>, base: real)
    requires NonNegative(payments) && payments != [] && billed >= 0.0 && RentTotal(total, billed) == 100.0
    requires payments[0] == Dated(0, 50.0)
    requires forall i :: 0 < i < |payments| ==> payments[i].day >= 2
    requires 0.0 < base == 100.0 - (50.0 - billed) <= 100.0
    ensures AccruedOn(Debt(0, total, billed, true, PercentADay()), 2, payments, []) == Round2(0.02 * base)
  {
    hide RentPayments, PenaltyAt, BaseOn, PercentADay, Round2;
    BaseOfDay(total, billed, payments, 1, base);
    BaseOfDay(total, billed, payments, 2, base);
    TwoDaysOf(RentPayments(total, billed, payments, true), base);
  }

  lemma BaseOfDay(total: real, billed: real, payments: seq<Dated>, day: int, base: real)
    requires NonNegative(payments) && payments != [] && billed >= 0.0
    requires payments[0] == Dated(0, 50.0) && 0 < day
    requires forall i :: 0 < i < |payments| ==> payments[i].day >= day
    requires base == Larger(RentTotal(total, billed) - Larger(50.0 - billed, 0.0), 0.0)
    ensures BaseOn(RentTotal(total, billed), SortByDay(RentPayments(total, billed, payments, true)), day) == base
  {
    hide RentPayments;
    RentOwedOn(total, billed, payments, true, day);
    PaidBeforeSorted(RentPayments(total, billed, payments, true), day);
    var first, rest := [payments[0]], payments[1..];
    assert payments == first + rest && first[..0] == [];
    PaidLater(first, rest, day);
    assert PaidBefore(first, day) == 50.0;
  }
}
