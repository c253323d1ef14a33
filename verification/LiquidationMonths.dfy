/**
  The liquidations of a contract month after month, each with the rules in force in its month: which
  liquidation bills each day, and when a first month that was put off is lost or billed again.
*/
module LiquidationMonths {
  import opened Calendar
  import opened Liquidation
  import opened LiquidationLaws
  import opened Rounding
  import opened Wrappers

  // ─── The month after the first one ────────────────────

  /** A contract that is billed, and does not end before it starts. */
  predicate Runs(c: Contract) { Bills(c) && (c.actualEnd.Some? ==> c.start <= c.actualEnd.value) }

  /** What the next month's liquidation includes, with the first month's rent at hand and not billed yet. */
  lemma IncludedWhen(c: Contract, next: Input)
    requires next.contract == c && next.month == MonthOf(c.start) + 1
    requires next.firstMonth.Some? && !next.firstMonth.value.alreadyBilled
    ensures SkipOf(c, next.rules, next.month).None? && DeferredFirstMonth(next) <==> Runs(c) && PutsOff(c, next.rules)
  {
    hide MonthOf, MonthDays, MonthStart, SkipOf;
    BilledMonths(c, next.rules, next.month);
    if c.actualEnd.Some? {
      if c.start <= c.actualEnd.value { MonthOfMonotone(c.start, c.actualEnd.value); }
    }
  }

  lemma DeferredWhen(c: Contract, r: Rules)
    ensures SkipOf(c, r, MonthOf(c.start)) == Some(DeferredToNextPeriod) <==> Runs(c) && PutsOff(c, r)
  {
    hide MonthStart, MonthDays;
    var k := MonthOf(c.start);
    BilledMonths(c, r, k);
    BilledMonths(c, r.(firstDue := DiaDeInicio), k);
    if c.actualEnd.Some? {
      DayAndMonth(c.actualEnd.value, k);
      DayAndMonth(c.start, MonthOf(c.actualEnd.value));
    }
  }

  /**
    Whatever rules are in force in each of the two months: the first month is put off if and only if the
    next one's liquidation includes it (with its rent at hand and not billed yet), exactly when both rules
    put it off or neither does, or the contract is not billed at all.
  */
  lemma DeferredIffIncluded(c: Contract, r: Rules, next: Input)
    requires next.contract == c && next.month == MonthOf(c.start) + 1
    requires next.firstMonth.Some? && !next.firstMonth.value.alreadyBilled
    ensures (SkipOf(c, r, MonthOf(c.start)) == Some(DeferredToNextPeriod)
             <==> SkipOf(c, next.rules, next.month).None? && DeferredFirstMonth(next))
       <==> (Runs(c) ==> (PutsOff(c, r) <==> PutsOff(c, next.rules)))
    ensures r == next.rules ==>
              (SkipOf(c, r, MonthOf(c.start)) == Some(DeferredToNextPeriod)
               <==> SkipOf(c, next.rules, next.month).None? && DeferredFirstMonth(next))
  {
    hide PutsOff, SkipOf, Runs, DeferredFirstMonth;
    DeferredWhen(c, r);
    IncludedWhen(c, next);
  }

  // ─── Month after month ────────────────────────────────

  /**
    The liquidations of consecutive months of one contract from that of its start on, each with the rules of
    its month. The month after the first one knows whether the first was billed; none is refused for a
    negative line.
  */
  ghost predicate MonthByMonth(c: Contract, plan: seq<Input>) {
    forall i :: 0 <= i < |plan| ==>
      && plan[i].contract == c && plan[i].month == MonthOf(c.start) + i
      && plan[i].rules.dueDay > 0 && !Build(plan[i]).InvalidLineAmount?
      && (i == 1 && plan[1].rules.firstDue == VencimientoMesSiguiente ==>
            plan[1].firstMonth.Some? && plan[0].rules.dueDay > 0
            && plan[1].firstMonth.value.alreadyBilled == Build(plan[0]).Built?)
  }

  /** The i-th liquidation bills a day: as one it covers, or as one of a first month it includes. */
  predicate BilledIn(plan: seq<Input>, i: nat, day: nat)
    requires i < |plan| && plan[i].rules.dueDay > 0
  {
    && Build(plan[i]).Built?
    && (CoveredIn(plan[i].contract, plan[i].rules, plan[i].month, day)
        || (Build(plan[i]).includesDeferredFirstMonth
            && MonthOf(day) == MonthOf(plan[i].contract.start) && day >= plan[i].contract.start))
  }

  /** The month after the first one bills it: it was not billed, and the rules of the next month put it off. */
  predicate FirstMonthIsNext(c: Contract, plan: seq<Input>)
    requires |plan| > 0
  {
    FirstMonthElsewhere(c, plan[0].rules) && |plan| > 1 && PutsOff(c, plan[1].rules)
  }

  /**
    Which liquidation bills a day, for every contract and whatever rules each month has: that of its month,
    and no other; but a first month billed elsewhere, only the next one, when its rules put the first month
    off as well.
  */
  lemma EveryDayOnce(c: Contract, plan: seq<Input>, i: nat, day: nat)
    requires MonthByMonth(c, plan) && i < |plan|
    ensures BilledIn(plan, i, day) <==>
              && Bills(c) && InForce(c, day)
              && (if MonthOf(day) == MonthOf(c.start) && FirstMonthElsewhere(c, plan[0].rules)
                  then i == 1 && FirstMonthIsNext(c, plan)
                  else MonthOf(day) == MonthOf(c.start) + i)
  {
    hide MonthStart, MonthDays, SkipOf, MonthOf, Build, CoveredIn;
    var k := plan[i].month;
    MonthCoversItsDays(c, plan[i].rules, k, day);
    BilledMonths(c, plan[i].rules, k);
    BuiltWhen(plan[i]);
    if i == 1 { FirstMonthUnbilled(c, plan); }
    if InForce(c, day) { InForceMonths(c, day); }
    if BilledIn(plan, i, day) && Build(plan[i]).includesDeferredFirstMonth && MonthOf(day) == MonthOf(c.start) {
      DayInStartMonth(c, k, day);
    }
  }

  /** The next liquidation is told that the first month is not billed exactly when it was not. */
  lemma FirstMonthUnbilled(c: Contract, plan: seq<Input>)
    requires MonthByMonth(c, plan) && |plan| > 1
    ensures Build(plan[0]).Built? <==> Runs(c) && !FirstMonthElsewhere(c, plan[0].rules)
    ensures DeferredFirstMonth(plan[1]) <==> PutsOff(c, plan[1].rules) && !Build(plan[0]).Built?
  {
    hide MonthStart, MonthDays, SkipOf, MonthOf, Build;
    BuiltWhen(plan[0]);
    BilledMonths(c, plan[0].rules, plan[0].month);
    if Runs(c) && c.actualEnd.Some? { MonthOfMonotone(c.start, c.actualEnd.value); }
  }

  lemma InForceMonths(c: Contract, day: nat)
    requires InForce(c, day)
    ensures MonthOf(c.start) <= MonthOf(day)
    ensures c.actualEnd.Some? ==> MonthOf(day) <= MonthOf(c.actualEnd.value) && c.start <= c.actualEnd.value
  {
    MonthOfMonotone(c.start, day);
    if c.actualEnd.Some? { MonthOfMonotone(day, c.actualEnd.value); }
  }

  lemma DayInStartMonth(c: Contract, k: nat, day: nat)
    requires MonthOf(day) == MonthOf(c.start) < k && (c.actualEnd.Some? ==> k <= MonthOf(c.actualEnd.value))
    ensures c.actualEnd.Some? ==> day <= c.actualEnd.value
  {
    if c.actualEnd.Some? && c.actualEnd.value < day { MonthOfMonotone(c.actualEnd.value, day); }
  }

  /**
    No day is ever billed twice, and a day in force is billed in some month exactly when it is not of a first
    month that its own rules bill elsewhere and the next month's rules do not put off.
  */
  lemma DaysAreLostExactlyWhen(c: Contract, plan: seq<Input>, day: nat)
    requires MonthByMonth(c, plan) && Bills(c) && InForce(c, day) && |plan| > 1
    requires MonthOf(day) < MonthOf(c.start) + |plan|
    ensures forall i: nat, j: nat ::
              i < |plan| && j < |plan| && BilledIn(plan, i, day) && BilledIn(plan, j, day) ==> i == j
    ensures (exists i: nat :: i < |plan| && BilledIn(plan, i, day)) <==>
              (MonthOf(day) == MonthOf(c.start) && FirstMonthElsewhere(c, plan[0].rules) ==> PutsOff(c, plan[1].rules))
  {
    hide BilledIn, PutsOff, MonthOf, FirstMonthElsewhere;
    InForceMonths(c, day);
    forall i: nat | i < |plan|
      ensures BilledIn(plan, i, day) <==>
                if MonthOf(day) == MonthOf(c.start) && FirstMonthElsewhere(c, plan[0].rules)
                then i == 1 && FirstMonthIsNext(c, plan)
                else MonthOf(day) == MonthOf(c.start) + i
    {
      EveryDayOnce(c, plan, i, day);
    }
    var own := MonthOf(day) - MonthOf(c.start);
    assert plan[own] == plan[own] && plan[1] == plan[1];
    if MonthOf(day) == MonthOf(c.start) && FirstMonthElsewhere(c, plan[0].rules) {
      assert BilledIn(plan, 1, day) <==> FirstMonthIsNext(c, plan);
    } else {
      assert BilledIn(plan, own, day);
    }
  }

  // ─── Adding up the days ───────────────────────────────

  function BilledSum(plan: seq<Input>): int
    requires forall i :: 0 <= i < |plan| ==> plan[i].rules.dueDay > 0
  {
    if plan == [] then 0 else BilledSum(plan[..|plan| - 1]) + BilledDays(plan[|plan| - 1])
  }

  /** Days of a first month that no liquidation bills. */
  function LostDays(c: Contract, plan: seq<Input>): int
    requires c.actualEnd.Some? && |plan| > 0
  {
    if FirstMonthElsewhere(c, plan[0].rules) && !FirstMonthIsNext(c, plan)
    then Min(c.actualEnd.value - c.start + 1, FirstMonthDays(c)) else 0
  }

  /** Days of the contract up to the last of month k. */
  function DaysBy(c: Contract, k: nat): int
    requires c.actualEnd.Some?
  {
    Min(c.actualEnd.value, MonthStart(k) + MonthDays(k) - 1) - c.start + 1
  }

  predicate RealDays(plan: seq<Input>) { forall i :: 0 <= i < |plan| ==> plan[i].rules.proration == DiasReales }

  /** A month after the first one bills its own days, and those of the first month when it includes it. */
  lemma DaysOfOneMonth(c: Contract, plan: seq<Input>, i: nat)
    requires MonthByMonth(c, plan) && RealDays(plan) && i < |plan| && c.actualEnd.Some? && Runs(c)
    ensures BilledDays(plan[i])
         == (if i == 0 then (if FirstMonthElsewhere(c, plan[0].rules) then 0 else DaysBy(c, plan[0].month))
             else DaysBy(c, plan[i].month) - DaysBy(c, plan[i].month - 1)
                  + (if i == 1 && FirstMonthIsNext(c, plan) then FirstMonthDays(c) else 0))
  {
    hide MonthOf, MonthStart, MonthDays, SkipOf, Build, DaysOf;
    var k := plan[i].month;
    MonthBounds(k);
    if k > 0 { MonthBounds(k - 1); }
    BuiltWhen(plan[i]);
    BilledMonths(c, plan[i].rules, k);
    DayAndMonth(c.start, k);
    DayAndMonth(c.actualEnd.value, k);
    MonthOfMonotone(c.start, c.actualEnd.value);
    if k > 0 {
      DayAndMonth(c.start, k - 1);
      DayAndMonth(c.actualEnd.value, k - 1);
    }
    if i == 1 { FirstMonthUnbilled(c, plan); }
    if Build(plan[i]).Built? { RentIsForItsDays(plan[i]); }
  }

  lemma Shorter(c: Contract, plan: seq<Input>)
    requires MonthByMonth(c, plan) && RealDays(plan) && plan != []
    ensures MonthByMonth(c, plan[..|plan| - 1]) && RealDays(plan[..|plan| - 1])
  {
    var front := plan[..|plan| - 1];
    forall i | 0 <= i < |front|
      ensures front[i].contract == c && front[i].month == MonthOf(c.start) + i
      ensures front[i].rules.dueDay > 0 && !Build(front[i]).InvalidLineAmount?
    {
      assert front[i] == plan[i];
    }
  }

  lemma {:induction false} BuiltDaysSoFar(c: Contract, plan: seq<Input>)
    requires MonthByMonth(c, plan) && RealDays(plan) && |plan| > 1 && c.actualEnd.Some? && Runs(c)
    ensures BilledSum(plan) == DaysBy(c, MonthOf(c.start) + |plan| - 1) - LostDays(c, plan)
  {
    hide Build, BilledDays, MonthOf, MonthStart, MonthDays, PutsOff;
    var n := |plan| - 1;
    Shorter(c, plan);
    DaysOfOneMonth(c, plan, n);
    if n > 1 {
      BuiltDaysSoFar(c, plan[..n]);
    } else {
      DaysOfOneMonth(c, plan, 0);
      assert plan[..1][..0] == [] && plan[..1][0] == plan[0];
      assert BilledSum(plan[..1]) == BilledDays(plan[0]);
      FirstMonthDaysBy(c);
      if PutsOff(c, plan[1].rules) { GoesOnAfterFirstMonth(c, plan[1].rules); }
    }
  }

  lemma FirstMonthDaysBy(c: Contract)
    requires c.actualEnd.Some?
    ensures DaysBy(c, MonthOf(c.start)) == Min(c.actualEnd.value - c.start + 1, FirstMonthDays(c))
  {
  }

  lemma GoesOnAfterFirstMonth(c: Contract, r: Rules)
    requires c.actualEnd.Some? && c.start <= c.actualEnd.value && PutsOff(c, r)
    ensures FirstMonthDays(c) <= c.actualEnd.value - c.start + 1
  {
    hide MonthStart, MonthDays;
    MonthOfMonotone(c.start, c.actualEnd.value);
    DayAndMonth(c.actualEnd.value, MonthOf(c.start));
  }

  /**
    With real days in every month, the days of the liquidations built month by month, those of a first month
    that one of them includes among them, add up to the days from start to actual end, less a first month
    that none of them bills.
  */
  lemma BuiltDaysAddUp(c: Contract, plan: seq<Input>)
    requires MonthByMonth(c, plan) && RealDays(plan) && |plan| > 1 && c.actualEnd.Some? && Runs(c)
    requires MonthOf(c.actualEnd.value) < MonthOf(c.start) + |plan|
    ensures BilledSum(plan) == c.actualEnd.value - c.start + 1 - LostDays(c, plan)
    ensures BilledSum(plan) == c.actualEnd.value - c.start + 1 <==>
              (FirstMonthElsewhere(c, plan[0].rules) ==> PutsOff(c, plan[1].rules))
  {
    hide Build, BilledDays, MonthOf, MonthStart, MonthDays, PutsOff, FirstMonthElsewhere;
    BuiltDaysSoFar(c, plan);
    DayAndMonth(c.actualEnd.value, MonthOf(c.start) + |plan| - 1);
    assert FirstMonthDays(c) >= 1;
  }

  // ─── An end recorded later ────────────────────────────

  /** A liquidation built before the end was recorded is the one built knowing it, if the end is after its month. */
  lemma BuiltBeforeTheEndIsKnown(input: Input)
    requires input.rules.dueDay > 0 && input.contract.status != Borrador && input.contract.actualEnd.Some?
    requires input.contract.actualEnd.value >= MonthStart(input.month) + MonthDays(input.month)
    ensures Build(input) == Build(input.(contract := Contract(input.contract.start, None, Activo)))
  {
    var c, r, k := input.contract, input.rules, input.month;
    var before := input.(contract := Contract(c.start, None, Activo));
    EndPlaysNoPart(c, r, k);
    hide MonthOf, MonthStart, MonthDays, SkipOf, LastDay, CountDays, RentFor, DeferredFirstMonth, LinesOf, SumOf;
    SameRent(input, before);
    SameFirstMonth(input, before);
    SameLines(input, before);
  }

  /** The same input but for the end and the status of the contract. */
  predicate ButForTheEnd(a: Input, b: Input) { a == b.(contract := a.contract) && a.contract.start == b.contract.start }

  lemma SameFirstMonth(a: Input, b: Input)
    requires ButForTheEnd(a, b)
    requires a.month == MonthOf(a.contract.start) + 1 ==> !EndsInStartMonth(a.contract) && !EndsInStartMonth(b.contract)
    ensures DeferredFirstMonth(a) == DeferredFirstMonth(b)
  {
    hide MonthOf, MonthDays, EndsInStartMonth;
  }

  lemma SameLines(a: Input, b: Input)
    requires ButForTheEnd(a, b) && RentFor(a) == RentFor(b) && DeferredFirstMonth(a) == DeferredFirstMonth(b)
    requires LastDay(a.contract, a.month) == LastDay(b.contract, b.month)
    ensures LinesOf(a) == LinesOf(b)
  {
    hide MonthOf, MonthStart, MonthDays, LastDay, CountDays, RentFor, DeferredFirstMonth, ProratedAmount;
  }

  lemma SameRent(a: Input, b: Input)
    requires a == b.(contract := a.contract) && FirstDay(a.contract, a.month) == FirstDay(b.contract, b.month)
    requires LastDay(a.contract, a.month) == LastDay(b.contract, b.month)
    ensures RentFor(a) == RentFor(b)
  {
    hide MonthOf, MonthStart, MonthDays, CountDays, ProratedAmount, FirstDay, LastDay;
  }

  lemma EndPlaysNoPart(c: Contract, r: Rules, k: nat)
    requires c.status != Borrador && c.actualEnd.Some? && c.actualEnd.value >= MonthStart(k) + MonthDays(k)
    ensures var before := Contract(c.start, None, Activo);
            && SkipOf(before, r, k) == SkipOf(c, r, k) && LastDay(before, k) == LastDay(c, k)
            && (IsStartMonth(c, k) || k == MonthOf(c.start) + 1 ==> !EndsInStartMonth(c))
  {
    hide MonthOf, MonthStart, MonthDays;
    DayAndMonth(c.actualEnd.value, k);
  }

  // ─── Rules that change ────────────────────────────────

  /** Real days, the rent of the first month with the next one, due on a day of the month. */
  function RulesOf(firstDue: FirstDueMode, dueDay: nat): Rules {
    Rules(DiasReales, DesdePeriodoSiguiente, firstDue, false, dueDay, None, None)
  }

  /** A contract that starts on 15 January and has no recorded end. */
  const MID_JANUARY := Contract(14, None, Activo)

  /** Its first two months. */
  function TwoMonths(first: Rules, second: Rules): seq<Input> {
    [Input(0, MID_JANUARY, first, 3100, false, None, None, []),
     Input(1, MID_JANUARY, second, 2800, false, None, Some(FirstMonth(3100, false)), [])]
  }

  lemma MidJanuary()
    ensures MonthOf(14) == 0 && DayOfMonth(14) == 15 && MonthDays(0) == 31 && MonthStart(0) == 0 && MonthStart(1) == 31
  {
    MonthOfIs(14, 0);
  }

  lemma TwoMonthsAreBuilt(first: Rules, second: Rules)
    requires first.dueDay > 0 && second.dueDay > 0 && FirstMonthElsewhere(MID_JANUARY, first)
    requires first.proration == second.proration == DiasReales
    requires first.midMonth == second.midMonth == DesdePeriodoSiguiente
    requires first.discountPct == second.discountPct == None && first.discountAmount == second.discountAmount == None
    ensures MonthByMonth(MID_JANUARY, TwoMonths(first, second))
  {
    MidJanuary();
    hide MonthOf, MonthStart, MonthDays, RoundDiv, PutsOff, FirstMonthElsewhere;
    var plan := TwoMonths(first, second);
    BilledMonths(MID_JANUARY, first, 0);
    BuiltWhen(plan[0]);
    PositiveLines(plan[1]);
  }

  lemma PositiveLines(input: Input)
    requires input.rules.dueDay > 0 && input.change.None? && input.extras == [] && input.monthlyAmount >= 0
    requires input.rules.discountPct.None? && input.rules.discountAmount.None?
    requires input.rules.proration == DiasReales && SkipOf(input.contract, input.rules, input.month).None?
    requires input.firstMonth.Some? ==> input.firstMonth.value.monthlyAmount >= 0
    ensures !Build(input).InvalidLineAmount?
  {
    var c, r, k := input.contract, input.rules, input.month;
    CoversSomething(c, r, k);
    hide MonthOf, MonthStart, MonthDays, SkipOf, ProratedAmount, SumOf;
    ProratedNonNegative(input.monthlyAmount, LastDay(c, k) - FirstDay(c, k) + 1, MonthDays(k));
    assert NoNegative(RentFor(input).lines);
    FirstMonthNonNegative(input);
    hide RentFor, DeferredLines, CountDays;
    assert LinesOf(input) == RentFor(input).lines + DeferredLines(input);
  }

  lemma FirstMonthNonNegative(input: Input)
    requires input.rules.proration == DiasReales
    requires input.firstMonth.Some? ==> input.firstMonth.value.monthlyAmount >= 0
    ensures NoNegative(DeferredLines(input))
  {
    hide MonthOf, MonthStart, MonthDays, ProratedAmount;
    if DeferredFirstMonth(input) {
      ProratedNonNegative(input.firstMonth.value.monthlyAmount, FirstMonthDays(input.contract),
                          MonthDays(input.month - 1));
    }
  }

  lemma CoversSomething(c: Contract, r: Rules, k: nat)
    requires SkipOf(c, r, k).None?
    ensures LastDay(c, k) - FirstDay(c, k) + 1 > 0
  {
    hide MonthOf, MonthStart, MonthDays;
  }

  lemma ProratedNonNegative(monthly: int, covered: int, base: int)
    requires monthly >= 0 && covered >= 0 && base > 0
    ensures ProratedAmount(monthly, covered, base) >= 0
  {
    MulLe(0, monthly, covered);
    RoundDivMonotone(0, monthly * covered, base);
    RoundDivExact(0, base);
  }

  /**
    Moving the due day from 10 to 20 loses the first month: put off in January, since the contract starts
    after the 10th, and not included in February, since it does not start after the 20th.
  */
  lemma FirstMonthCanBeLost()
    ensures var plan := TwoMonths(RulesOf(VencimientoMesSiguiente, 10), RulesOf(VencimientoMesSiguiente, 20));
            && MonthByMonth(MID_JANUARY, plan) && InForce(MID_JANUARY, 20)
            && Build(plan[0]) == Skipped(DeferredToNextPeriod)
            && Build(plan[1]).Built? && !Build(plan[1]).includesDeferredFirstMonth
            && !BilledIn(plan, 0, 20) && !BilledIn(plan, 1, 20)
  {
    MidJanuary();
    var first, second := RulesOf(VencimientoMesSiguiente, 10), RulesOf(VencimientoMesSiguiente, 20);
    hide MonthStart, MonthDays, RoundDiv;
    TwoMonthsAreBuilt(first, second);
    var plan := TwoMonths(first, second);
    DeferredWhen(MID_JANUARY, first);
    BilledMonths(MID_JANUARY, second, 1);
    BuiltWhen(plan[1]);
    EveryDayOnce(MID_JANUARY, plan, 0, 20);
    EveryDayOnce(MID_JANUARY, plan, 1, 20);
    MonthOfIs(20, 0);
  }

  /** Going from charging at signing to the next month bills in February the January charged at signing. */
  lemma FirstMonthCanBeBilledAfterSigning()
    ensures var plan := TwoMonths(RulesOf(AlFirmar, 10), RulesOf(VencimientoMesSiguiente, 10));
            && MonthByMonth(MID_JANUARY, plan) && Build(plan[0]) == Skipped(ChargedAtSigning)
            && Build(plan[1]).Built? && Build(plan[1]).includesDeferredFirstMonth
  {
    var first, second := RulesOf(AlFirmar, 10), RulesOf(VencimientoMesSiguiente, 10);
    SignedInJanuary(first);
    FebruaryIsBilled(second);
    hide MonthStart, MonthDays, MonthOf, SkipOf, Build, PutsOff, DeferredFirstMonth;
    TwoMonthsAreBuilt(first, second);
    var plan := TwoMonths(first, second);
    BuiltWhen(plan[1]);
    FirstMonthUnbilled(MID_JANUARY, plan);
  }

  lemma FebruaryIsBilled(r: Rules)
    requires r == RulesOf(VencimientoMesSiguiente, 10)
    ensures PutsOff(MID_JANUARY, r) && SkipOf(MID_JANUARY, r, 1).None?
  {
    MidJanuary();
    hide MonthStart, MonthDays, MonthOf, SkipOf;
    BilledMonths(MID_JANUARY, r, 1);
  }

  lemma SignedInJanuary(first: Rules)
    requires first.dueDay > 0 && first.firstDue == AlFirmar
    ensures var plan := TwoMonths(first, RulesOf(VencimientoMesSiguiente, 10));
            Build(plan[0]) == Skipped(ChargedAtSigning)
  {
    MidJanuary();
    hide MonthStart, MonthDays, MonthOf, LinesOf, RentFor;
  }
}
