/**
  One month of a contract: which months are billed and which days they cover, what the rent lines are
  for, splitting a month at equal rents changes at most a cent, and discounts never exceed the rent.
*/
module LiquidationLaws {
  import opened Calendar
  import opened Liquidation
  import opened Rounding
  import opened Wrappers

  // ─── Every day once ───────────────────────────────────

  /** Contracts that are billed: active ones, and finished ones with a recorded end. */
  predicate Bills(c: Contract) { c.status == Activo || (c.status == Finished && c.actualEnd.Some?) }

  /** An active contract with no recorded end goes on. */
  predicate InForce(c: Contract, day: nat) {
    c.start <= day && (c.actualEnd.Some? ==> day <= c.actualEnd.value)
  }

  /** The month of the contract is billed in its own liquidation, and the day is one of those it covers. */
  predicate CoveredIn(c: Contract, r: Rules, k: nat, day: nat) {
    SkipOf(c, r, k).None? && MonthStart(k) + FirstDay(c, k) - 1 <= day <= MonthStart(k) + LastDay(c, k) - 1
  }

  /** When a first month is put off: it starts after its due day and does not end in the same month. */
  predicate PutsOff(c: Contract, r: Rules) {
    r.firstDue == VencimientoMesSiguiente && !EndsInStartMonth(c)
    && DayOfMonth(c.start) > Min(r.dueDay, MonthDays(MonthOf(c.start)))
  }

  /** The first month is not billed in its own month: it is charged at signing, or put off. */
  predicate FirstMonthElsewhere(c: Contract, r: Rules) { r.firstDue == AlFirmar || PutsOff(c, r) }

  lemma MonthBounds(k: nat)
    ensures MonthStart(k + 1) == MonthStart(k) + MonthDays(k)
  {
  }

  lemma MonthsInOrder(a: nat, b: nat)
    ensures a < b ==> MonthStart(a + 1) <= MonthStart(b)
  {
    if a < b { MonthStartsApart(a + 1, b); }
  }

  /** Where the start, the end and a day fall relative to a month. */
  lemma DayAndMonth(day: nat, k: nat)
    ensures MonthOf(day) < k <==> day < MonthStart(k)
    ensures MonthOf(day) <= k <==> day < MonthStart(k) + MonthDays(k)
  {
    hide MonthOf, MonthStart, MonthDays;
    MonthBounds(k);
    MonthsInOrder(MonthOf(day), k);
    MonthsInOrder(k, MonthOf(day));
  }

  /** Exactly which months are billed: those the contract touches, but for a first month billed elsewhere. */
  lemma BilledMonths(c: Contract, r: Rules, k: nat)
    ensures SkipOf(c, r, k).None? <==>
              && Bills(c) && MonthOf(c.start) <= k
              && (c.actualEnd.Some? ==> k <= MonthOf(c.actualEnd.value) && c.start <= c.actualEnd.value)
              && !(IsStartMonth(c, k) && FirstMonthElsewhere(c, r))
  {
    hide MonthOf, MonthDays, MonthStart;
    DayAndMonth(c.start, k);
    if c.actualEnd.Some? {
      var end := c.actualEnd.value;
      DayAndMonth(end, k);
      DayAndMonth(c.start, MonthOf(end));
      if IsStartMonth(c, k) && MonthOf(end) == k {
        assert LastDay(c, k) - FirstDay(c, k) == end - c.start;
      }
    }
  }

  /**
    The days a month's liquidation covers are exactly the days of the contract in that month, unless it
    is a first month billed elsewhere. For every contract, also one with no recorded end.
  */
  lemma MonthCoversItsDays(c: Contract, r: Rules, k: nat, day: nat)
    ensures CoveredIn(c, r, k, day) <==>
              Bills(c) && MonthOf(day) == k && InForce(c, day) && !(IsStartMonth(c, k) && FirstMonthElsewhere(c, r))
  {
    hide MonthOf, MonthDays, MonthStart, SkipOf;
    BilledMonths(c, r, k);
    DayAndMonth(day, k);
    DayAndMonth(c.start, k);
    DayAndMonth(c.start, MonthOf(day));
    if c.actualEnd.Some? {
      DayAndMonth(c.actualEnd.value, k);
      DayAndMonth(c.actualEnd.value, MonthOf(day));
    }
  }

  // ─── The days of the built liquidations ───────────────

  /** The days a built liquidation covers: those of its proration, or the whole month when it has none. */
  function DaysOf(r: BuilderResult, monthDays: int): int
    requires r.Built?
  {
    if r.proration.Some? then r.proration.value.covered else monthDays
  }

  /** The days of the first month, from the start on. */
  function FirstMonthDays(c: Contract): int { MonthDays(MonthOf(c.start)) - DayOfMonth(c.start) + 1 }

  /** The days a liquidation bills, with those of a first month it includes. */
  function BilledDays(input: Input): int
    requires input.rules.dueDay > 0
  {
    var r := Build(input);
    if !r.Built? then 0
    else
      DaysOf(r, MonthDays(input.month))
        + (if r.includesDeferredFirstMonth then FirstMonthDays(input.contract) else 0)
  }

  predicate SplitsTheMonth(input: Input) {
    ActiveChange(input) && input.rules.midMonth == Prorrateado
    && ChangeDay(input).value > FirstDay(input.contract, input.month)
  }

  /** The amount a rent line charges for a number of days of a month. */
  function ForDays(monthly: int, days: int, k: nat): int { ProratedAmount(monthly, days, MonthDays(k)) }

  /**
    The rent lines of a liquidation with real days: two for a month split by a change, each for its own days;
    otherwise one for all of them, at the new rent when a change counts for the whole stretch.
  */
  predicate RentLinesAre(input: Input, days: int, lines: seq<Line>, split: Option<MidMonthSplit>) {
    var k := input.month;
    if SplitsTheMonth(input) then
      && split.Some? && split.value.oldDays + split.value.newDays == days
      && split.value.oldDays == ChangeDay(input).value - FirstDay(input.contract, k)
      && |lines| > 1
      && lines[0] == Line(Rent, ForDays(input.monthlyAmount, split.value.oldDays, k))
      && lines[1] == Line(Rent, ForDays(input.change.value.newAmount, split.value.newDays, k))
    else
      && split.None? && |lines| > 0
      && lines[0] == Line(Rent, ForDays(
           if ActiveChange(input) && input.rules.midMonth != DesdePeriodoSiguiente then input.change.value.newAmount
           else input.monthlyAmount, days, k))
  }

  /** With real days, the rent and deferred lines of a built liquidation are for exactly the days it reports. */
  lemma RentIsForItsDays(input: Input)
    requires input.rules.dueDay > 0 && input.rules.proration == DiasReales && Build(input).Built?
    ensures var b, c, k := Build(input), input.contract, input.month;
            var days := DaysOf(b, MonthDays(k));
            && days == LastDay(c, k) - FirstDay(c, k) + 1
            && RentLinesAre(input, days, b.lines, b.split)
            && (b.includesDeferredFirstMonth ==>
                  k > 0 && input.firstMonth.Some?
                  && Line(DeferredRent, ForDays(input.firstMonth.value.monthlyAmount, FirstMonthDays(c), k - 1))
                     in b.lines)
  {
    hide MonthOf, MonthStart, MonthDays, RoundDiv, SumOf, SkipOf;
    var c, r, k := input.contract, input.rules, input.month;
    assert Build(input).lines == RentFor(input).lines + DeferredLines(input)
           + DiscountLines(r, CountDays(r.proration, FirstDay(c, k), LastDay(c, k), MonthDays(k)),
                           RentFor(input).total) + input.extras;
    assert LastDay(c, k) - FirstDay(c, k) + 1 <= MonthDays(k);
    if Build(input).includesDeferredFirstMonth {
      assert DeferredLines(input)[0] in DeferredLines(input);
    }
  }

  lemma BuiltWhen(input: Input)
    requires input.rules.dueDay > 0
    ensures Build(input).Built? || Build(input).InvalidLineAmount? <==>
              SkipOf(input.contract, input.rules, input.month).None?
    ensures Build(input).Built? ==> Build(input).includesDeferredFirstMonth == DeferredFirstMonth(input)
  {
    hide MonthOf, MonthStart, MonthDays, SkipOf, LinesOf, RentFor;
  }

  // ─── Mid-month split ──────────────────────────────────

  lemma ThreeRoundings(m: int, a: int, b: int, base: int)
    requires base > 0
    ensures -1 <= RoundDiv(m * a, base) + RoundDiv(m * b, base) - RoundDiv(m * (a + b), base) <= 1
  {
    RoundDivNearest(m * a, base);
    RoundDivNearest(m * b, base);
    RoundDivNearest(m * (a + b), base);
    var d := RoundDiv(m * a, base) + RoundDiv(m * b, base) - RoundDiv(m * (a + b), base);
    assert m * (a + b) == m * a + m * b;
    assert base * d == base * RoundDiv(m * a, base) + base * RoundDiv(m * b, base) - base * RoundDiv(m * (a + b), base);
    assert -3 * base <= 2 * (base * d) <= 3 * base;
    assert (-2) * base < d * base < 2 * base;
    LessByMultiple(-2, d, base);
    LessByMultiple(d, 2, base);
  }

  lemma ProratedIsRounded(monthly: int, covered: int, base: int)
    requires base > 0 && covered <= base
    ensures ProratedAmount(monthly, covered, base) == RoundDiv(monthly * covered, base)
  {
    if covered == base { RoundDivExact(monthly, base); }
  }

  /** The two stretches of a split month add up to its days, whatever the way of counting. */
  lemma SplitKeepsTheDays(input: Input)
    requires SplitsTheMonth(input)
    ensures RentFor(input).split.Some?
    ensures var s := RentFor(input).split.value;
            var (whole, _) := SplitDays(input, ChangeDay(input).value);
            s.oldDays + s.newDays == whole.covered && 0 <= s.oldDays && 0 <= s.newDays && whole.covered <= whole.base
  {
    var k := input.month;
    assert LastDay(input.contract, k) <= MonthDays(k);
  }

  /**
    At equal rents, the two lines of a split month are within a cent of the single line the same
    count of days would give.
  */
  lemma SplitAtEqualRents(input: Input)
    requires SplitsTheMonth(input) && input.change.value.newAmount == input.monthlyAmount
    ensures var (whole, _) := SplitDays(input, ChangeDay(input).value);
            -1 <= RentFor(input).total - ProratedAmount(input.monthlyAmount, whole.covered, whole.base) <= 1
  {
    hide RoundDiv, CountDays, ProratedAmount;
    SplitKeepsTheDays(input);
    var (whole, oldDays) := SplitDays(input, ChangeDay(input).value);
    var m, newDays := input.monthlyAmount, whole.covered - oldDays;
    ProratedIsRounded(m, oldDays, whole.base);
    ProratedIsRounded(m, newDays, whole.base);
    ProratedIsRounded(m, whole.covered, whole.base);
    ThreeRoundings(m, oldDays, newDays, whole.base);
  }

  /** The line an unsplit month has: the same input with no change. */
  function Unsplit(input: Input): RentOfMonth { RentFor(input.(change := None)) }

  /** That single line is the unsplit one, except without proration in a month that is not whole. */
  lemma SplitAgainstUnsplit(input: Input)
    requires SplitsTheMonth(input) && input.change.value.newAmount == input.monthlyAmount
    requires input.rules.proration != SinProrrateo
          || (FirstDay(input.contract, input.month) == 1
              && LastDay(input.contract, input.month) == MonthDays(input.month))
    ensures -1 <= RentFor(input).total - Unsplit(input).total <= 1
  {
    SplitAtEqualRents(input);
  }

  /**
    Without proration and with only part of the month covered, the split charges those days while
    the unsplit line charges the whole month: the difference is the rent of the days not covered,
    to within a cent and a half.
  */
  lemma SplitWithoutProration(input: Input)
    requires SplitsTheMonth(input) && input.change.value.newAmount == input.monthlyAmount
    requires input.rules.proration == SinProrrateo
    ensures var c, k := input.contract, input.month;
            var missing := MonthDays(k) - (LastDay(c, k) - FirstDay(c, k) + 1);
            Unsplit(input).total == input.monthlyAmount
            && -3 * MonthDays(k)
                <= 2 * (MonthDays(k) * (Unsplit(input).total - RentFor(input).total) - input.monthlyAmount * missing)
                                 <= 3 * MonthDays(k)
  {
    var c, k := input.contract, input.month;
    SplitAtEqualRents(input);
    var days, covered := MonthDays(k), LastDay(c, k) - FirstDay(c, k) + 1;
    ProratedIsRounded(input.monthlyAmount, covered, days);
    RoundDivNearest(input.monthlyAmount * covered, days);
    PartialMonth(input.monthlyAmount, covered, days, RoundDiv(input.monthlyAmount * covered, days),
        RentFor(input).total);
  }

  lemma PartialMonth(m: int, covered: int, days: int, single: int, split: int)
    requires days > 0 && -1 <= split - single <= 1
    requires -days <= 2 * (days * single - m * covered) <= days
    ensures -3 * days <= 2 * (days * (m - split) - m * (days - covered)) <= 3 * days
  {
    var d := split - single;
    assert days * (m - split) - m * (days - covered) == -(days * single - m * covered) - days * d;
    assert -days <= days * d <= days;
  }

  // ─── Discounts ────────────────────────────────────────

  /** The discounts of the rules never exceed the rent of the month when the percentage is at most 100 %. */
  lemma DiscountsWithinRent(r: Rules, days: DayCount, rent: int)
    requires days.base > 0 && rent >= 0
    requires r.discountPct.Some? ==> r.discountPct.value <= FULL_PCT
    ensures NoNegative(DiscountLines(r, days, rent))
    ensures 0 <= SumOf(DiscountLines(r, days, rent), true) <= rent
  {
    hide RoundDiv;
    var pct := PctDiscount(r, rent);
    if pct.Some? {
      MulLe(0, r.discountPct.value, rent);
      MulLe(r.discountPct.value, FULL_PCT, rent);
      RoundDivMonotone(0, rent * r.discountPct.value, FULL_PCT);
      RoundDivMonotone(rent * r.discountPct.value, rent * FULL_PCT, FULL_PCT);
      RoundDivExact(0, FULL_PCT);
      RoundDivExact(rent, FULL_PCT);
    }
    TwoAtMost(DiscountLines(r, days, rent));
  }

  lemma TwoAtMost(lines: seq<Line>)
    requires |lines| <= 2 && forall i :: 0 <= i < |lines| ==> lines[i].kind == Discount
    ensures SumOf(lines, true)
         == (if |lines| > 0 then lines[0].amount else 0) + (if |lines| > 1 then lines[1].amount else 0)
  {
    if |lines| == 2 {
      assert lines[..1] == [lines[0]] && lines[..1][..0] == [];
      assert SumOf(lines[..1], true) == lines[0].amount;
    }
  }
}
