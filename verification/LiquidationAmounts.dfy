/**
  What a built liquidation charges: every rent line and discount from the rules and the days, the totals, the due
  date, and why a month is skipped.
*/
module LiquidationAmounts {
  import opened Calendar
  import opened Liquidation
  import opened LiquidationLaws
  import opened Rounding
  import opened Wrappers

  // ─── Days ─────────────────────────────────────────────

  /**
    How a stretch of a month is counted. Real days: those there are. A month of thirty: those there are up to the
    30th, the last day of the month always being the 30th. Without proration: the whole month.
  */
  lemma DaysAreCounted(mode: ProrationMode, first: int, last: int, days: int)
    requires 28 <= days <= 31 && 1 <= first <= last <= days
    ensures var d := CountDays(mode, first, last, days);
            && (mode == DiasReales ==> d == DayCount(last - first + 1, days))
            && (mode == SinProrrateo ==> d == DayCount(days, days))
            && (mode == Mes30 ==>
                  && d.base == 30 && (last < days ==> d.covered == last - first + 1)
                  && (last == days && first <= 30 ==> d.covered == 30 - first + 1)
                  && (last == days && first == 31 ==> d.covered == 1))
  {
  }

  /** x is the part of a monthly amount for some days of its base: all of it, or the nearest cent. */
  predicate IsProrated(x: int, monthly: int, d: DayCount) {
    if d.covered >= d.base then x == monthly else IsRounded(x, monthly * d.covered, d.base)
  }

  lemma ProratedIs(monthly: int, d: DayCount)
    requires d.base > 0
    ensures IsProrated(ProratedAmount(monthly, d.covered, d.base), monthly, d)
  {
    hide RoundDiv;
    RoundDivIsRounded(monthly * d.covered, d.base);
  }

  /** The days of the month that the contract covers, as the rules count them. */
  function DaysCovered(input: Input): DayCount {
    var c, k := input.contract, input.month;
    CountDays(input.rules.proration, FirstDay(c, k), LastDay(c, k), MonthDays(k))
  }

  // ─── Rent ─────────────────────────────────────────────

  /** A rent change counts this month: from a day after the first one, up to the last day covered. */
  predicate ChangesThisMonth(input: Input) {
    && input.change.Some? && MonthOf(input.change.value.effective) == input.month
    && 1 < DayOfMonth(input.change.value.effective) <= LastDay(input.contract, input.month)
  }

  /** The month is billed in two stretches: it is agreed so, and the change is after the first day covered. */
  predicate TwoStretches(input: Input) {
    && ChangesThisMonth(input) && input.rules.midMonth == Prorrateado
    && DayOfMonth(input.change.value.effective) > FirstDay(input.contract, input.month)
  }

  /** How the two stretches are counted: by real days when there is no proration. */
  function StretchMode(input: Input): ProrationMode {
    if input.rules.proration == SinProrrateo then DiasReales else input.rules.proration
  }

  /**
    The rent of the month. In two stretches: the days before the change at the old rent, those left at the new one,
    on the base of the month. Otherwise one line for all the days: at the new rent when a change counts and is not
    left for the next month; at the old one if not. It is provisional when a rent it charges is.
  */
  predicate RentIs(input: Input, lines: seq<Line>, isProvisional: bool, split: Option<MidMonthSplit>) {
    var c, k := input.contract, input.month;
    if TwoStretches(input) then
      var change := input.change.value;
      var day, first, mode := DayOfMonth(change.effective), FirstDay(c, k), StretchMode(input);
      var whole := CountDays(mode, first, LastDay(c, k), MonthDays(k));
      var before := CountDays(mode, first, day - 1, MonthDays(k)).covered;
      && |lines| == 2 && lines[0].kind == Rent && lines[1].kind == Rent
      && IsProrated(lines[0].amount, input.monthlyAmount, DayCount(before, whole.base))
      && IsProrated(lines[1].amount, change.newAmount, DayCount(whole.covered - before, whole.base))
      && (isProvisional <==> input.isProvisional || change.isProvisional)
      && split == Some(MidMonthSplit(day, before, whole.covered - before))
    else
      var atNew := ChangesThisMonth(input) && input.rules.midMonth != DesdePeriodoSiguiente;
      && |lines| == 1 && lines[0].kind == Rent && split == None
      && IsProrated(lines[0].amount, if atNew then input.change.value.newAmount else input.monthlyAmount,
                    DaysCovered(input))
      && (isProvisional <==> if atNew then input.change.value.isProvisional else input.isProvisional)
  }

  lemma RentForIs(input: Input)
    ensures var r := RentFor(input);
            RentIs(input, r.lines, r.isProvisional, r.split)
            && r.total == (if |r.lines| == 2 then r.lines[0].amount + r.lines[1].amount else r.lines[0].amount)
  {
    hide MonthOf, MonthStart, MonthDays, CountDays, ProratedAmount, IsProrated, LastDay, FirstDay;
    var c, k := input.contract, input.month;
    ProratedIs(input.monthlyAmount, DaysCovered(input));
    if input.change.Some? {
      var change := input.change.value;
      ProratedIs(change.newAmount, DaysCovered(input));
      if TwoStretches(input) {
        var day, first, mode := DayOfMonth(change.effective), FirstDay(c, k), StretchMode(input);
        var whole := CountDays(mode, first, LastDay(c, k), MonthDays(k));
        var before := CountDays(mode, first, day - 1, MonthDays(k)).covered;
        ProratedIs(input.monthlyAmount, DayCount(before, whole.base));
        ProratedIs(change.newAmount, DayCount(whole.covered - before, whole.base));
      }
    }
  }

  /** The first month, when it is billed with this one: its rent from its start to its end. */
  predicate FirstMonthIs(input: Input, lines: seq<Line>, included: bool) {
    if included then
      && input.firstMonth.Some? && input.month > 0 && |lines| == 1 && lines[0].kind == DeferredRent
      && (var days := MonthDays(input.month - 1);
          IsProrated(lines[0].amount, input.firstMonth.value.monthlyAmount,
                     CountDays(input.rules.proration, DayOfMonth(input.contract.start), days, days)))
    else lines == []
  }

  lemma DeferredIs(input: Input)
    ensures FirstMonthIs(input, DeferredLines(input), DeferredFirstMonth(input))
  {
    hide MonthOf, MonthStart, MonthDays, CountDays, ProratedAmount, IsProrated;
    if DeferredFirstMonth(input) {
      var days := MonthDays(input.month - 1);
      ProratedIs(input.firstMonth.value.monthlyAmount,
                 CountDays(input.rules.proration, DayOfMonth(input.contract.start), days, days));
    }
  }

  // ─── Discounts ────────────────────────────────────────

  predicate HasPct(r: Rules) { r.discountPct.Some? && r.discountPct.value > 0 }

  predicate HasFixed(r: Rules) { r.discountAmount.Some? && r.discountAmount.value > 0 }

  /** The fixed discount before it is limited: whole, or for the days covered. */
  predicate IsWanted(w: int, r: Rules, days: DayCount)
    requires HasFixed(r)
  {
    if r.fixedDiscountWhole then w == r.discountAmount.value else IsProrated(w, r.discountAmount.value, days)
  }

  predicate FixedIs(ds: seq<Line>, r: Rules, w: int, left: int) {
    var d := if w < left then w else left;
    if d > 0 then ds == [Line(Discount, d)] else ds == []
  }

  /** The discounts of a rent: its percentage to the cent, and the fixed one up to what is left of the rent. */
  ghost predicate DiscountsAre(ds: seq<Line>, r: Rules, days: DayCount, rent: int) {
    var n := if HasPct(r) then 1 else 0;
    && |ds| >= n
    && (HasPct(r) ==> ds[0].kind == Discount && IsRounded(ds[0].amount, rent * r.discountPct.value, FULL_PCT))
    && (var left := rent - (if HasPct(r) then ds[0].amount else 0);
        if HasFixed(r) then exists w :: IsWanted(w, r, days) && FixedIs(ds[n..], r, w, left) else ds[n..] == [])
  }

  lemma DiscountLinesAre(r: Rules, days: DayCount, rent: int)
    requires days.base > 0
    ensures DiscountsAre(DiscountLines(r, days, rent), r, days, rent)
  {
    hide RoundDiv, ProratedAmount, IsProrated, IsRounded;
    var ds, n := DiscountLines(r, days, rent), if HasPct(r) then 1 else 0;
    if HasPct(r) { RoundDivIsRounded(rent * r.discountPct.value, FULL_PCT); }
    if HasFixed(r) {
      ProratedIs(r.discountAmount.value, days);
      var w := if r.fixedDiscountWhole then r.discountAmount.value
               else ProratedAmount(r.discountAmount.value, days.covered, days.base);
      var left := rent - (if HasPct(r) then ds[0].amount else 0);
      assert IsWanted(w, r, days) && FixedIs(ds[n..], r, w, left);
    }
  }

  // ─── Lines and totals ─────────────────────────────────

  /** The lines of a liquidation, in order: rent, first month, discounts on the rent, and every extra. */
  ghost predicate LinesAre(input: Input, lines: seq<Line>, isProvisional: bool, split: Option<MidMonthSplit>,
      included: bool)
  {
    var n, e := if TwoStretches(input) then 2 else 1, |lines| - |input.extras|;
    var m := if included then n + 1 else n;
    && m <= e && lines[e..] == input.extras
    && RentIs(input, lines[..n], isProvisional, split)
    && FirstMonthIs(input, lines[n..m], included)
    && DiscountsAre(lines[m..e], input.rules, DaysCovered(input),
                    if n == 2 then lines[0].amount + lines[1].amount else lines[0].amount)
  }

  lemma LinesOfAre(input: Input)
    ensures var r := RentFor(input);
            LinesAre(input, LinesOf(input), r.isProvisional, r.split, DeferredFirstMonth(input))
  {
    hide RentFor, DeferredLines, DiscountLines, RentIs, FirstMonthIs, DiscountsAre, MonthOf, MonthDays,
        DeferredFirstMonth;
    var r, lines := RentFor(input), LinesOf(input);
    RentForIs(input);
    DeferredIs(input);
    LengthsAre(input);
    DiscountLinesAre(input.rules, DaysCovered(input), r.total);
    var n, m := |r.lines|, |r.lines| + |DeferredLines(input)|;
    assert lines[..n] == r.lines && lines[n..m] == DeferredLines(input);
    assert lines[m..|lines| - |input.extras|] == DiscountLines(input.rules, DaysCovered(input), r.total);
    assert lines[|lines| - |input.extras|..] == input.extras;
  }

  lemma LengthsAre(input: Input)
    ensures |RentFor(input).lines| == (if TwoStretches(input) then 2 else 1)
    ensures |DeferredLines(input)| == if DeferredFirstMonth(input) then 1 else 0
  {
    hide MonthOf, MonthStart, MonthDays, CountDays, ProratedAmount, LastDay, FirstDay;
  }

  /** What the lines charge, and what the discounts among them take off. */
  function ChargedBy(lines: seq<Line>): int {
    if lines == [] then 0
    else
      var l := lines[|lines| - 1];
      ChargedBy(lines[..|lines| - 1])
        + (if l.kind == Rent || l.kind == DeferredRent || l.kind == ExtraLine(false) then l.amount else 0)
  }

  function TakenOff(lines: seq<Line>): int {
    if lines == [] then 0
    else
      var l := lines[|lines| - 1];
      TakenOff(lines[..|lines| - 1]) + (if l.kind == Discount || l.kind == ExtraLine(true) then l.amount else 0)
  }

  lemma {:induction false} SumsAre(lines: seq<Line>)
    ensures SumOf(lines, false) == ChargedBy(lines) && SumOf(lines, true) == TakenOff(lines)
  {
    if lines != [] { SumsAre(lines[..|lines| - 1]); }
  }

  ghost predicate SomeNegative(lines: seq<Line>) { exists i :: 0 <= i < |lines| && lines[i].amount < 0 }

  /**
    What is built when the month is not skipped. The subtotal is what the lines charge; the total, what is left of
    it after the discounts, and nothing when they exceed it. The first month is included when this month's rules
    put it off, its rent is at hand and it was not billed. A negative line refuses the whole liquidation.
  */
  lemma BuiltIs(input: Input)
    requires input.rules.dueDay > 0 && SkipOf(input.contract, input.rules, input.month).None?
    ensures var b, days := Build(input), DaysCovered(input);
            b.Built? ==>
              && LinesAre(input, b.lines, b.isProvisional, b.split, b.includesDeferredFirstMonth)
              && !SomeNegative(b.lines)
              && b.subtotal == ChargedBy(b.lines)
              && (if ChargedBy(b.lines) >= TakenOff(b.lines) then b.total == ChargedBy(b.lines) - TakenOff(b.lines)
                  else b.total == 0)
              && b.proration == (if days.covered < days.base then Some(days) else None)
              && (b.includesDeferredFirstMonth <==>
                    && input.month == MonthOf(input.contract.start) + 1 && PutsOff(input.contract, input.rules)
                    && input.firstMonth.Some? && !input.firstMonth.value.alreadyBilled)
    ensures !Build(input).Built? ==>
              Build(input) == InvalidLineAmount
              && exists lines :: SomeNegative(lines) && WouldBe(input, lines)
  {
    hide RentFor, DeferredLines, DiscountLines, LinesAre, MonthOf, MonthDays, SkipOf, DueDate, LinesOf,
        EndsInStartMonth;
    LinesOfAre(input);
    SumsAre(LinesOf(input));
    if !Build(input).Built? { assert WouldBe(input, LinesOf(input)); }
  }

  /** The lines a month would be billed with. */
  ghost predicate WouldBe(input: Input, lines: seq<Line>) {
    exists isProvisional, split, included :: LinesAre(input, lines, isProvisional, split, included)
  }

  // ─── Due date ─────────────────────────────────────────

  /**
    It is due on the due day of its month, or on its last day when it has no such day; on the start of the contract,
    when it starts later in that month.
  */
  lemma DueDateIs(input: Input)
    requires input.rules.dueDay > 0 && Build(input).Built?
    ensures var b, c, k := Build(input), input.contract, input.month;
            var day := if input.rules.dueDay <= MonthDays(k) then input.rules.dueDay else MonthDays(k);
            if MonthOf(c.start) == k && DayOfMonth(c.start) > day then b.dueDate == c.start
            else MonthOf(b.dueDate) == k && DayOfMonth(b.dueDate) == day
  {
    hide MonthOf, MonthStart, MonthDays, LinesOf, SkipOf, RentFor;
    var c, k := input.contract, input.month;
    MonthBounds(k);
    MonthOfIs(MonthStart(k) + Min(input.rules.dueDay, MonthDays(k)) - 1, k);
  }

  // ─── Skipped months ───────────────────────────────────

  /** Why a month is skipped: each reason, and exactly when it is the one given. */
  lemma SkippedExactlyWhen(c: Contract, r: Rules, k: nat)
    ensures var s := SkipOf(c, r, k);
            var touches := MonthOf(c.start) <= k
                           && (c.actualEnd.Some? ==>
                                 k <= MonthOf(c.actualEnd.value) && c.start <= c.actualEnd.value);
            && (s == Some(NotActive) <==> !Bills(c))
            && (s == Some(BeforeStart) <==> Bills(c) && k < MonthOf(c.start))
            && (s == Some(AfterEnd) <==> Bills(c) && MonthOf(c.start) <= k && !touches)
            && (s == Some(ChargedAtSigning) <==> Bills(c) && touches && k == MonthOf(c.start) && r.firstDue == AlFirmar)
            && (s == Some(DeferredToNextPeriod) <==> Bills(c) && touches && k == MonthOf(c.start) && PutsOff(c, r))
  {
    hide MonthOf, MonthDays, MonthStart;
    BilledMonths(c, r, k);
    BilledMonths(c, r.(firstDue := DiaDeInicio), k);
    DayAndMonth(c.start, k);
    if c.actualEnd.Some? {
      DayAndMonth(c.actualEnd.value, k);
      DayAndMonth(c.start, MonthOf(c.actualEnd.value));
    }
  }

  /** A liquidation is skipped for that reason, and for no other. */
  lemma SkippedIs(input: Input)
    requires input.rules.dueDay > 0
    ensures Build(input).Skipped? <==> SkipOf(input.contract, input.rules, input.month).Some?
    ensures Build(input).Skipped? ==> Some(Build(input).reason) == SkipOf(input.contract, input.rules, input.month)
  {
    hide SkipOf, LinesOf, RentFor;
  }
}
