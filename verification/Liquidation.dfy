/**
  The monthly bill of a contract: which months are billed, how many days of each, how a rent change
  in the middle of a month splits it, and the discounts. Amounts are cents, percentages are in units
  of 1/10000 %, dates are day numbers and months are month indices.
*/
module Liquidation {
  import opened Calendar
  import opened Rounding
  import opened Wrappers

  datatype Status = Activo | Borrador | Finished

  datatype ProrationMode = DiasReales | Mes30 | SinProrrateo
  datatype MidMonthMode = DesdePeriodoSiguiente | Prorrateado | DesdeEsePeriodo
  datatype FirstDueMode = DiaDeInicio | VencimientoMesSiguiente | AlFirmar

  datatype MidMonthChange = MidMonthChange(effective: nat, newAmount: int, isProvisional: bool)

  datatype FirstMonth = FirstMonth(monthlyAmount: int, alreadyBilled: bool)

  datatype LineType = Rent | DeferredRent | Discount | ExtraLine(discounts: bool)

  datatype Line = Line(kind: LineType, amount: int)

  datatype Contract = Contract(start: nat, actualEnd: Option<nat>, status: Status)

  /** The rules in force in a month: an agreement can change them from one month to another. */
  datatype Rules = Rules(
    proration: ProrationMode, midMonth: MidMonthMode, firstDue: FirstDueMode, fixedDiscountWhole: bool, dueDay: nat,
    discountPct: Option<int>, discountAmount: Option<int>)

  datatype Input = Input(
    month: nat, contract: Contract, rules: Rules, monthlyAmount: int, isProvisional: bool,
    change: Option<MidMonthChange>, firstMonth: Option<FirstMonth>, extras: seq<Line>)

  datatype SkipReason = NotActive | BeforeStart | AfterEnd | ChargedAtSigning | DeferredToNextPeriod

  datatype MidMonthSplit = MidMonthSplit(effectiveDay: nat, oldDays: int, newDays: int)

  datatype BuilderResult =
    | Skipped(reason: SkipReason)
    | InvalidLineAmount
    | Built(isProvisional: bool, dueDate: nat, lines: seq<Line>, subtotal: int, total: int,
            proration: Option<DayCount>, split: Option<MidMonthSplit>, includesDeferredFirstMonth: bool)

  // ─── Days ─────────────────────────────────────────────

  datatype DayCount = DayCount(covered: int, base: int)

  /** Covered days and base days of a stretch of a month; Mes30 carries everything to a month of 30. */
  function CountDays(mode: ProrationMode, firstDay: int, lastDay: int, monthDays: int): (r: DayCount)
    requires monthDays >= 28
    ensures r.base >= 28
  {
    match mode
    case SinProrrateo => DayCount(monthDays, monthDays)
    case Mes30 =>
      var f, l := Min(firstDay, 30), if lastDay == monthDays then 30 else Min(lastDay, 30);
      DayCount(l - f + 1, 30)
    case DiasReales => DayCount(lastDay - firstDay + 1, monthDays)
  }

  function ProratedAmount(monthly: int, covered: int, base: int): int
    requires base > 0
  {
    if covered < base then RoundDiv(monthly * covered, base) else monthly
  }

  // ─── Which months ─────────────────────────────────────

  predicate IsStartMonth(c: Contract, k: nat) { MonthOf(c.start) == k }

  function FirstDay(c: Contract, k: nat): int { if IsStartMonth(c, k) then DayOfMonth(c.start) else 1 }

  function LastDay(c: Contract, k: nat): int {
    if c.actualEnd.Some? && MonthOf(c.actualEnd.value) == k then DayOfMonth(c.actualEnd.value) else MonthDays(k)
  }

  predicate EndsInStartMonth(c: Contract) {
    c.actualEnd.Some? && MonthOf(c.actualEnd.value) == MonthOf(c.start)
  }

  function SkipOf(c: Contract, r: Rules, k: nat): Option<SkipReason> {
    if c.status != Activo && c.actualEnd.None? then Some(NotActive)
    else if c.status == Borrador then Some(NotActive)
    else if c.start > MonthStart(k) + MonthDays(k) - 1 then Some(BeforeStart)
    else if c.actualEnd.Some? && c.actualEnd.value < MonthStart(k) then Some(AfterEnd)
    else if LastDay(c, k) - FirstDay(c, k) + 1 <= 0 then Some(AfterEnd)
    else if IsStartMonth(c, k) && r.firstDue == AlFirmar then Some(ChargedAtSigning)
    else if IsStartMonth(c, k) && r.firstDue == VencimientoMesSiguiente
            && FirstDay(c, k) > Min(r.dueDay, MonthDays(k)) && !EndsInStartMonth(c)
    then Some(DeferredToNextPeriod)
    else None
  }

  // ─── Rent of the month ────────────────────────────────

  function ChangeDay(input: Input): Option<nat> {
    if input.change.Some? && MonthOf(input.change.value.effective) == input.month
    then Some(DayOfMonth(input.change.value.effective)) else None
  }

  /** A change counts from the second day of the month to the last one covered. */
  predicate ActiveChange(input: Input) {
    ChangeDay(input).Some? && 1 < ChangeDay(input).value <= LastDay(input.contract, input.month)
  }

  datatype RentOfMonth = RentOfMonth(lines: seq<Line>, total: int, isProvisional: bool, split: Option<MidMonthSplit>)

  function SplitMode(mode: ProrationMode): ProrationMode { if mode == SinProrrateo then DiasReales else mode }

  function SplitDays(input: Input, day: int): (DayCount, int) {
    var c, r, k := input.contract, input.rules, input.month;
    var mode, first, last := SplitMode(r.proration), FirstDay(c, k), LastDay(c, k);
    (CountDays(mode, first, last, MonthDays(k)), CountDays(mode, first, day - 1, MonthDays(k)).covered)
  }

  function OneLine(amount: int, isProvisional: bool): RentOfMonth {
    RentOfMonth([Line(Rent, amount)], amount, isProvisional, None)
  }

  function RentFor(input: Input): RentOfMonth {
    var c, r, k := input.contract, input.rules, input.month;
    var days := CountDays(r.proration, FirstDay(c, k), LastDay(c, k), MonthDays(k));
    if ActiveChange(input) && r.midMonth == DesdeEsePeriodo then
      OneLine(ProratedAmount(input.change.value.newAmount, days.covered, days.base), input.change.value.isProvisional)
    else if ActiveChange(input) && r.midMonth == Prorrateado && ChangeDay(input).value > FirstDay(c, k) then
      var day := ChangeDay(input).value;
      var (whole, oldDays) := SplitDays(input, day);
      var newDays := whole.covered - oldDays;
      var oldAmount := ProratedAmount(input.monthlyAmount, oldDays, whole.base);
      var newAmount := ProratedAmount(input.change.value.newAmount, newDays, whole.base);
      RentOfMonth([Line(Rent, oldAmount), Line(Rent, newAmount)], oldAmount + newAmount,
                  input.isProvisional || input.change.value.isProvisional, Some(MidMonthSplit(day, oldDays, newDays)))
    else if ActiveChange(input) && r.midMonth == Prorrateado then
      OneLine(ProratedAmount(input.change.value.newAmount, days.covered, days.base), input.change.value.isProvisional)
    else
      OneLine(ProratedAmount(input.monthlyAmount, days.covered, days.base), input.isProvisional)
  }

  // ─── First month billed with the next ─────────────────

  predicate DeferredFirstMonth(input: Input) {
    var c, r := input.contract, input.rules;
    && r.firstDue == VencimientoMesSiguiente
    && input.month == MonthOf(c.start) + 1
    && DayOfMonth(c.start) > Min(r.dueDay, MonthDays(input.month - 1))
    && !EndsInStartMonth(c)
    && input.firstMonth.Some? && !input.firstMonth.value.alreadyBilled
  }

  function DeferredLines(input: Input): seq<Line> {
    if DeferredFirstMonth(input) then
      var days := MonthDays(input.month - 1);
      var count := CountDays(input.rules.proration, DayOfMonth(input.contract.start), days, days);
      [Line(DeferredRent, ProratedAmount(input.firstMonth.value.monthlyAmount, count.covered, count.base))]
    else []
  }

  // ─── Discounts ────────────────────────────────────────

  function PctDiscount(r: Rules, rent: int): Option<int> {
    if r.discountPct.Some? && r.discountPct.value > 0 then Some(RoundDiv(rent * r.discountPct.value, FULL_PCT))
    else None
  }

  function FixedDiscount(r: Rules, days: DayCount, rent: int, discounted: int): Option<int>
    requires days.base > 0
  {
    if r.discountAmount.Some? && r.discountAmount.value > 0 then
      var wanted := if r.fixedDiscountWhole then r.discountAmount.value
                    else ProratedAmount(r.discountAmount.value, days.covered, days.base);
      var d := Min(wanted, rent - discounted);
      if d > 0 then Some(d) else None
    else None
  }

  function DiscountLines(r: Rules, days: DayCount, rent: int): seq<Line>
    requires days.base > 0
  {
    var pct := PctDiscount(r, rent);
    var first := if pct.Some? then [Line(Discount, pct.value)] else [];
    var fixed := FixedDiscount(r, days, rent, if pct.Some? then pct.value else 0);
    first + (if fixed.Some? then [Line(Discount, fixed.value)] else [])
  }

  // ─── Totals ───────────────────────────────────────────

  predicate Subtracts(line: Line) { line.kind == Discount || line.kind == ExtraLine(true) }

  function SumOf(lines: seq<Line>, subtracting: bool): int {
    if lines == [] then 0
    else
      SumOf(lines[..|lines| - 1], subtracting)
        + (if Subtracts(lines[|lines| - 1]) == subtracting then lines[|lines| - 1].amount else 0)
  }

  predicate NoNegative(lines: seq<Line>) { forall i :: 0 <= i < |lines| ==> lines[i].amount >= 0 }

  function TotalOf(lines: seq<Line>): int {
    var t := SumOf(lines, false) - SumOf(lines, true);
    if t > 0 then t else 0
  }

  function DueDate(c: Contract, r: Rules, k: nat): nat
    requires r.dueDay > 0
  {
    var dueOfMonth := MonthStart(k) + Min(r.dueDay, MonthDays(k)) - 1;
    if IsStartMonth(c, k) && c.start > dueOfMonth then c.start else dueOfMonth
  }

  function LinesOf(input: Input): seq<Line> {
    var c, r, k := input.contract, input.rules, input.month;
    var days := CountDays(r.proration, FirstDay(c, k), LastDay(c, k), MonthDays(k));
    var rent := RentFor(input);
    rent.lines + DeferredLines(input) + DiscountLines(r, days, rent.total) + input.extras
  }

  function Build(input: Input): BuilderResult
    requires input.rules.dueDay > 0
  {
    var c, r, k := input.contract, input.rules, input.month;
    var skip := SkipOf(c, r, k);
    if skip.Some? then Skipped(skip.value)
    else
      var days := CountDays(r.proration, FirstDay(c, k), LastDay(c, k), MonthDays(k));
      var rent, lines := RentFor(input), LinesOf(input);
      if !NoNegative(lines) then InvalidLineAmount
      else
        Built(rent.isProvisional, DueDate(c, r, k), lines, SumOf(lines, false), TotalOf(lines),
              if days.covered < days.base then Some(days) else None, rent.split, DeferredFirstMonth(input))
  }

  // ─── The builder's pushes ─────────────────────────────

  method LineTotals(lines: seq<Line>) returns (ok: bool, subtotal: int, total: int)
    ensures ok == NoNegative(lines)
    ensures ok ==> subtotal == SumOf(lines, false) && total == TotalOf(lines)
  {
    subtotal, total := 0, 0;
    var discounts := 0;
    for i := 0 to |lines|
      invariant NoNegative(lines[..i])
      invariant subtotal == SumOf(lines[..i], false) && discounts == SumOf(lines[..i], true)
    {
      assert lines[..i + 1][..i] == lines[..i];
      if lines[i].amount < 0 {
        return false, 0, 0;
      }
      if Subtracts(lines[i]) {
        discounts := discounts + lines[i].amount;
      } else {
        subtotal := subtotal + lines[i].amount;
      }
    }
    assert lines[..|lines|] == lines;
    ok := true;
    total := if subtotal - discounts > 0 then subtotal - discounts else 0;
  }

  /** Pushes the lines of the month in order: rent, deferred first month, discounts, extras. */
  method BuildLiquidation(input: Input) returns (result: BuilderResult)
    requires input.rules.dueDay > 0
    ensures result == Build(input)
  {
    hide RoundDiv, SumOf, RentFor, SkipOf, CountDays, MonthOf, MonthStart, MonthDays, ProratedAmount;
    var c, r, k := input.contract, input.rules, input.month;
    var skip := SkipOf(c, r, k);
    if skip.Some? {
      return Skipped(skip.value);
    }
    var days := CountDays(r.proration, FirstDay(c, k), LastDay(c, k), MonthDays(k));
    var rent := RentFor(input);
    var lines := rent.lines;
    if DeferredFirstMonth(input) {
      lines := lines + DeferredLines(input);
    }
    var discount := 0;
    var discounts: seq<Line> := [];
    var pct := PctDiscount(r, rent.total);
    if pct.Some? {
      discount := discount + pct.value;
      discounts := discounts + [Line(Discount, pct.value)];
    }
    var fixed := FixedDiscount(r, days, rent.total, discount);
    if fixed.Some? {
      discounts := discounts + [Line(Discount, fixed.value)];
    }
    assert discounts == DiscountLines(r, days, rent.total);
    lines := lines + discounts + input.extras;
    assert lines == LinesOf(input);
    var ok, subtotal, total := LineTotals(lines);
    if !ok {
      return InvalidLineAmount;
    }
    result := Built(rent.isProvisional, DueDate(c, r, k), lines, subtotal, total,
                    if days.covered < days.base then Some(days) else None, rent.split, DeferredFirstMonth(input));
  }
}
