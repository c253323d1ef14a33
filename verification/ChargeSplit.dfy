/**
  How a utility or tax bill is shared among the contracts behind it: the tenant's share of each
  rule, its monthly installments, what happens to those past the end of the contract, and the
  surplus of an annual discount that belongs to somebody else. Amounts are cents, percentages are
  in units of 1/10000 %, months are month indices.
*/
module ChargeSplit {
  import opened Money
  import opened Rounding
  import opened Sums
  import opened Wrappers

  const MAX_INSTALLMENTS := 12

  datatype Payer = Inquilino | Inmobiliaria | Propietario
  datatype SplitMode = Porcentaje | Consumo | Fijo
  datatype DiscountBeneficiary = ForTenant | ForLessor | ForAgency
  datatype OnEnd = CobrarEnLiquidacionFinal | Descartar

  datatype Bill = Bill(amount: int, nominalAmount: Option<int>, period: int, consumption: Option<int>)

  datatype Rule = Rule(
    contractId: string, payer: Payer, splitMode: SplitMode, tenantSharePct: int, fixedAmount: Option<int>,
    annual: bool, prorated: bool, annualInstallments: int, discountBeneficiary: DiscountBeneficiary,
    onEnd: OnEnd, consumption: Option<int>, lastBillableMonth: Option<int>)

  datatype RuleError = InvalidBillAmount | InvalidInstallments | InvalidSharePct | FixedAmountRequired

  datatype Allocation = Allocation(
    contractId: string, payer: Payer, amount: int, chargeMonth: int, installmentNo: int,
    installmentsTotal: int, surplus: int, surplusBeneficiary: Option<DiscountBeneficiary>)

  datatype SkipReason = PaidDirectly | MissingConsumption | ZeroShare

  datatype Skip = Skip(contractId: string, reason: SkipReason)

  datatype Warning =
    | AfterContractEnd(contractId: string, droppedInstallments: nat)
    | CollectedInFinalLiquidation(contractId: string, collectedInstallments: nat)

  datatype SplitResult = SplitResult(allocations: seq<Allocation>, skipped: seq<Skip>, warnings: seq<Warning>)

  // ─── Shares ───────────────────────────────────────────

  function Nominal(bill: Bill): int {
    if bill.nominalAmount.Some? then Max(bill.nominalAmount.value, bill.amount) else bill.amount
  }

  /** The rule charges the amount without the annual discount, and the difference is somebody else's. */
  predicate ChargesNominal(bill: Bill, rule: Rule) {
    rule.annual && rule.discountBeneficiary != ForTenant && Nominal(bill) > bill.amount
  }

  function BaseOf(bill: Bill, rule: Rule, useNominal: bool): int {
    if useNominal && ChargesNominal(bill, rule) then Nominal(bill) else bill.amount
  }

  function ConsumptionRules(rules: seq<Rule>): (r: seq<nat>)
    ensures forall k :: 0 <= k < |r| ==> r[k] < |rules| && rules[r[k]].splitMode == Consumo
    ensures forall j, k :: 0 <= j < k < |r| ==> r[j] < r[k]
    ensures forall i: nat :: i < |rules| && rules[i].splitMode == Consumo ==> i in r
  {
    if rules == [] then []
    else
      var n := |rules| - 1;
      var front := ConsumptionRules(rules[..n]);
      if rules[n].splitMode == Consumo then front + [n] else front
  }

  predicate Known(rules: seq<Rule>) {
    forall i :: 0 <= i < |rules| && rules[i].splitMode == Consumo ==>
      rules[i].consumption.Some? && rules[i].consumption.value >= 0
  }

  function Consumptions(rules: seq<Rule>): seq<int>
    requires Known(rules)
  {
    var idx := ConsumptionRules(rules);
    seq(|idx|, k requires 0 <= k < |idx| => rules[idx[k]].consumption.value)
  }

  /** Declared consumption is missing for several units, or is all zero with no total on the bill. */
  predicate CannotShareByConsumption(bill: Bill, rules: seq<Rule>) {
    if Known(rules) then
      Sum(Consumptions(rules)) == 0 && !(bill.consumption.Some? && bill.consumption.value > 0)
    else |ConsumptionRules(rules)| > 1
  }

  /** Consumption of common areas and empty units: billed, and of no unit. */
  function UnsharedConsumption(bill: Bill, rules: seq<Rule>): int
    requires Known(rules)
  {
    var units := Sum(Consumptions(rules));
    Max(if bill.consumption.Some? then bill.consumption.value else units, units) - units
  }

  function ConsumptionWeights(bill: Bill, rules: seq<Rule>): seq<int>
    requires Known(rules)
  {
    var rest := UnsharedConsumption(bill, rules);
    if rest > 0 then Consumptions(rules) + [rest] else Consumptions(rules)
  }

  lemma ConsumptionWeightsValid(bill: Bill, rules: seq<Rule>)
    requires Known(rules) && ConsumptionRules(rules) != [] && !CannotShareByConsumption(bill, rules)
    ensures ValidWeights(ConsumptionWeights(bill, rules))
    ensures |ConsumptionWeights(bill, rules)| >= |ConsumptionRules(rules)|
  {
    SumNonNegative(Consumptions(rules));
    SumSnoc(Consumptions(rules), UnsharedConsumption(bill, rules));
  }

  /** The parts of all the consumption rules: one base for all of them, that of the first. */
  function ConsumptionParts(bill: Bill, rules: seq<Rule>, useNominal: bool): (r: seq<int>)
    requires Known(rules) && ConsumptionRules(rules) != [] && !CannotShareByConsumption(bill, rules)
    ensures |r| >= |ConsumptionRules(rules)|
  {
    ConsumptionWeightsValid(bill, rules);
    Allocate(BaseOf(bill, rules[ConsumptionRules(rules)[0]], useNominal), ConsumptionWeights(bill, rules))
  }

  function PositionIn(s: seq<nat>, x: nat): (k: nat)
    requires x in s
    ensures k < |s| && s[k] == x
  {
    if s[0] == x then 0 else 1 + PositionIn(s[1..], x)
  }

  /** The first rule that cannot be computed, if any. */
  function FirstError(rules: seq<Rule>): Option<RuleError> {
    if rules == [] then None
    else
      var n := |rules| - 1;
      var earlier := FirstError(rules[..n]);
      if earlier.Some? then earlier
      else if rules[n].splitMode == Porcentaje && !(0 <= rules[n].tenantSharePct <= FULL_PCT) then Some(InvalidSharePct)
      else if rules[n].splitMode == Fijo && !(rules[n].fixedAmount.Some? && rules[n].fixedAmount.value >= 0)
      then Some(FixedAmountRequired)
      else None
  }

  predicate Computable(rules: seq<Rule>) {
    forall i :: 0 <= i < |rules| ==>
      && (rules[i].splitMode == Porcentaje ==> 0 <= rules[i].tenantSharePct <= FULL_PCT)
      && (rules[i].splitMode == Fijo ==> rules[i].fixedAmount.Some? && rules[i].fixedAmount.value >= 0)
  }

  lemma {:induction false} NoErrorIsComputable(rules: seq<Rule>)
    ensures FirstError(rules).None? <==> Computable(rules)
  {
    if rules != [] {
      var n := |rules| - 1;
      NoErrorIsComputable(rules[..n]);
      assert forall i :: 0 <= i < n ==> rules[..n][i] == rules[i];
    }
  }

  /** The tenant's share of a rule before installments; none for consumption without data. */
  function ShareOf(bill: Bill, rules: seq<Rule>, i: nat, useNominal: bool): Option<int>
    requires i < |rules| && Computable(rules)
  {
    var rule := rules[i];
    match rule.splitMode
    case Porcentaje => Some(RoundDiv(BaseOf(bill, rule, useNominal) * rule.tenantSharePct, FULL_PCT))
    case Fijo => Some(Min(rule.fixedAmount.value, BaseOf(bill, rule, useNominal)))
    case Consumo =>
      if CannotShareByConsumption(bill, rules) then None
      else if !Known(rules) then Some(BaseOf(bill, rule, useNominal))
      else Some(ConsumptionParts(bill, rules, useNominal)[PositionIn(ConsumptionRules(rules), i)])
  }

  // ─── Installments ─────────────────────────────────────

  function Equal(n: nat): seq<int> { seq(n, _ => 1) }

  lemma EqualValid(n: nat)
    requires n > 0
    ensures ValidWeights(Equal(n)) && Sum(Equal(n)) == n
  {
    SumOnes(n);
  }

  predicate ValidInstallments(rule: Rule) { 1 <= rule.annualInstallments <= MAX_INSTALLMENTS }

  function InstallmentCount(rule: Rule): (n: nat)
    requires ValidInstallments(rule)
    ensures n > 0
  {
    if rule.annual && rule.prorated then rule.annualInstallments else 1
  }

  function Installments(amount: int, rule: Rule): (r: seq<int>)
    requires ValidInstallments(rule)
    ensures |r| == InstallmentCount(rule)
  {
    var n := InstallmentCount(rule);
    if rule.annual && rule.prorated then (EqualValid(n); Allocate(amount, Equal(n))) else [amount]
  }

  /** How many installments fall in or before the last month of the contract. */
  function KeptCount(bill: Bill, rule: Rule): (k: nat)
    requires ValidInstallments(rule)
    ensures k <= InstallmentCount(rule)
  {
    var n := InstallmentCount(rule);
    if rule.lastBillableMonth.None? then n
    else Max(0, Min(n, rule.lastBillableMonth.value - bill.period + 1))
  }

  predicate CollectsLate(bill: Bill, rule: Rule)
    requires ValidInstallments(rule)
  {
    0 < KeptCount(bill, rule) < InstallmentCount(rule) && rule.onEnd == CobrarEnLiquidacionFinal
  }

  /** The late parts are added to the last one kept. */
  function Collected(parts: seq<int>, kept: nat): (r: seq<int>)
    requires 0 < kept <= |parts|
    ensures |r| == |parts|
  {
    parts[kept - 1 := parts[kept - 1] + Sum(parts[kept..])]
  }

  /** What each installment ends up charging (of those that are kept). */
  function Charged(bill: Bill, rule: Rule, parts: seq<int>): (r: seq<int>)
    requires ValidInstallments(rule) && |parts| == InstallmentCount(rule)
    ensures |r| == |parts|
  {
    if CollectsLate(bill, rule) then Collected(parts, KeptCount(bill, rule)) else parts
  }

  function AllocationsOf(bill: Bill, rule: Rule, amounts: seq<int>, surpluses: seq<int>,
                         beneficiary: Option<DiscountBeneficiary>, k: nat): seq<Allocation>
    requires k <= |amounts| == |surpluses|
  {
    if k == 0 then []
    else
      AllocationsOf(bill, rule, amounts, surpluses, beneficiary, k - 1)
        + (if amounts[k - 1] == 0 then []
           else [Allocation(rule.contractId, rule.payer, amounts[k - 1], bill.period + k - 1, k, |amounts|,
                            surpluses[k - 1], beneficiary)])
  }

  // ─── One rule ─────────────────────────────────────────

  predicate ValidBill(bill: Bill, rules: seq<Rule>) {
    bill.amount >= 0 && Computable(rules) && forall i :: 0 <= i < |rules| ==> ValidInstallments(rules[i])
  }

  /** What the rule charges: its share of the nominal amount when it charges that, else of the amount paid. */
  function ChargedShare(bill: Bill, rules: seq<Rule>, i: nat): int
    requires i < |rules| && Computable(rules) && ShareOf(bill, rules, i, false).Some?
  {
    var paid := ShareOf(bill, rules, i, false).value;
    if ChargesNominal(bill, rules[i]) then
      (var nominal := ShareOf(bill, rules, i, true); if nominal.Some? then nominal.value else paid)
    else paid
  }

  function SurplusBeneficiary(bill: Bill, rules: seq<Rule>, i: nat): Option<DiscountBeneficiary>
    requires i < |rules| && Computable(rules) && ShareOf(bill, rules, i, false).Some?
  {
    if ChargedShare(bill, rules, i) > ShareOf(bill, rules, i, false).value
    then Some(rules[i].discountBeneficiary) else None
  }

  predicate Allocates(bill: Bill, rules: seq<Rule>, i: nat)
    requires i < |rules| && Computable(rules)
  {
    rules[i].payer != Inquilino && ShareOf(bill, rules, i, false).Some? && ChargedShare(bill, rules, i) != 0
  }

  function RuleAllocations(bill: Bill, rules: seq<Rule>, i: nat): seq<Allocation>
    requires i < |rules| && ValidBill(bill, rules)
  {
    if !Allocates(bill, rules, i) then []
    else
      var rule := rules[i];
      var parts := Installments(ChargedShare(bill, rules, i), rule);
      var surpluses := Differences(parts, Installments(ShareOf(bill, rules, i, false).value, rule));
      AllocationsOf(bill, rule, Charged(bill, rule, parts), Charged(bill, rule, surpluses),
                    SurplusBeneficiary(bill, rules, i), KeptCount(bill, rule))
  }

  function RuleSkips(bill: Bill, rules: seq<Rule>, i: nat): seq<Skip>
    requires i < |rules| && Computable(rules)
  {
    if rules[i].payer == Inquilino then [Skip(rules[i].contractId, PaidDirectly)]
    else if ShareOf(bill, rules, i, false).Some? && ChargedShare(bill, rules, i) == 0
    then [Skip(rules[i].contractId, ZeroShare)]
    else []
  }

  function RuleWarnings(bill: Bill, rules: seq<Rule>, i: nat): seq<Warning>
    requires i < |rules| && ValidBill(bill, rules)
  {
    if !Allocates(bill, rules, i) then []
    else
      var late := InstallmentCount(rules[i]) - KeptCount(bill, rules[i]);
      if late == 0 then []
      else if CollectsLate(bill, rules[i]) then [CollectedInFinalLiquidation(rules[i].contractId, late)]
      else [AfterContractEnd(rules[i].contractId, late)]
  }

  function MissingConsumptionSkips(bill: Bill, rules: seq<Rule>, n: nat): seq<Skip>
    requires n <= |rules|
  {
    if n == 0 || !CannotShareByConsumption(bill, rules) || ConsumptionRules(rules) == [] then []
    else
      MissingConsumptionSkips(bill, rules, n - 1)
        + (if rules[n - 1].splitMode == Consumo && rules[n - 1].payer != Inquilino
           then [Skip(rules[n - 1].contractId, MissingConsumption)] else [])
  }

  function UpToRule(bill: Bill, rules: seq<Rule>, n: nat): SplitResult
    requires n <= |rules| && ValidBill(bill, rules)
  {
    if n == 0 then SplitResult([], MissingConsumptionSkips(bill, rules, |rules|), [])
    else
      var r := UpToRule(bill, rules, n - 1);
      SplitResult(r.allocations + RuleAllocations(bill, rules, n - 1),
                  r.skipped + RuleSkips(bill, rules, n - 1),
                  r.warnings + RuleWarnings(bill, rules, n - 1))
  }

  function SplitOf(bill: Bill, rules: seq<Rule>): Result<SplitResult, RuleError> {
    if bill.amount < 0 then Err(InvalidBillAmount)
    else if exists i :: 0 <= i < |rules| && !ValidInstallments(rules[i]) then Err(InvalidInstallments)
    else
      NoErrorIsComputable(rules);
      var error := FirstError(rules);
      if error.Some? then Err(error.value) else Ok(UpToRule(bill, rules, |rules|))
  }

  // ─── The engine's loops ───────────────────────────────

  lemma SumOfNothing()
    ensures Sum([]) == 0
  {
  }

  /** Adds every late part to the last one kept, in place. */
  method CollectInLast(parts: seq<int>, kept: nat) returns (r: seq<int>)
    requires 0 < kept <= |parts|
    ensures r == Collected(parts, kept)
  {
    hide Sum;
    var amounts := new int[|parts|](i requires 0 <= i < |parts| => parts[i]);
    assert parts[kept..kept] == [];
    SumOfNothing();
    for k := kept to |parts|
      invariant amounts[..] == parts[kept - 1 := parts[kept - 1] + Sum(parts[kept..k])]
    {
      assert parts[kept..k + 1] == parts[kept..k] + [parts[k]];
      SumSnoc(parts[kept..k], parts[k]);
      amounts[kept - 1] := amounts[kept - 1] + parts[k];
    }
    assert parts[kept..|parts|] == parts[kept..];
    r := amounts[..];
  }

  method PushAllocations(bill: Bill, rule: Rule, amounts: seq<int>, surpluses: seq<int>,
                         beneficiary: Option<DiscountBeneficiary>, kept: nat) returns (r: seq<Allocation>)
    requires kept <= |amounts| == |surpluses|
    ensures r == AllocationsOf(bill, rule, amounts, surpluses, beneficiary, kept)
  {
    r := [];
    for k := 0 to kept
      invariant r == AllocationsOf(bill, rule, amounts, surpluses, beneficiary, k)
    {
      if amounts[k] != 0 {
        r := r + [Allocation(rule.contractId, rule.payer, amounts[k], bill.period + k, k + 1, |amounts|,
                             surpluses[k], beneficiary)];
      }
    }
  }

  /** The installments of one rule that charges something. */
  method SplitRule(bill: Bill, rules: seq<Rule>, i: nat) returns (r: seq<Allocation>)
    requires i < |rules| && ValidBill(bill, rules) && Allocates(bill, rules, i)
    ensures r == RuleAllocations(bill, rules, i)
  {
    hide ShareOf, Allocate;
    var rule, charged, paid := rules[i], ChargedShare(bill, rules, i), ShareOf(bill, rules, i, false).value;
    var amounts := Installments(charged, rule);
    var surpluses := Differences(amounts, Installments(paid, rule));
    var kept := KeptCount(bill, rule);
    if CollectsLate(bill, rule) {
      amounts := CollectInLast(amounts, kept);
      surpluses := CollectInLast(surpluses, kept);
    }
    r := PushAllocations(bill, rule, amounts, surpluses, SurplusBeneficiary(bill, rules, i), kept);
  }

  lemma NothingAllocated(bill: Bill, rules: seq<Rule>, i: nat)
    requires i < |rules| && ValidBill(bill, rules) && !Allocates(bill, rules, i)
    ensures RuleAllocations(bill, rules, i) == []
  {
    hide Allocates;
  }

  method SplitBill(bill: Bill, rules: seq<Rule>) returns (r: Result<SplitResult, RuleError>)
    ensures r == SplitOf(bill, rules)
  {
    hide ShareOf, RuleAllocations, RuleSkips, RuleWarnings, Allocates, MissingConsumptionSkips, FirstError;
    if bill.amount < 0 {
      return Err(InvalidBillAmount);
    }
    if exists i :: 0 <= i < |rules| && !ValidInstallments(rules[i]) {
      return Err(InvalidInstallments);
    }
    NoErrorIsComputable(rules);
    var error := FirstError(rules);
    if error.Some? {
      return Err(error.value);
    }
    var allocations: seq<Allocation>, warnings: seq<Warning> := [], [];
    var skipped := MissingConsumptionSkips(bill, rules, |rules|);
    for i := 0 to |rules|
      invariant SplitResult(allocations, skipped, warnings) == UpToRule(bill, rules, i)
    {
      skipped := skipped + RuleSkips(bill, rules, i);
      if Allocates(bill, rules, i) {
        var mine := SplitRule(bill, rules, i);
        allocations := allocations + mine;
      } else {
        NothingAllocated(bill, rules, i);
      }
      warnings := warnings + RuleWarnings(bill, rules, i);
    }
    r := Ok(SplitResult(allocations, skipped, warnings));
  }

  // ─── Liquidation lines ────────────────────────────────

  datatype LineBeneficiary = ToEnte | ToLessor | ToAgency

  datatype ChargeLine = ChargeLine(amount: int, beneficiary: LineBeneficiary)

  /** The service's line and, when the surplus is somebody else's, a line of its own for it. */
  function ChargeAllocationLines(a: Allocation): seq<ChargeLine> {
    var to := if a.payer == Propietario then ToLessor else ToEnte;
    if a.surplus <= 0 || a.surplusBeneficiary.None? then [ChargeLine(a.amount, to)]
    else
      var difference := ChargeLine(a.surplus, if a.surplusBeneficiary == Some(ForLessor) then ToLessor else ToAgency);
      if a.amount - a.surplus > 0 then [ChargeLine(a.amount - a.surplus, to), difference] else [difference]
  }
}
