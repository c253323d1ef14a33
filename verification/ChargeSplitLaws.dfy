/**
  The shares of a bill are conserved to the cent: by the installments of each rule, by the lines
  built from them, by the contracts that end early, and by the consumption of all the units.
*/
module ChargeSplitLaws {
  import opened ChargeSplit
  import opened Money
  import opened Rounding
  import opened Sums
  import opened Wrappers

  function Amounts(all: seq<Allocation>): seq<int> { seq(|all|, i requires 0 <= i < |all| => all[i].amount) }
  // ─── Equal installments ───────────────────────────────

  /** An installment is the whole cents of an n-th of the amount, and the first ones carry the cents left. */
  lemma EqualParts(amount: int, n: nat)
    requires n > 0
    ensures ValidWeights(Equal(n))
    ensures Allocate(amount, Equal(n)) == seq(n, k => amount / n + (if k < amount % n then 1 else 0))
  {
    EqualValid(n);
    var parts := seq(n, k => amount / n + (if k < amount % n then 1 else 0));
    EqualPartsSum(amount / n, amount % n, n);
    assert parts == seq(n, k => amount / n + (if k < amount % n then 1 else 0));
    assert QuotaFloor(amount, 1, n) == amount / n && QuotaRest(amount, 1, n) == amount % n;
    assert IsLargestRemainder(amount, Equal(n), parts) by {
      assert Sum(parts) == amount by { DivBounds(amount, n); }
    }
    AllocateIsLargestRemainder(amount, Equal(n));
    LargestRemainderUnique(amount, Equal(n), Allocate(amount, Equal(n)), parts);
  }

  lemma {:induction false} EqualPartsSum(q: int, r: int, n: nat)
    requires 0 <= r <= n
    ensures Sum(seq(n, k => q + (if k < r then 1 else 0))) == q * n + r
  {
    if n > 0 {
      var s := seq(n, k => q + (if k < r then 1 else 0));
      var m := if r < n then r else n - 1;
      EqualPartsSum(q, m, n - 1);
      assert s[..n - 1] == seq(n - 1, k => q + (if k < m then 1 else 0));
      assert q * n == q * (n - 1) + q;
    }
  }

  lemma InstallmentsSum(amount: int, rule: Rule)
    requires ValidInstallments(rule)
    ensures Sum(Installments(amount, rule)) == amount
    ensures amount >= 0 ==> forall k :: 0 <= k < InstallmentCount(rule) ==> Installments(amount, rule)[k] >= 0
  {
    var n := InstallmentCount(rule);
    if rule.annual && rule.prorated {
      EqualValid(n);
      AllocateIsLargestRemainder(amount, Equal(n));
      if amount >= 0 {
        NonNegativeParts(amount, Equal(n));
      }
    } else {
      assert [amount] == [] + [amount];
      SumSnoc([], amount);
    }
  }

  /** Charging more never lowers an installment. */
  lemma InstallmentsMonotone(a: int, b: int, rule: Rule, k: nat)
    requires ValidInstallments(rule) && a <= b && k < InstallmentCount(rule)
    ensures Installments(a, rule)[k] <= Installments(b, rule)[k]
  {
    var n := InstallmentCount(rule);
    if rule.annual && rule.prorated {
      EqualParts(a, n);
      EqualParts(b, n);
      DivMonotone(a, b, n);
      DivBounds(a, n);
      DivBounds(b, n);
      if a / n == b / n {
        assert a % n <= b % n;
      }
    }
  }

  // ─── Contracts that end early ─────────────────────────

  lemma CollectedSum(parts: seq<int>, kept: nat)
    requires 0 < kept <= |parts|
    ensures Sum(Collected(parts, kept)[..kept]) == Sum(parts)
  {
    hide Sum, Collected;
    CollectedPrefix(parts, kept);
    SumUpdate(parts[..kept], kept - 1, parts[kept - 1] + Sum(parts[kept..]));
    SumConcat(parts[..kept], parts[kept..]);
    assert parts[..kept] + parts[kept..] == parts;
  }

  lemma CollectedPrefix(parts: seq<int>, kept: nat)
    requires 0 < kept <= |parts|
    ensures Collected(parts, kept)[..kept] == parts[..kept][kept - 1 := parts[kept - 1] + Sum(parts[kept..])]
  {
    hide Sum;
    UpdateInPrefix(parts, kept, parts[kept - 1] + Sum(parts[kept..]));
  }

  lemma UpdateInPrefix(s: seq<int>, n: nat, x: int)
    requires 0 < n <= |s|
    ensures s[n - 1 := x][..n] == s[..n][n - 1 := x]
  {
  }

  /** What is never charged: the installments past the end of the contract, when they are not collected. */
  function Dropped(bill: Bill, rule: Rule, parts: seq<int>): int
    requires ValidInstallments(rule) && |parts| == InstallmentCount(rule)
  {
    if CollectsLate(bill, rule) then 0 else Sum(parts[KeptCount(bill, rule)..])
  }

  lemma ChargedSum(bill: Bill, rule: Rule, parts: seq<int>)
    requires ValidInstallments(rule) && |parts| == InstallmentCount(rule)
    ensures Sum(Charged(bill, rule, parts)[..KeptCount(bill, rule)]) == Sum(parts) - Dropped(bill, rule, parts)
  {
    var kept := KeptCount(bill, rule);
    if CollectsLate(bill, rule) {
      CollectedSum(parts, kept);
    } else {
      assert parts == parts[..kept] + parts[kept..];
      SumConcat(parts[..kept], parts[kept..]);
    }
  }

  lemma {:induction false} AllocationsSum(
    bill: Bill, rule: Rule, amounts: seq<int>, surpluses: seq<int>, beneficiary: Option<DiscountBeneficiary>, k: nat)
    requires k <= |amounts| == |surpluses|
    ensures Sum(Amounts(AllocationsOf(bill, rule, amounts, surpluses, beneficiary, k))) == Sum(amounts[..k])
  {
    if k > 0 {
      AllocationsSum(bill, rule, amounts, surpluses, beneficiary, k - 1);
      SumPrefix(amounts, k - 1);
      var front := AllocationsOf(bill, rule, amounts, surpluses, beneficiary, k - 1);
      var all := AllocationsOf(bill, rule, amounts, surpluses, beneficiary, k);
      if amounts[k - 1] != 0 {
        assert Amounts(all) == Amounts(front) + [amounts[k - 1]];
        SumSnoc(Amounts(front), amounts[k - 1]);
      } else {
        assert all == front;
      }
    }
  }

  /**
    The installments of a rule add up exactly to the share it charges, less what is dropped when the
    contract ends early; nothing is dropped when the rest is collected in the last month.
  */
  lemma RuleChargesItsShare(bill: Bill, rules: seq<Rule>, i: nat)
    requires i < |rules| && ValidBill(bill, rules) && Allocates(bill, rules, i)
    ensures Sum(Amounts(RuleAllocations(bill, rules, i)))
         == ChargedShare(bill, rules, i)
            - Dropped(bill, rules[i], Installments(ChargedShare(bill, rules, i), rules[i]))
    ensures rules[i].lastBillableMonth.None? || CollectsLate(bill, rules[i])
            || KeptCount(bill, rules[i]) == InstallmentCount(rules[i])
            ==> Sum(Amounts(RuleAllocations(bill, rules, i))) == ChargedShare(bill, rules, i)
    ensures KeptCount(bill, rules[i]) == 0 ==> RuleAllocations(bill, rules, i) == []
  {
    hide ShareOf, Installments, ChargedShare;
    var rule, charged := rules[i], ChargedShare(bill, rules, i);
    var parts := Installments(charged, rule);
    var surpluses := Differences(parts, Installments(ShareOf(bill, rules, i, false).value, rule));
    InstallmentsSum(charged, rule);
    ChargedSum(bill, rule, parts);
    AllocationsSum(bill, rule, Charged(bill, rule, parts), Charged(bill, rule, surpluses),
                   SurplusBeneficiary(bill, rules, i), KeptCount(bill, rule));
    assert parts[|parts|..] == [];
  }

  // ─── Surplus ──────────────────────────────────────────

  lemma ShareNonNegative(bill: Bill, rules: seq<Rule>, i: nat, useNominal: bool)
    requires i < |rules| && Computable(rules) && bill.amount >= 0 && ShareOf(bill, rules, i, useNominal).Some?
    ensures ShareOf(bill, rules, i, useNominal).value >= 0
  {
    var rule := rules[i];
    var base := BaseOf(bill, rule, useNominal);
    match rule.splitMode
    case Porcentaje =>
      MulLe(0, base, rule.tenantSharePct);
      RoundDivMonotone(0, base * rule.tenantSharePct, FULL_PCT);
      RoundDivExact(0, FULL_PCT);
    case Fijo =>
    case Consumo =>
      if Known(rules) {
        ConsumptionWeightsValid(bill, rules);
        NonNegativeParts(BaseOf(bill, rules[ConsumptionRules(rules)[0]], useNominal), ConsumptionWeights(bill, rules));
      }
  }

  /**
    The share charged is never below the share paid for the percentage and fixed modes; by
    consumption, it is at most a cent below. `ConsumptionSurplus` says when.
  */
  lemma SurplusOfRule(bill: Bill, rules: seq<Rule>, i: nat)
    requires i < |rules| && Computable(rules) && bill.amount >= 0 && ShareOf(bill, rules, i, false).Some?
    ensures ChargedShare(bill, rules, i)
         >= ShareOf(bill, rules, i, false).value - (if rules[i].splitMode == Consumo then 1 else 0)
  {
    var rule := rules[i];
    var low, high := BaseOf(bill, rule, false), BaseOf(bill, rule, true);
    match rule.splitMode
    case Porcentaje =>
      MulLe(low, high, rule.tenantSharePct);
      RoundDivMonotone(low * rule.tenantSharePct, high * rule.tenantSharePct, FULL_PCT);
    case Fijo =>
    case Consumo =>
      if Known(rules) {
        ConsumptionWeightsValid(bill, rules);
        var first := rules[ConsumptionRules(rules)[0]];
        RaisingTotalLosesAtMostACent(BaseOf(bill, first, false), BaseOf(bill, first, true),
                                     ConsumptionWeights(bill, rules), PositionIn(ConsumptionRules(rules), i));
      }
  }

  /** Whether the rule whose base all the consumption rules share charges the nominal amount. */
  predicate FirstChargesNominal(bill: Bill, rules: seq<Rule>)
    requires ConsumptionRules(rules) != []
  {
    ChargesNominal(bill, rules[ConsumptionRules(rules)[0]])
  }

  /**
    A consumption rule is charged less than what is paid for it exactly when it and the first consumption
    rule charge the nominal amount, and raising the total from the amount paid to the nominal one takes a
    cent from its part. Never when at most two consumptions are positive; and when the first rule does not
    charge the nominal amount there is no surplus at all, whatever the nominal amount is.
  */
  lemma ConsumptionSurplus(bill: Bill, rules: seq<Rule>, i: nat)
    requires i < |rules| && Computable(rules) && bill.amount >= 0 && rules[i].splitMode == Consumo
    requires ShareOf(bill, rules, i, false).Some? && Known(rules)
    ensures ConsumptionRules(rules) != [] && ValidWeights(ConsumptionWeights(bill, rules))
    ensures i in ConsumptionRules(rules)
         && PositionIn(ConsumptionRules(rules), i) < |ConsumptionWeights(bill, rules)|
    ensures ChargedShare(bill, rules, i) < ShareOf(bill, rules, i, false).value <==>
              && ChargesNominal(bill, rules[i]) && FirstChargesNominal(bill, rules)
              && LosesACent(bill.amount, Nominal(bill), ConsumptionWeights(bill, rules),
                            PositionIn(ConsumptionRules(rules), i))
    ensures !FirstChargesNominal(bill, rules) ==> ChargedShare(bill, rules, i) == ShareOf(bill, rules, i, false).value
    ensures (exists a, b :: AtMostTwoPositive(ConsumptionWeights(bill, rules), a, b)) ==>
              ChargedShare(bill, rules, i) >= ShareOf(bill, rules, i, false).value
  {
    hide Allocate, LosesACent, QuotaFloor, Sum;
    ConsumptionWeightsValid(bill, rules);
    var ws, k := ConsumptionWeights(bill, rules), PositionIn(ConsumptionRules(rules), i);
    LosesACentExactlyWhen(bill.amount, Nominal(bill), ws, k);
    if a, b :| AtMostTwoPositive(ws, a, b) { AtMostTwoMonotone(bill.amount, Nominal(bill), ws, a, b, k); }
  }

  /** A unit alone, with its consumption not declared, is charged its whole base. */
  lemma UnknownConsumptionSurplus(bill: Bill, rules: seq<Rule>, i: nat)
    requires i < |rules| && Computable(rules) && rules[i].splitMode == Consumo && !Known(rules)
    requires ShareOf(bill, rules, i, false).Some?
    ensures ChargedShare(bill, rules, i) >= ShareOf(bill, rules, i, false).value == bill.amount
  {
  }

  /** Three units of consumption 6, 6 and 2, every rule with the same fields but these. */
  function UnitRule(consumption: int, beneficiary: DiscountBeneficiary): Rule {
    Rule("c", Propietario, Consumo, 0, None, true, false, 1, beneficiary, Descartar, Some(consumption), None)
  }

  function ThreeUnits(third: DiscountBeneficiary): seq<Rule> {
    [UnitRule(6, ForLessor), UnitRule(6, ForLessor), UnitRule(2, third)]
  }

  /** Ten cents paid of a bill of eleven. */
  const ELEVEN := Bill(10, Some(11), 0, None)

  lemma ThreeUnitsAre(third: DiscountBeneficiary)
    ensures ConsumptionRules(ThreeUnits(third)) == [0, 1, 2]
  {
    hide ConsumptionRules;
    var rules := ThreeUnits(third);
    ConsumptionSnoc(rules, 0);
    ConsumptionSnoc(rules, 1);
    ConsumptionSnoc(rules, 2);
    assert rules[..3] == rules;
  }

  lemma ConsumptionSnoc(rules: seq<Rule>, n: nat)
    requires n < |rules| && rules[n].splitMode == Consumo
    ensures ConsumptionRules(rules[..n + 1]) == ConsumptionRules(rules[..n]) + [n]
    ensures n == 0 ==> ConsumptionRules(rules[..n]) == []
  {
    assert rules[..n + 1][..n] == rules[..n];
  }

  lemma ThreeUnitsShares(third: DiscountBeneficiary)
    ensures var rules := ThreeUnits(third);
            && ConsumptionRules(rules) == [0, 1, 2] && Known(rules) && Consumptions(rules) == [6, 6, 2]
            && ConsumptionWeights(ELEVEN, rules) == [6, 6, 2] && !CannotShareByConsumption(ELEVEN, rules)
            && ConsumptionParts(ELEVEN, rules, false) == [4, 4, 2]
            && ConsumptionParts(ELEVEN, rules, true) == [5, 5, 1]
  {
    hide Allocate, Sum, ConsumptionRules;
    ThreeUnitsAre(third);
    assert Consumptions(ThreeUnits(third)) == [6, 6, 2];
    SumOfThree([6, 6, 2]);
    RaisingTotalCanLowerAPart();
  }

  /** The cent below really happens, all the rules on the same base: the third unit pays 2 and is charged 1. */
  lemma ConsumptionCanChargeLess()
    ensures var rules := ThreeUnits(ForLessor);
            && Computable(rules) && ChargesNominal(ELEVEN, rules[0]) && ChargesNominal(ELEVEN, rules[2])
            && ShareOf(ELEVEN, rules, 2, false) == Some(2) && ChargedShare(ELEVEN, rules, 2) == 1
  {
    hide ConsumptionParts, ConsumptionRules;
    ThreeUnitsShares(ForLessor);
  }

  lemma {:induction false} SumAtMost(a: seq<int>, b: seq<int>)
    requires |a| == |b| && forall k :: 0 <= k < |a| ==> 0 <= a[k] <= b[k]
    ensures 0 <= Sum(a) <= Sum(b)
  {
    SumNonNegative(a);
    SumPointwise(a, b);
  }

  lemma ChargedWithin(bill: Bill, rule: Rule, surpluses: seq<int>, parts: seq<int>)
    requires ValidInstallments(rule) && |parts| == |surpluses| == InstallmentCount(rule)
    requires forall k :: 0 <= k < |parts| ==> 0 <= surpluses[k] <= parts[k]
    ensures forall k :: 0 <= k < |parts| ==> 0 <= Charged(bill, rule, surpluses)[k] <= Charged(bill, rule, parts)[k]
  {
    var kept := KeptCount(bill, rule);
    SumAtMost(surpluses[kept..], parts[kept..]);
  }

  /** Every installment charges something, and its surplus is a part of it. */
  predicate Within(all: seq<Allocation>) {
    forall j :: 0 <= j < |all| ==> all[j].amount > 0 && 0 <= all[j].surplus <= all[j].amount
  }

  lemma {:induction false} AllocationsWithin(
    bill: Bill, rule: Rule, amounts: seq<int>, surpluses: seq<int>, beneficiary: Option<DiscountBeneficiary>, k: nat)
    requires k <= |amounts| == |surpluses|
    requires forall j :: 0 <= j < |amounts| ==> 0 <= surpluses[j] <= amounts[j]
    ensures Within(AllocationsOf(bill, rule, amounts, surpluses, beneficiary, k))
  {
    if k > 0 { AllocationsWithin(bill, rule, amounts, surpluses, beneficiary, k - 1); }
  }

  /** For percentage and fixed rules, every surplus lies between zero and its installment. */
  lemma SurplusWithinInstallment(bill: Bill, rules: seq<Rule>, i: nat)
    requires i < |rules| && ValidBill(bill, rules) && rules[i].splitMode != Consumo
    ensures Within(RuleAllocations(bill, rules, i))
  {
    hide ShareOf, Installments, ChargedShare, Charged;
    if Allocates(bill, rules, i) {
      var rule, charged, paid := rules[i], ChargedShare(bill, rules, i), ShareOf(bill, rules, i, false).value;
      SurplusOfRule(bill, rules, i);
      ShareNonNegative(bill, rules, i, false);
      var parts, paidParts := Installments(charged, rule), Installments(paid, rule);
      InstallmentsSum(paid, rule);
      assert paid >= 0;
      forall k | 0 <= k < |parts| ensures 0 <= Differences(parts, paidParts)[k] <= parts[k] {
        InstallmentsMonotone(paid, charged, rule, k);
      }
      ChargedWithin(bill, rule, Differences(parts, paidParts), parts);
      AllocationsWithin(bill, rule, Charged(bill, rule, parts), Charged(bill, rule, Differences(parts, paidParts)),
                        SurplusBeneficiary(bill, rules, i), KeptCount(bill, rule));
    }
  }

  // ─── Lines ────────────────────────────────────────────

  function LineSum(lines: seq<ChargeLine>): int {
    if lines == [] then 0 else lines[0].amount + LineSum(lines[1..])
  }

  /** The lines of an installment add up to it, exactly when its surplus does not exceed it (or goes to nobody). */
  lemma LinesAddUp(a: Allocation)
    ensures LineSum(ChargeAllocationLines(a)) == a.amount <==>
              a.surplus <= a.amount || a.surplus <= 0 || a.surplusBeneficiary.None?
    ensures a.amount > 0 && 0 <= a.surplus <= a.amount ==>
              forall k :: 0 <= k < |ChargeAllocationLines(a)| ==> ChargeAllocationLines(a)[k].amount > 0
  {
    var lines := ChargeAllocationLines(a);
    if |lines| == 2 {
      assert lines[1..] == [lines[1]];
      assert LineSum([lines[1]]) == lines[1].amount;
    } else {
      assert LineSum(lines) == lines[0].amount;
    }
  }

  function LinesTotal(all: seq<Allocation>): int {
    if all == [] then 0
    else LinesTotal(all[..|all| - 1]) + LineSum(ChargeAllocationLines(all[|all| - 1]))
  }

  predicate SurplusAtMostAmount(all: seq<Allocation>) {
    forall j :: 0 <= j < |all| ==> all[j].amount > 0 && all[j].surplus <= all[j].amount
  }

  lemma {:induction false} AllocationsAtMost(
    bill: Bill, rule: Rule, amounts: seq<int>, surpluses: seq<int>, beneficiary: Option<DiscountBeneficiary>, k: nat)
    requires k <= |amounts| == |surpluses|
    requires forall j :: 0 <= j < |amounts| ==> amounts[j] >= 0 && surpluses[j] <= amounts[j]
    ensures SurplusAtMostAmount(AllocationsOf(bill, rule, amounts, surpluses, beneficiary, k))
  {
    if k > 0 { AllocationsAtMost(bill, rule, amounts, surpluses, beneficiary, k - 1); }
  }

  lemma ChargedAtMost(bill: Bill, rule: Rule, surpluses: seq<int>, parts: seq<int>)
    requires ValidInstallments(rule) && |parts| == |surpluses| == InstallmentCount(rule)
    requires forall k :: 0 <= k < |parts| ==> parts[k] >= 0 && surpluses[k] <= parts[k]
    ensures forall k :: 0 <= k < |parts| ==>
              Charged(bill, rule, parts)[k] >= 0 && Charged(bill, rule, surpluses)[k] <= Charged(bill, rule, parts)[k]
  {
    var kept := KeptCount(bill, rule);
    SumNonNegative(parts[kept..]);
    SumPointwise(surpluses[kept..], parts[kept..]);
  }

  lemma {:induction false} LinesTotalIsTheAmounts(all: seq<Allocation>)
    requires SurplusAtMostAmount(all)
    ensures LinesTotal(all) == Sum(Amounts(all))
  {
    if all != [] {
      var n := |all| - 1;
      LinesTotalIsTheAmounts(all[..n]);
      LinesAddUp(all[n]);
      assert Amounts(all)[..n] == Amounts(all[..n]);
    }
  }

  /** In every mode, the lines built from the installments of a rule add up to what the installments charge. */
  lemma RuleLinesAddUp(bill: Bill, rules: seq<Rule>, i: nat)
    requires i < |rules| && ValidBill(bill, rules)
    ensures LinesTotal(RuleAllocations(bill, rules, i)) == Sum(Amounts(RuleAllocations(bill, rules, i)))
  {
    hide ShareOf, Installments, ChargedShare, Charged;
    if Allocates(bill, rules, i) {
      var rule, charged, paid := rules[i], ChargedShare(bill, rules, i), ShareOf(bill, rules, i, false).value;
      ChargedNonNegative(bill, rules, i);
      var parts, paidParts := Installments(charged, rule), Installments(paid, rule);
      InstallmentsSum(charged, rule);
      InstallmentsSum(paid, rule);
      ChargedAtMost(bill, rule, Differences(parts, paidParts), parts);
      AllocationsAtMost(bill, rule, Charged(bill, rule, parts), Charged(bill, rule, Differences(parts, paidParts)),
                        SurplusBeneficiary(bill, rules, i), KeptCount(bill, rule));
      LinesTotalIsTheAmounts(RuleAllocations(bill, rules, i));
    }
  }

  lemma ChargedNonNegative(bill: Bill, rules: seq<Rule>, i: nat)
    requires i < |rules| && Computable(rules) && bill.amount >= 0 && ShareOf(bill, rules, i, false).Some?
    ensures ChargedShare(bill, rules, i) >= 0 && ShareOf(bill, rules, i, false).value >= 0
  {
    hide ShareOf;
    ShareNonNegative(bill, rules, i, false);
    if ShareOf(bill, rules, i, true).Some? {
      ShareNonNegative(bill, rules, i, true);
    }
  }

  // ─── Where allocations come from ──────────────────────

  /** Every allocation charges something, and is of a rule with its payer and contract. */
  predicate OfSomeRule(a: Allocation, rules: seq<Rule>, n: nat)
    requires n <= |rules|
  {
    a.amount > 0 && exists i :: 0 <= i < n && a.contractId == rules[i].contractId && a.payer == rules[i].payer
  }

  lemma {:induction false} AllocationsAreOf(
    bill: Bill, rule: Rule, amounts: seq<int>, surpluses: seq<int>, beneficiary: Option<DiscountBeneficiary>, k: nat)
    requires k <= |amounts| == |surpluses|
    requires forall j :: 0 <= j < |amounts| ==> amounts[j] >= 0
    ensures forall a :: a in AllocationsOf(bill, rule, amounts, surpluses, beneficiary, k) ==>
              a.amount > 0 && a.contractId == rule.contractId && a.payer == rule.payer
  {
    if k > 0 { AllocationsAreOf(bill, rule, amounts, surpluses, beneficiary, k - 1); }
  }

  lemma RuleAllocationsAreOf(bill: Bill, rules: seq<Rule>, i: nat)
    requires i < |rules| && ValidBill(bill, rules)
    ensures forall a :: a in RuleAllocations(bill, rules, i) ==>
              a.amount > 0 && a.contractId == rules[i].contractId && a.payer == rules[i].payer
  {
    hide ShareOf, Installments, ChargedShare, Charged;
    if Allocates(bill, rules, i) {
      var rule, charged, paid := rules[i], ChargedShare(bill, rules, i), ShareOf(bill, rules, i, false).value;
      ChargedNonNegative(bill, rules, i);
      var parts, paidParts := Installments(charged, rule), Installments(paid, rule);
      InstallmentsSum(charged, rule);
      assert charged >= 0;
      ChargedKeepsSign(bill, rule, parts);
      AllocationsAreOf(bill, rule, Charged(bill, rule, parts), Charged(bill, rule, Differences(parts, paidParts)),
                       SurplusBeneficiary(bill, rules, i), KeptCount(bill, rule));
    }
  }

  lemma ChargedKeepsSign(bill: Bill, rule: Rule, parts: seq<int>)
    requires ValidInstallments(rule) && |parts| == InstallmentCount(rule)
    requires forall k :: 0 <= k < |parts| ==> parts[k] >= 0
    ensures forall k :: 0 <= k < |parts| ==> Charged(bill, rule, parts)[k] >= 0
  {
    SumNonNegative(parts[KeptCount(bill, rule)..]);
  }

  lemma {:induction false} UpToRuleIsOf(bill: Bill, rules: seq<Rule>, n: nat)
    requires n <= |rules| && ValidBill(bill, rules)
    ensures forall a :: a in UpToRule(bill, rules, n).allocations ==> OfSomeRule(a, rules, n)
  {
    hide RuleAllocations, RuleSkips, RuleWarnings, MissingConsumptionSkips, ValidBill;
    if n > 0 {
      UpToRuleIsOf(bill, rules, n - 1);
      RuleAllocationsAreOf(bill, rules, n - 1);
      forall a | a in UpToRule(bill, rules, n).allocations ensures OfSomeRule(a, rules, n) {
        if a in UpToRule(bill, rules, n - 1).allocations {
          assert OfSomeRule(a, rules, n - 1);
        } else {
          assert a in RuleAllocations(bill, rules, n - 1);
        }
      }
    }
  }

  /** What a bill is split into charges something each time, and is of one of its rules. */
  lemma SplitIsOfTheRules(bill: Bill, rules: seq<Rule>)
    requires SplitOf(bill, rules).Ok?
    ensures forall a :: a in SplitOf(bill, rules).value.allocations ==> OfSomeRule(a, rules, |rules|)
  {
    hide UpToRule, FirstError, OfSomeRule;
    NoErrorIsComputable(rules);
    UpToRuleIsOf(bill, rules, |rules|);
  }

  // ─── Consumption ──────────────────────────────────────

  /** What shares a bill among units by consumption: their consumption is known, and there is some. */
  predicate SharesByConsumption(bill: Bill, rules: seq<Rule>) {
    Known(rules) && ConsumptionRules(rules) != [] && !CannotShareByConsumption(bill, rules)
  }

  function ConsumptionShares(bill: Bill, rules: seq<Rule>, useNominal: bool): seq<int>
    requires SharesByConsumption(bill, rules)
  {
    ConsumptionParts(bill, rules, useNominal)[..|ConsumptionRules(rules)|]
  }

  /** The base all the consumption rules share: that of the first one. */
  function CommonBase(bill: Bill, rules: seq<Rule>, useNominal: bool): int
    requires ConsumptionRules(rules) != []
  {
    BaseOf(bill, rules[ConsumptionRules(rules)[0]], useNominal)
  }

  /** The part of the consumption that is of no unit, when there is some. */
  function UnsharedPart(bill: Bill, rules: seq<Rule>, useNominal: bool): int
    requires SharesByConsumption(bill, rules)
  {
    var parts, n := ConsumptionParts(bill, rules, useNominal), |ConsumptionRules(rules)|;
    if |parts| > n then parts[n] else 0
  }

  /**
    On either base, the units' shares never exceed it; they are all of it when their consumption covers the
    total, and what is left over otherwise is the part of the unshared consumption.
  */
  lemma ConsumptionIsConserved(bill: Bill, rules: seq<Rule>, useNominal: bool)
    requires bill.amount >= 0 && SharesByConsumption(bill, rules)
    ensures CommonBase(bill, rules, false) == bill.amount
    ensures UnsharedPart(bill, rules, useNominal) >= 0
    ensures UnsharedConsumption(bill, rules) <= 0 ==> UnsharedPart(bill, rules, useNominal) == 0
    ensures Sum(ConsumptionShares(bill, rules, useNominal))
         == CommonBase(bill, rules, useNominal) - UnsharedPart(bill, rules, useNominal)
  {
    hide Allocate;
    var ws, n := ConsumptionWeights(bill, rules), |ConsumptionRules(rules)|;
    ConsumptionWeightsValid(bill, rules);
    var base := CommonBase(bill, rules, useNominal);
    var parts := ConsumptionParts(bill, rules, useNominal);
    AllocateIsLargestRemainder(base, ws);
    NonNegativeParts(base, ws);
    if |ws| == n {
      assert parts[..n] == parts;
    } else {
      assert parts[..|parts| - 1] == parts[..n];
    }
  }

  /** What each consumption rule is charged. */
  function ChargedConsumption(bill: Bill, rules: seq<Rule>): seq<int>
    requires SharesByConsumption(bill, rules) && Computable(rules)
  {
    var idx := ConsumptionRules(rules);
    seq(|idx|, k requires 0 <= k < |idx| => ChargedShare(bill, rules, idx[k]))
  }

  /** What the rules charged on the amount paid are charged beyond their share of the common base. */
  function ChargedBeyond(bill: Bill, rules: seq<Rule>): seq<int>
    requires SharesByConsumption(bill, rules)
  {
    var idx := ConsumptionRules(rules);
    seq(|idx|, k requires 0 <= k < |idx| =>
      if ChargesNominal(bill, rules[idx[k]]) then 0
      else ConsumptionShares(bill, rules, false)[k] - ConsumptionShares(bill, rules, true)[k])
  }

  lemma {:induction false} PositionOfEach(s: seq<nat>, k: nat)
    requires k < |s| && forall i, j :: 0 <= i < j < |s| ==> s[i] < s[j]
    ensures PositionIn(s, s[k]) == k
  {
    if k > 0 { PositionOfEach(s[1..], k - 1); }
  }

  lemma ChargedOfEach(bill: Bill, rules: seq<Rule>, k: nat)
    requires SharesByConsumption(bill, rules) && Computable(rules) && k < |ConsumptionRules(rules)|
    ensures ChargedConsumption(bill, rules)[k]
         == ConsumptionShares(bill, rules, true)[k] + ChargedBeyond(bill, rules)[k]
  {
    hide ConsumptionParts, ConsumptionRules;
    PositionOfEach(ConsumptionRules(rules), k);
  }

  /**
    What the units are charged between them is the common base, less the part of no unit, plus what the
    rules charged on the amount paid are charged beyond their share of it. That is at most a cent each,
    and exactly a cent where going from the amount paid to the nominal one takes one away. So the charges
    exceed the common base exactly when the sum of that exceeds the part of no unit; never when all the
    consumption rules charge the nominal amount, or none.
  */
  lemma ChargedConsumptionIsBounded(bill: Bill, rules: seq<Rule>)
    requires bill.amount >= 0 && SharesByConsumption(bill, rules) && Computable(rules)
    ensures Sum(ChargedConsumption(bill, rules))
         == CommonBase(bill, rules, true) - UnsharedPart(bill, rules, true) + Sum(ChargedBeyond(bill, rules))
    ensures forall k :: 0 <= k < |ChargedBeyond(bill, rules)| ==> ChargedBeyond(bill, rules)[k] <= 1
    ensures |ChargedBeyond(bill, rules)| <= |ConsumptionWeights(bill, rules)|
              && ValidWeights(ConsumptionWeights(bill, rules))
    ensures forall k: nat :: k < |ChargedBeyond(bill, rules)| ==>
              (ChargedBeyond(bill, rules)[k] == 1 <==>
                !ChargesNominal(bill, rules[ConsumptionRules(rules)[k]]) && FirstChargesNominal(bill, rules)
                && LosesACent(bill.amount, Nominal(bill), ConsumptionWeights(bill, rules), k))
    ensures (forall i :: 0 <= i < |rules| && rules[i].splitMode == Consumo ==> ChargesNominal(bill, rules[i]))
            || (forall i :: 0 <= i < |rules| && rules[i].splitMode == Consumo ==> !ChargesNominal(bill, rules[i]))
            ==> Sum(ChargedConsumption(bill, rules)) <= CommonBase(bill, rules, true)
  {
    hide Allocate, LosesACent, Sum, ChargedConsumption, ConsumptionRules;
    var ws, beyond := ConsumptionWeights(bill, rules), ChargedBeyond(bill, rules);
    ConsumptionWeightsValid(bill, rules);
    ConsumptionIsConserved(bill, rules, true);
    SameCount(bill, rules);
    forall k: nat | k < |beyond|
      ensures ChargedConsumption(bill, rules)[k] == ConsumptionShares(bill, rules, true)[k] + beyond[k]
    {
      ChargedOfEach(bill, rules, k);
    }
    SumAdd(ConsumptionShares(bill, rules, true), beyond, ChargedConsumption(bill, rules));
    forall k: nat | k < |beyond|
      ensures beyond[k] <= 1
      ensures beyond[k] == 1 <==>
                !ChargesNominal(bill, rules[ConsumptionRules(rules)[k]]) && FirstChargesNominal(bill, rules)
                && LosesACent(bill.amount, Nominal(bill), ws, k)
    {
      LosesACentExactlyWhen(bill.amount, Nominal(bill), ws, k);
      RaisingTotalLosesAtMostACent(bill.amount, Nominal(bill), ws, k);
    }
    if (forall i :: 0 <= i < |rules| && rules[i].splitMode == Consumo ==> ChargesNominal(bill, rules[i]))
       || (forall i :: 0 <= i < |rules| && rules[i].splitMode == Consumo ==> !ChargesNominal(bill, rules[i])) {
      SumZero(beyond);
    }
  }

  lemma SameCount(bill: Bill, rules: seq<Rule>)
    requires SharesByConsumption(bill, rules) && Computable(rules)
    ensures |ChargedConsumption(bill, rules)| == |ConsumptionRules(rules)|
  {
  }

  /**
    Mixed beneficiaries can charge more than the whole nominal bill: with 6, 6 and 2 units consumed, and
    only the first two rules charging the nominal eleven cents, the tenants are charged twelve.
  */
  lemma MixedRulesChargeTooMuch()
    ensures var rules := ThreeUnits(ForTenant);
            && Computable(rules) && SharesByConsumption(ELEVEN, rules)
            && ChargedConsumption(ELEVEN, rules) == [5, 5, 2] && Sum(ChargedConsumption(ELEVEN, rules)) == 12
            && Nominal(ELEVEN) == 11
  {
    hide ConsumptionParts, ConsumptionRules;
    ThreeUnitsShares(ForTenant);
    var rules := ThreeUnits(ForTenant);
    ChargedOfEach(ELEVEN, rules, 0);
    ChargedOfEach(ELEVEN, rules, 1);
    ChargedOfEach(ELEVEN, rules, 2);
    assert ChargedConsumption(ELEVEN, rules) == [5, 5, 2];
    SumOfThree([5, 5, 2]);
  }
}
