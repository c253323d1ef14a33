/**
  What each rule of a bill charges, from the bill and the rule alone: its base, its share, its installments and
  their months, what is somebody else's, what is skipped and what is warned of.
*/
module ChargeSplitAmounts {
  import opened ChargeSplit
  import opened ChargeSplitLaws
  import opened Money
  import opened Rounding
  import opened Sums
  import opened Wrappers

  // ─── Bases ────────────────────────────────────────────

  /** The amount without the annual discount, when it is known and larger than the amount paid. */
  function WithoutDiscount(bill: Bill): int {
    if bill.nominalAmount.Some? && bill.nominalAmount.value > bill.amount then bill.nominalAmount.value else bill.amount
  }

  /** An annual rule whose discount is not the tenant's charges the amount without it, if it is larger. */
  predicate OnNominal(bill: Bill, rule: Rule) {
    rule.annual && (rule.discountBeneficiary == ForLessor || rule.discountBeneficiary == ForAgency)
    && WithoutDiscount(bill) > bill.amount
  }

  function BaseFor(bill: Bill, rule: Rule, nominal: bool): int {
    if nominal && OnNominal(bill, rule) then WithoutDiscount(bill) else bill.amount
  }

  lemma BasesAre(bill: Bill, rule: Rule, nominal: bool)
    ensures ChargesNominal(bill, rule) <==> OnNominal(bill, rule)
    ensures BaseOf(bill, rule, nominal) == BaseFor(bill, rule, nominal)
  {
  }

  // ─── Units ────────────────────────────────────────────

  /** How many of the first n rules are by consumption. */
  function UnitsBefore(rules: seq<Rule>, n: nat): nat
    requires n <= |rules|
  {
    if n == 0 then 0 else UnitsBefore(rules, n - 1) + (if rules[n - 1].splitMode == Consumo then 1 else 0)
  }

  predicate AllDeclared(rules: seq<Rule>) {
    forall i :: 0 <= i < |rules| && rules[i].splitMode == Consumo ==>
      rules[i].consumption.Some? && rules[i].consumption.value >= 0
  }

  /** The declared consumptions of the first n rules, in order. */
  function Declared(rules: seq<Rule>, n: nat): seq<int>
    requires n <= |rules| && AllDeclared(rules)
  {
    if n == 0 then []
    else
      Declared(rules, n - 1) + (if rules[n - 1].splitMode == Consumo then [rules[n - 1].consumption.value] else [])
  }

  /** Consumption that is billed and of no unit. */
  function OfNoUnit(bill: Bill, rules: seq<Rule>): int
    requires AllDeclared(rules)
  {
    var units := Sum(Declared(rules, |rules|));
    if bill.consumption.Some? && bill.consumption.value > units then bill.consumption.value - units else 0
  }

  function UnitWeights(bill: Bill, rules: seq<Rule>): seq<int>
    requires AllDeclared(rules)
  {
    Declared(rules, |rules|) + (if OfNoUnit(bill, rules) > 0 then [OfNoUnit(bill, rules)] else [])
  }

  /** The consumption rules can be shared: all declared and something consumed, or a single one of them. */
  predicate Shareable(bill: Bill, rules: seq<Rule>) {
    if AllDeclared(rules)
    then Sum(Declared(rules, |rules|)) != 0 || (bill.consumption.Some? && bill.consumption.value > 0)
    else UnitsBefore(rules, |rules|) <= 1
  }

  lemma {:induction false} RulesOfUnits(rules: seq<Rule>, n: nat)
    requires n <= |rules|
    ensures |ConsumptionRules(rules[..n])| == UnitsBefore(rules, n)
    ensures forall k :: 0 <= k < |ConsumptionRules(rules[..n])| ==>
              ConsumptionRules(rules[..n])[k] < n && UnitsBefore(rules, ConsumptionRules(rules[..n])[k]) == k
  {
    if n > 0 {
      RulesOfUnits(rules, n - 1);
      assert rules[..n][..n - 1] == rules[..n - 1];
    }
  }

  lemma {:induction false} DeclaredOfUnits(rules: seq<Rule>, n: nat)
    requires n <= |rules| && AllDeclared(rules)
    ensures Declared(rules, n)
         == seq(|ConsumptionRules(rules[..n])|, k requires 0 <= k < |ConsumptionRules(rules[..n])| =>
              rules[ConsumptionRules(rules[..n])[k]].consumption.value)
  {
    if n > 0 {
      DeclaredOfUnits(rules, n - 1);
      assert rules[..n][..n - 1] == rules[..n - 1];
    }
  }

  lemma UnitsAre(bill: Bill, rules: seq<Rule>)
    ensures Known(rules) <==> AllDeclared(rules)
    ensures |ConsumptionRules(rules)| == UnitsBefore(rules, |rules|)
    ensures Known(rules) ==> Consumptions(rules) == Declared(rules, |rules|)
                             && ConsumptionWeights(bill, rules) == UnitWeights(bill, rules)
    ensures CannotShareByConsumption(bill, rules) <==> !Shareable(bill, rules)
  {
    hide ConsumptionRules, Sum;
    assert rules[..|rules|] == rules;
    RulesOfUnits(rules, |rules|);
    if Known(rules) { DeclaredOfUnits(rules, |rules|); }
  }

  lemma PlaceOfUnit(rules: seq<Rule>, i: nat)
    requires i < |rules| && rules[i].splitMode == Consumo
    ensures i in ConsumptionRules(rules) && PositionIn(ConsumptionRules(rules), i) == UnitsBefore(rules, i)
  {
    hide ConsumptionRules;
    assert rules[..|rules|] == rules;
    RulesOfUnits(rules, |rules|);
    var k := PositionIn(ConsumptionRules(rules), i);
  }

  /** The first consumption rule: its base is that of all of them. */
  function FirstUnit(rules: seq<Rule>): (k: nat)
    ensures k <= |rules| && (k < |rules| ==> rules[k].splitMode == Consumo)
    ensures forall j :: 0 <= j < k ==> rules[j].splitMode != Consumo
  {
    if rules == [] || rules[0].splitMode == Consumo then 0 else 1 + FirstUnit(rules[1..])
  }

  // ─── Shares ───────────────────────────────────────────

  /**
    x is the share of a rule, before installments, on the nominal base or on the amount paid: the percentage of
    it; the fixed amount, or all of it when it is less; the unit's part by consumption of the first unit's base;
    or all of it, for a single unit with nothing declared.
  */
  predicate IsShare(bill: Bill, rules: seq<Rule>, i: nat, nominal: bool, x: int)
    requires i < |rules|
  {
    var rule := rules[i];
    var base := BaseFor(bill, rule, nominal);
    match rule.splitMode
    case Porcentaje => IsPercentage(x, base, rule.tenantSharePct)
    case Fijo => rule.fixedAmount.Some? && x == if rule.fixedAmount.value < base then rule.fixedAmount.value else base
    case Consumo =>
      if AllDeclared(rules) then
        var ws, first := UnitWeights(bill, rules), FirstUnit(rules);
        && first < |rules| && ValidWeights(ws) && UnitsBefore(rules, i) < |ws|
        && x == Allocate(BaseFor(bill, rules[first], nominal), ws)[UnitsBefore(rules, i)]
      else x == base
  }

  lemma ShareIs(bill: Bill, rules: seq<Rule>, i: nat, nominal: bool)
    requires i < |rules| && Computable(rules) && bill.amount >= 0
    ensures ShareOf(bill, rules, i, nominal).Some? <==> rules[i].splitMode != Consumo || Shareable(bill, rules)
    ensures ShareOf(bill, rules, i, nominal).Some? ==>
              IsShare(bill, rules, i, nominal, ShareOf(bill, rules, i, nominal).value)
  {
    hide Allocate, RoundDiv, ConsumptionRules, Shareable, CannotShareByConsumption, UnitWeights, ConsumptionWeights,
        Known, AllDeclared, PositionIn;
    var rule := rules[i];
    var base := BaseFor(bill, rule, nominal);
    BasesAre(bill, rule, nominal);
    UnitsAre(bill, rules);
    match rule.splitMode
    case Porcentaje =>
      MulLe(0, base, rule.tenantSharePct);
      RoundDivHalfAway(base * rule.tenantSharePct, FULL_PCT);
    case Fijo =>
    case Consumo =>
      if Known(rules) && Shareable(bill, rules) {
        PlaceOfUnit(rules, i);
        ConsumptionWeightsValid(bill, rules);
        FirstUnitIs(rules);
        BasesAre(bill, rules[FirstUnit(rules)], nominal);
      }
  }

  lemma FirstUnitIs(rules: seq<Rule>)
    requires ConsumptionRules(rules) != []
    ensures FirstUnit(rules) == ConsumptionRules(rules)[0] < |rules|
  {
    hide ConsumptionRules;
    var k := FirstUnit(rules);
    if k < |rules| { assert k in ConsumptionRules(rules); }
  }

  /** There is only one share. */
  lemma OneShare(bill: Bill, rules: seq<Rule>, i: nat, nominal: bool, x: int, y: int)
    requires i < |rules| && Computable(rules) && bill.amount >= 0
    requires IsShare(bill, rules, i, nominal, x) && IsShare(bill, rules, i, nominal, y)
    ensures x == y
  {
    hide Allocate, RoundDiv;
    var rule := rules[i];
    if rule.splitMode == Porcentaje {
      var base := BaseFor(bill, rule, nominal);
      MulLe(0, base, rule.tenantSharePct);
      RoundedIs(base * rule.tenantSharePct, FULL_PCT, x);
      RoundedIs(base * rule.tenantSharePct, FULL_PCT, y);
    }
  }

  /** What a rule charges, and what is paid for it. */
  lemma ChargedAndPaid(bill: Bill, rules: seq<Rule>, i: nat, x: int, y: int)
    requires i < |rules| && Computable(rules) && bill.amount >= 0
    requires rules[i].splitMode == Consumo ==> Shareable(bill, rules)
    requires IsShare(bill, rules, i, OnNominal(bill, rules[i]), x) && IsShare(bill, rules, i, false, y)
    ensures ShareOf(bill, rules, i, false) == Some(y) && ChargedShare(bill, rules, i) == x
  {
    hide ShareOf, IsShare;
    BasesAre(bill, rules[i], true);
    ShareIs(bill, rules, i, false);
    ShareIs(bill, rules, i, true);
    OneShare(bill, rules, i, false, y, ShareOf(bill, rules, i, false).value);
    if OnNominal(bill, rules[i]) {
      OneShare(bill, rules, i, true, x, ShareOf(bill, rules, i, true).value);
    } else {
      OneShare(bill, rules, i, false, x, y);
    }
  }

  // ─── Installments ─────────────────────────────────────

  /** An annual bill recovered month by month has as many installments as agreed; any other has one. */
  function CountOf(rule: Rule): int { if rule.annual && rule.prorated then rule.annualInstallments else 1 }

  /** The k-th installment (from 0) of an amount: whole cents, the first ones with the cents left. */
  function Installment(x: int, n: nat, k: nat): int
    requires n > 0
  {
    x / n + (if k < x % n then 1 else 0)
  }

  /** The month of the k-th installment is one of the contract's. */
  predicate InContract(bill: Bill, rule: Rule, k: nat) {
    rule.lastBillableMonth.None? || bill.period + k <= rule.lastBillableMonth.value
  }

  /** What the k-th installment charges, of those of the contract: the last one, what is left, when it is collected. */
  function ChargedIn(bill: Bill, rule: Rule, x: int, n: nat, k: nat): int
    requires n > 0 && k < n
  {
    if rule.onEnd == CobrarEnLiquidacionFinal && k < n - 1 && !InContract(bill, rule, k + 1)
    then x - FirstInstallments(x, n, k) else Installment(x, n, k)
  }

  function FirstInstallments(x: int, n: nat, k: nat): int
    requires n > 0
  {
    if k == 0 then 0 else FirstInstallments(x, n, k - 1) + Installment(x, n, k - 1)
  }

  lemma {:induction false} InstallmentsPrefix(parts: seq<int>, x: int, n: nat, k: nat)
    requires n > 0 && |parts| == n && k <= n
    requires forall j :: 0 <= j < n ==> parts[j] == Installment(x, n, j)
    ensures Sum(parts[..k]) == FirstInstallments(x, n, k)
  {
    hide Installment;
    if k > 0 {
      InstallmentsPrefix(parts, x, n, k - 1);
      SumPrefix(parts, k - 1);
    }
  }

  lemma InstallmentsAre(x: int, rule: Rule)
    requires ValidInstallments(rule)
    ensures InstallmentCount(rule) == CountOf(rule) > 0 && Sum(Installments(x, rule)) == x
    ensures forall k :: 0 <= k < CountOf(rule) ==> Installments(x, rule)[k] == Installment(x, CountOf(rule), k)
  {
    hide Allocate;
    InstallmentsSum(x, rule);
    var n := InstallmentCount(rule);
    if rule.annual && rule.prorated {
      EqualParts(x, n);
    } else {
      DivUnique(x, 1, x, 0);
    }
  }

  /** The installments that are kept are those of the contract's months. */
  lemma KeptAre(bill: Bill, rule: Rule, k: nat)
    requires ValidInstallments(rule) && k < CountOf(rule)
    ensures k < KeptCount(bill, rule) <==> InContract(bill, rule, k)
  {
  }

  lemma CollectedIs(bill: Bill, rule: Rule, x: int, k: nat)
    requires ValidInstallments(rule) && k < CountOf(rule) && InContract(bill, rule, k)
    ensures Charged(bill, rule, Installments(x, rule))[k] == ChargedIn(bill, rule, x, CountOf(rule), k)
  {
    hide Installments, Sum, Installment, FirstInstallments;
    var n, kept, parts := CountOf(rule), KeptCount(bill, rule), Installments(x, rule);
    InstallmentsAre(x, rule);
    KeptAre(bill, rule, k);
    if k + 1 < n { KeptAre(bill, rule, k + 1); }
    if CollectsLate(bill, rule) && k == kept - 1 {
      assert parts == parts[..k] + parts[k..] && parts[k..] == [parts[k]] + parts[k + 1..];
      SumConcat(parts[..k], parts[k..]);
      SumConcat([parts[k]], parts[k + 1..]);
      SumOfOne(parts[k]);
      InstallmentsPrefix(parts, x, n, k);
    }
  }

  lemma SumOfOne(x: int)
    ensures Sum([x]) == x
  {
    assert [] + [x] == [x];
    SumSnoc([], x);
  }

  /** What is charged of a difference is the difference of what is charged. */
  lemma DifferenceIs(bill: Bill, rule: Rule, x: int, y: int, k: nat)
    requires ValidInstallments(rule) && k < CountOf(rule) && InContract(bill, rule, k)
    ensures |Installments(x, rule)| == |Installments(y, rule)| == CountOf(rule)
    ensures Charged(bill, rule, Differences(Installments(x, rule), Installments(y, rule)))[k]
         == ChargedIn(bill, rule, x, CountOf(rule), k) - ChargedIn(bill, rule, y, CountOf(rule), k)
  {
    hide Installments, Sum, ChargedIn;
    CollectedIs(bill, rule, x, k);
    CollectedIs(bill, rule, y, k);
    var a, b, kept := Installments(x, rule), Installments(y, rule), KeptCount(bill, rule);
    if CollectsLate(bill, rule) {
      assert Differences(a, b)[kept..] == Differences(a[kept..], b[kept..]);
      DifferencesSum(a[kept..], b[kept..]);
    }
  }

  lemma DifferencesSum(a: seq<int>, b: seq<int>)
    requires |a| == |b|
    ensures Sum(Differences(a, b)) == Sum(a) - Sum(b)
  {
    SumAdd(Differences(a, b), b, a);
  }

  // ─── Allocations ──────────────────────────────────────

  /** The k-th installment of a rule that charges x, of which y is paid. */
  function AllocationFor(bill: Bill, rule: Rule, x: int, y: int, k: nat): Allocation
    requires CountOf(rule) > k
  {
    var n := CountOf(rule);
    var amount := ChargedIn(bill, rule, x, n, k);
    Allocation(rule.contractId, rule.payer, amount, bill.period + k, k + 1, n,
               amount - ChargedIn(bill, rule, y, n, k), if x > y then Some(rule.discountBeneficiary) else None)
  }

  /** The allocations are, in order, those of the installments in the contract's months that charge something. */
  ghost predicate AllocatesAt(at: seq<nat>, all: seq<Allocation>, bill: Bill, rule: Rule, x: int, y: int, k: nat)
    requires k <= CountOf(rule)
  {
    && |at| == |all| && (forall i, j :: 0 <= i < j < |at| ==> at[i] < at[j])
    && (forall j :: 0 <= j < |at| ==>
          at[j] < k && InContract(bill, rule, at[j]) && all[j] == AllocationFor(bill, rule, x, y, at[j])
          && all[j].amount != 0)
    && (forall i: nat ::
          i < k && InContract(bill, rule, i) && AllocationFor(bill, rule, x, y, i).amount != 0 ==> i in at)
  }

  /** The first k installments of these amounts and differences are what they should be. */
  ghost predicate Charges(bill: Bill, rule: Rule, x: int, y: int, amounts: seq<int>, surpluses: seq<int>, k: nat) {
    && |amounts| == |surpluses| == CountOf(rule) >= k
    && forall j: nat :: j < k ==>
         && InContract(bill, rule, j) && amounts[j] == ChargedIn(bill, rule, x, CountOf(rule), j)
         && surpluses[j] == amounts[j] - ChargedIn(bill, rule, y, CountOf(rule), j)
  }

  lemma {:induction false} AllocationsAt(bill: Bill, rule: Rule, x: int, y: int, amounts: seq<int>,
      surpluses: seq<int>, k: nat) returns (at: seq<nat>)
    requires |amounts| == |surpluses| == CountOf(rule) >= k && Charges(bill, rule, x, y, amounts, surpluses, k)
    ensures AllocatesAt(at, AllocationsOf(bill, rule, amounts, surpluses,
                                          if x > y then Some(rule.discountBeneficiary) else None, k),
                        bill, rule, x, y, k)
  {
    hide ChargedIn, InContract, CountOf, AllocatesAt, AllocationFor, Charges;
    var beneficiary := if x > y then Some(rule.discountBeneficiary) else None;
    if k == 0 {
      at := NothingAt(bill, rule, x, y, amounts, surpluses, beneficiary);
    } else {
      FewerCharge(bill, rule, x, y, amounts, surpluses, k);
      at := AllocationsAt(bill, rule, x, y, amounts, surpluses, k - 1);
      var front := AllocationsOf(bill, rule, amounts, surpluses, beneficiary, k - 1);
      if amounts[k - 1] == 0 {
        NoneMore(at, front, bill, rule, x, y, k - 1);
        assert front + [] == front;
      } else {
        OneMore(at, front, bill, rule, x, y, k - 1);
        at := at + [k - 1];
      }
    }
  }

  lemma NothingAt(bill: Bill, rule: Rule, x: int, y: int, amounts: seq<int>, surpluses: seq<int>,
      beneficiary: Option<DiscountBeneficiary>) returns (at: seq<nat>)
    requires |amounts| == |surpluses| == CountOf(rule)
    ensures AllocatesAt(at, AllocationsOf(bill, rule, amounts, surpluses, beneficiary, 0), bill, rule, x, y, 0)
  {
    at := [];
  }

  lemma FewerCharge(bill: Bill, rule: Rule, x: int, y: int, amounts: seq<int>, surpluses: seq<int>, k: nat)
    requires k > 0 && Charges(bill, rule, x, y, amounts, surpluses, k)
    ensures Charges(bill, rule, x, y, amounts, surpluses, k - 1) && k <= CountOf(rule) == |amounts| == |surpluses|
    ensures InContract(bill, rule, k - 1)
    ensures AllocationFor(bill, rule, x, y, k - 1)
         == Allocation(rule.contractId, rule.payer, amounts[k - 1], bill.period + k - 1, k, |amounts|,
                       surpluses[k - 1], if x > y then Some(rule.discountBeneficiary) else None)
    ensures AllocationFor(bill, rule, x, y, k - 1).amount == amounts[k - 1]
  {
    hide ChargedIn, InContract, CountOf;
    assert forall j: nat :: j < k ==> InContract(bill, rule, j);
  }

  lemma OneMore(at: seq<nat>, all: seq<Allocation>, bill: Bill, rule: Rule, x: int, y: int, k: nat)
    requires k < CountOf(rule) && AllocatesAt(at, all, bill, rule, x, y, k) && InContract(bill, rule, k)
    requires AllocationFor(bill, rule, x, y, k).amount != 0
    ensures AllocatesAt(at + [k], all + [AllocationFor(bill, rule, x, y, k)], bill, rule, x, y, k + 1)
  {
    hide AllocationFor, InContract;
    assert (at + [k])[|at|] == k;
    forall i: nat | i in at ensures i in at + [k] {}
  }

  lemma NoneMore(at: seq<nat>, all: seq<Allocation>, bill: Bill, rule: Rule, x: int, y: int, k: nat)
    requires k < CountOf(rule) && AllocatesAt(at, all, bill, rule, x, y, k)
    requires AllocationFor(bill, rule, x, y, k).amount == 0
    ensures AllocatesAt(at, all, bill, rule, x, y, k + 1)
  {
    hide AllocationFor, InContract;
  }

  /** Past the contract's last month there is nothing more to allocate. */
  lemma NothingPast(at: seq<nat>, all: seq<Allocation>, bill: Bill, rule: Rule, x: int, y: int, kept: nat)
    requires ValidInstallments(rule) && kept == KeptCount(bill, rule) && kept <= CountOf(rule)
    requires AllocatesAt(at, all, bill, rule, x, y, kept)
    ensures AllocatesAt(at, all, bill, rule, x, y, CountOf(rule))
  {
    hide KeptCount, AllocationFor, InContract;
    forall i: nat | i < CountOf(rule) && InContract(bill, rule, i) ensures i < kept {
      KeptAre(bill, rule, i);
    }
  }

  /**
    What a rule that charges x, of which y is paid, allocates: nothing when the tenant pays directly or x is zero;
    else its installments, each in its month, with its part of the difference and whose it is.
  */
  lemma RuleAllocatesAt(bill: Bill, rules: seq<Rule>, i: nat, x: int, y: int)
    requires i < |rules| && ValidBill(bill, rules)
    requires rules[i].splitMode == Consumo ==> Shareable(bill, rules)
    requires IsShare(bill, rules, i, OnNominal(bill, rules[i]), x) && IsShare(bill, rules, i, false, y)
    ensures rules[i].payer == Inquilino || x == 0 ==> RuleAllocations(bill, rules, i) == []
    ensures CountOf(rules[i]) > 0
    ensures rules[i].payer != Inquilino && x != 0 ==>
              exists at :: AllocatesAt(at, RuleAllocations(bill, rules, i), bill, rules[i], x, y, CountOf(rules[i]))
  {
    hide ShareOf, IsShare, ChargedShare, Installments, Charged, AllocatesAt, AllocationsOf, KeptCount;
    ChargedAndPaid(bill, rules, i, x, y);
    var rule := rules[i];
    InstallmentsAre(x, rule);
    InstallmentsAre(y, rule);
    if rule.payer != Inquilino && x != 0 {
      var n, kept := CountOf(rule), KeptCount(bill, rule);
      var parts, paid := Installments(x, rule), Installments(y, rule);
      var amounts, surpluses := Charged(bill, rule, parts), Charged(bill, rule, Differences(parts, paid));
      forall j: nat | j < kept
        ensures InContract(bill, rule, j) && amounts[j] == ChargedIn(bill, rule, x, n, j)
        ensures surpluses[j] == ChargedIn(bill, rule, x, n, j) - ChargedIn(bill, rule, y, n, j)
      {
        KeptAre(bill, rule, j);
        CollectedIs(bill, rule, x, j);
        DifferenceIs(bill, rule, x, y, j);
      }
      var at := AllocationsAt(bill, rule, x, y, amounts, surpluses, kept);
      NothingPast(at, RuleAllocations(bill, rules, i), bill, rule, x, y, kept);
    }
  }

  /** A consumption rule that cannot be shared allocates nothing. */
  lemma UnshareableAllocatesNothing(bill: Bill, rules: seq<Rule>, i: nat)
    requires i < |rules| && ValidBill(bill, rules) && rules[i].splitMode == Consumo && !Shareable(bill, rules)
    ensures RuleAllocations(bill, rules, i) == []
    ensures RuleWarnings(bill, rules, i) == []
    ensures RuleSkips(bill, rules, i)
         == if rules[i].payer == Inquilino then [Skip(rules[i].contractId, PaidDirectly)] else []
  {
    hide ShareOf;
    ShareIs(bill, rules, i, false);
  }

  /** With nothing dropped, the installments of a rule add up to its share. */
  lemma NothingDroppedAddsUp(bill: Bill, rules: seq<Rule>, i: nat, x: int, y: int)
    requires i < |rules| && ValidBill(bill, rules) && rules[i].payer != Inquilino
    requires rules[i].splitMode == Consumo ==> Shareable(bill, rules)
    requires IsShare(bill, rules, i, OnNominal(bill, rules[i]), x) && IsShare(bill, rules, i, false, y)
    requires CountOf(rules[i]) > 0 && InContract(bill, rules[i], 0)
    requires InContract(bill, rules[i], CountOf(rules[i]) - 1) || rules[i].onEnd == CobrarEnLiquidacionFinal
    ensures Sum(Amounts(RuleAllocations(bill, rules, i))) == x
  {
    hide ShareOf, IsShare, ChargedShare, RuleAllocations, Sum;
    ChargedAndPaid(bill, rules, i, x, y);
    var rule := rules[i];
    InstallmentsAre(x, rule);
    KeptAre(bill, rule, CountOf(rule) - 1);
    KeptAre(bill, rule, 0);
    if x == 0 {
      RuleAllocatesAt(bill, rules, i, x, y);
      assert Amounts([]) == [];
      SumZero([]);
    } else {
      RuleChargesItsShare(bill, rules, i);
    }
  }

  // ─── What is skipped and warned of ────────────────────

  /** A rule the tenant pays directly is skipped, and so is one that charges nothing. */
  lemma RuleSkipsAre(bill: Bill, rules: seq<Rule>, i: nat, x: int, y: int)
    requires i < |rules| && Computable(rules) && bill.amount >= 0
    requires rules[i].splitMode == Consumo ==> Shareable(bill, rules)
    requires IsShare(bill, rules, i, OnNominal(bill, rules[i]), x) && IsShare(bill, rules, i, false, y)
    ensures RuleSkips(bill, rules, i)
         == if rules[i].payer == Inquilino then [Skip(rules[i].contractId, PaidDirectly)]
            else if x == 0 then [Skip(rules[i].contractId, ZeroShare)] else []
  {
    hide ShareOf, IsShare, ChargedShare;
    ChargedAndPaid(bill, rules, i, x, y);
  }

  /** A rule that charges something warns of its installments past the contract: collected in the last, or dropped. */
  lemma RuleWarningsAre(bill: Bill, rules: seq<Rule>, i: nat, x: int, y: int, late: nat)
    requires i < |rules| && ValidBill(bill, rules) && late <= CountOf(rules[i])
    requires rules[i].splitMode == Consumo ==> Shareable(bill, rules)
    requires IsShare(bill, rules, i, OnNominal(bill, rules[i]), x) && IsShare(bill, rules, i, false, y)
    requires forall k :: 0 <= k < CountOf(rules[i]) ==>
               (InContract(bill, rules[i], k) <==> k < CountOf(rules[i]) - late)
    ensures RuleWarnings(bill, rules, i)
         == if rules[i].payer == Inquilino || x == 0 || late == 0 then []
            else if rules[i].onEnd == CobrarEnLiquidacionFinal && late < CountOf(rules[i])
            then [CollectedInFinalLiquidation(rules[i].contractId, late)]
            else [AfterContractEnd(rules[i].contractId, late)]
  {
    hide ShareOf, IsShare, ChargedShare, KeptCount;
    ChargedAndPaid(bill, rules, i, x, y);
    var n, kept := CountOf(rules[i]), KeptCount(bill, rules[i]);
    InstallmentsAre(x, rules[i]);
    if kept < n { KeptAre(bill, rules[i], kept); }
    if kept > 0 { KeptAre(bill, rules[i], kept - 1); }
  }

  // ─── The whole bill ───────────────────────────────────

  /** What the first n rules allocate, one rule after another. */
  function AllocatedBy(bill: Bill, rules: seq<Rule>, n: nat): seq<Allocation>
    requires n <= |rules| && ValidBill(bill, rules)
  {
    if n == 0 then [] else AllocatedBy(bill, rules, n - 1) + RuleAllocations(bill, rules, n - 1)
  }

  function SkippedBy(bill: Bill, rules: seq<Rule>, n: nat): seq<Skip>
    requires n <= |rules| && Computable(rules)
  {
    if n == 0 then [] else SkippedBy(bill, rules, n - 1) + RuleSkips(bill, rules, n - 1)
  }

  function WarnedBy(bill: Bill, rules: seq<Rule>, n: nat): seq<Warning>
    requires n <= |rules| && ValidBill(bill, rules)
  {
    if n == 0 then [] else WarnedBy(bill, rules, n - 1) + RuleWarnings(bill, rules, n - 1)
  }

  /** The consumption rules that are not the tenant's to pay, when they cannot be shared. */
  function Unshared(bill: Bill, rules: seq<Rule>, n: nat): seq<Skip>
    requires n <= |rules|
  {
    if n == 0 || Shareable(bill, rules) then []
    else
      Unshared(bill, rules, n - 1)
        + (if rules[n - 1].splitMode == Consumo && rules[n - 1].payer != Inquilino
           then [Skip(rules[n - 1].contractId, MissingConsumption)] else [])
  }

  lemma {:induction false} MissingAreTheUnshared(bill: Bill, rules: seq<Rule>, n: nat)
    requires n <= |rules|
    ensures MissingConsumptionSkips(bill, rules, n) == Unshared(bill, rules, n)
  {
    hide CannotShareByConsumption, Shareable, ConsumptionRules;
    UnitsAre(bill, rules);
    if n > 0 {
      MissingAreTheUnshared(bill, rules, n - 1);
      if ConsumptionRules(rules) == [] { NoUnits(rules, n - 1); }
    }
  }

  lemma NoUnits(rules: seq<Rule>, i: nat)
    requires i < |rules| && ConsumptionRules(rules) == []
    ensures rules[i].splitMode != Consumo
    ensures forall b: Bill, n :: 0 <= n <= |rules| ==> Unshared(b, rules, n) == []
  {
    hide ConsumptionRules;
    forall b: Bill, n: nat | n <= |rules| ensures Unshared(b, rules, n) == [] { NoUnitsUnshared(b, rules, n); }
  }

  lemma {:induction false} NoUnitsUnshared(bill: Bill, rules: seq<Rule>, n: nat)
    requires n <= |rules| && ConsumptionRules(rules) == []
    ensures Unshared(bill, rules, n) == []
  {
    hide ConsumptionRules, Shareable;
    if n > 0 {
      NoUnitsUnshared(bill, rules, n - 1);
      assert rules[n - 1].splitMode != Consumo;
    }
  }

  lemma {:induction false} UpToRuleIs(bill: Bill, rules: seq<Rule>, n: nat)
    requires n <= |rules| && ValidBill(bill, rules)
    ensures var r := UpToRule(bill, rules, n);
            && r.allocations == AllocatedBy(bill, rules, n) && r.warnings == WarnedBy(bill, rules, n)
            && r.skipped == Unshared(bill, rules, |rules|) + SkippedBy(bill, rules, n)
  {
    hide RuleAllocations, RuleSkips, RuleWarnings, MissingConsumptionSkips, Unshared;
    MissingAreTheUnshared(bill, rules, |rules|);
    if n > 0 {
      UpToRuleIs(bill, rules, n - 1);
    } else {
      assert Unshared(bill, rules, |rules|) + [] == Unshared(bill, rules, |rules|);
    }
  }

  /** A percentage outside 0 to 100, or a fixed rule without an amount. */
  predicate BadRule(rule: Rule) {
    || (rule.splitMode == Porcentaje && !(0 <= rule.tenantSharePct <= FULL_PCT))
    || (rule.splitMode == Fijo && !(rule.fixedAmount.Some? && rule.fixedAmount.value >= 0))
  }

  lemma {:induction false} FirstErrorIs(rules: seq<Rule>, k: nat)
    requires k < |rules| && BadRule(rules[k]) && forall j :: 0 <= j < k ==> !BadRule(rules[j])
    ensures FirstError(rules) == Some(if rules[k].splitMode == Porcentaje then InvalidSharePct else FixedAmountRequired)
  {
    var n := |rules| - 1;
    if k < n {
      FirstErrorIs(rules[..n], k);
    } else {
      NoErrorIsComputable(rules[..n]);
    }
  }

  /** The bill is split rule by rule, the consumption rules that cannot be shared skipped first. */
  lemma SplitIsRuleByRule(bill: Bill, rules: seq<Rule>)
    requires SplitOf(bill, rules).Ok?
    ensures ValidBill(bill, rules)
    ensures var r, n := SplitOf(bill, rules).value, |rules|;
            && r.allocations == AllocatedBy(bill, rules, n) && r.warnings == WarnedBy(bill, rules, n)
            && r.skipped == Unshared(bill, rules, n) + SkippedBy(bill, rules, n)
  {
    hide RuleAllocations, RuleSkips, RuleWarnings, UpToRule, AllocatedBy, SkippedBy, WarnedBy, Unshared, FirstError,
        ValidInstallments;
    NoErrorIsComputable(rules);
    UpToRuleIs(bill, rules, |rules|);
  }

  predicate ValidCounts(rules: seq<Rule>) { forall i :: 0 <= i < |rules| ==> 1 <= rules[i].annualInstallments <= 12 }

  /** Or it is refused, for its amount, for the installments of a rule, or for a rule that cannot be computed. */
  lemma SplitRefusedExactlyWhen(bill: Bill, rules: seq<Rule>)
    ensures SplitOf(bill, rules) == Err(InvalidBillAmount) <==> bill.amount < 0
    ensures SplitOf(bill, rules) == Err(InvalidInstallments) <==> bill.amount >= 0 && !ValidCounts(rules)
    ensures SplitOf(bill, rules).Ok? <==>
              bill.amount >= 0 && ValidCounts(rules) && forall i :: 0 <= i < |rules| ==> !BadRule(rules[i])
  {
    hide UpToRule, FirstError;
    NoErrorIsComputable(rules);
    ErrorIsOfARule(rules);
  }

  lemma {:induction false} ErrorIsOfARule(rules: seq<Rule>)
    ensures FirstError(rules).Some? ==>
              FirstError(rules).value == InvalidSharePct || FirstError(rules).value == FixedAmountRequired
    ensures Computable(rules) <==> forall i :: 0 <= i < |rules| ==> !BadRule(rules[i])
  {
    if rules != [] { ErrorIsOfARule(rules[..|rules| - 1]); }
    assert forall i :: 0 <= i < |rules| - 1 ==> rules[..|rules| - 1][i] == rules[i];
  }

  /** Of the rules that cannot be computed, the first one gives the error. */
  lemma FirstBadRuleIsTheError(bill: Bill, rules: seq<Rule>, k: nat)
    requires bill.amount >= 0 && ValidCounts(rules)
    requires k < |rules| && BadRule(rules[k]) && forall j :: 0 <= j < k ==> !BadRule(rules[j])
    ensures SplitOf(bill, rules)
         == Err(if rules[k].splitMode == Porcentaje then InvalidSharePct else FixedAmountRequired)
  {
    hide UpToRule, FirstError;
    NoErrorIsComputable(rules);
    FirstErrorIs(rules, k);
  }

  /** Whose the lines of an installment are: the service's, the lessor's or the public body's by who pays the bill. */
  lemma LinesGoTo(a: Allocation)
    ensures var lines := ChargeAllocationLines(a);
            var service := if a.payer == Propietario then ToLessor else ToEnte;
            if a.surplus > 0 && a.surplusBeneficiary.Some?
            then && lines[|lines| - 1]
                    == ChargeLine(a.surplus, if a.surplusBeneficiary.value == ForLessor then ToLessor else ToAgency)
                 && (|lines| == 2 <==> a.amount > a.surplus)
                 && (|lines| == 2 ==> lines[0] == ChargeLine(a.amount - a.surplus, service))
            else lines == [ChargeLine(a.amount, service)]
  {
  }
}
