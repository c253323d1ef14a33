/**
  Which cycles go through: what each contract, compensation, bill and charge must have for its stage not to stop.
*/
module CyclePasses {
  import opened Cycle
  import opened CycleAccounts
  import opened CycleLaws
  import opened OwnerLedger
  import opened Wrappers
  import C = ChargeSplit
  import S = Settlement

  /** Last month's liquidation and every payment settle, the bills are split, and the lines have buckets. */
  predicate ContractPasses(input: CycleInput, c: Contract) {
    && (c.previous.Some? ==> S.Settle(PreviousInput(c)).Ok?)
    && (forall j :: 0 <= j < |input.bills| ==> C.SplitOf(input.bills[j].bill, input.bills[j].rules).Ok?)
    && (var ps := PaymentsOf(input.payments, c.key);
        forall k :: 0 <= k < |ps| ==> S.Settle(PaymentInput(c, ps, k)).Ok?)
    && S.SettlementBuckets(c.built.lines, Some(c.commission), c.currency).Ok?
  }

  lemma {:induction false} PaymentsPass(c: Contract, ps: seq<Payment>, n: nat, st: State)
    requires n <= |ps|
    ensures AfterPayments(c, ps, n, st).Ok? <==> forall k :: 0 <= k < n ==> S.Settle(PaymentInput(c, ps, k)).Ok?
  {
    hide S.Settle, PostingsOf, PaymentInput;
    if n > 0 { PaymentsPass(c, ps, n - 1, st); }
  }

  lemma {:induction false} BillsSplit(bills: seq<AgencyBill>)
    ensures FirstBillError(bills).None? <==>
              forall j :: 0 <= j < |bills| ==> C.SplitOf(bills[j].bill, bills[j].rules).Ok?
  {
    hide C.SplitOf;
    if bills != [] {
      BillsSplit(bills[..|bills| - 1]);
      assert forall j :: 0 <= j < |bills| - 1 ==> bills[..|bills| - 1][j] == bills[j];
    }
  }

  lemma {:induction false} ContractsPass(input: CycleInput, n: nat)
    requires n <= |input.contracts|
    ensures AfterContracts(input, n).Ok? <==> forall i :: 0 <= i < n ==> ContractPasses(input, input.contracts[i])
  {
    hide AfterPayments, S.Settle, S.SettlementBuckets, FirstBillError, PaymentsOf, PaymentInput, PostingsOf, C.SplitOf;
    if n > 0 {
      ContractsPass(input, n - 1);
      var before, c := AfterContracts(input, n - 1), input.contracts[n - 1];
      if before.Ok? {
        BillsSplit(input.bills);
        var ps := PaymentsOf(input.payments, c.key);
        if AfterPrevious(c, before.value).Ok? { PaymentsPass(c, ps, |ps|, AfterPrevious(c, before.value).value); }
      }
    }
  }

  /** A rule passed on to the owner needs its contract, and the bill split. */
  predicate RulePasses(input: CycleInput, b: AgencyBill, i: nat)
    requires i < |b.rules|
  {
    b.rules[i].payer == C.Propietario ==>
      LastContract(input.contracts, b.rules[i].contractId) < |input.contracts| && C.SplitOf(b.bill, b.rules).Ok?
  }

  lemma {:induction false} RulesPass(input: CycleInput, b: AgencyBill, ledger: seq<Entry>, n: nat)
    requires n <= |b.rules| && b.paidByAgency.Some?
    ensures AfterRules(input, b, ledger, n).Ok? <==> forall i :: 0 <= i < n ==> RulePasses(input, b, i)
  {
    hide AfterRules, RulePasses;
    if n == 0 {
      assert AfterRules(input, b, ledger, 0).Ok? by { NoRulesPass(input, b, ledger); }
    } else {
      RulesPass(input, b, ledger, n - 1);
      OneMoreRulePasses(input, b, ledger, n - 1);
    }
  }

  lemma NoRulesPass(input: CycleInput, b: AgencyBill, ledger: seq<Entry>)
    requires b.paidByAgency.Some?
    ensures AfterRules(input, b, ledger, 0).Ok?
  {
  }

  lemma OneMoreRulePasses(input: CycleInput, b: AgencyBill, ledger: seq<Entry>, n: nat)
    requires n < |b.rules| && b.paidByAgency.Some?
    ensures AfterRules(input, b, ledger, n + 1).Ok? <==>
              AfterRules(input, b, ledger, n).Ok? && RulePasses(input, b, n)
  {
    hide C.SplitOf, ContractOf, LastContract, Shared, OwedByLessors;
    ContractOfIsTheLast(input.contracts, b.rules[n].contractId);
  }

  predicate BillPasses(input: CycleInput, b: AgencyBill) {
    b.paidByAgency.Some? ==> forall i :: 0 <= i < |b.rules| ==> RulePasses(input, b, i)
  }

  lemma {:induction false} BillsPass(input: CycleInput, ledger: seq<Entry>, n: nat)
    requires n <= |input.bills|
    ensures AfterBills(input, ledger, n).Ok? <==> forall j :: 0 <= j < n ==> BillPasses(input, input.bills[j])
  {
    hide AfterRules, RulePasses;
    if n > 0 {
      BillsPass(input, ledger, n - 1);
      var b, before := input.bills[n - 1], AfterBills(input, ledger, n - 1);
      if before.Ok? && b.paidByAgency.Some? { RulesPass(input, b, before.value, |b.rules|); }
    }
  }

  lemma {:induction false} ChargesPass(input: CycleInput, ledger: seq<Entry>, n: nat)
    requires n <= |input.charges|
    ensures AfterCharges(input, ledger, n).Ok? <==>
              forall j :: 0 <= j < n && input.charges[j].toLessor ==>
                LastContract(input.contracts, input.charges[j].contract) < |input.contracts|
  {
    hide ChargeEntries, ContractOf, LastContract;
    if n > 0 {
      ChargesPass(input, ledger, n - 1);
      ContractOfIsTheLast(input.contracts, input.charges[n - 1].contract);
    }
  }

  /** A cycle goes through if and only if every contract, compensation, bill and charge of it does. */
  lemma RunsExactlyWhen(input: CycleInput)
    ensures RunOf(input).Ok? <==>
              && (forall i :: 0 <= i < |input.contracts| ==> ContractPasses(input, input.contracts[i]))
              && (forall j :: 0 <= j < |input.compensations| ==>
                    CompensationError(input, SettlementsOf(input), input.compensations[j]).None?)
              && (forall j :: 0 <= j < |input.bills| ==> BillPasses(input, input.bills[j]))
              && (forall j :: 0 <= j < |input.charges| && input.charges[j].toLessor ==>
                    LastContract(input.contracts, input.charges[j].contract) < |input.contracts|)
  {
    hide AfterContracts, AfterCompensations, AfterBills, AfterCharges, StatementsFor, Keys, ContractPasses,
        BillPasses, CompensationError, LastContract;
    var n := |input.contracts|;
    ContractsPass(input, n);
    if AfterContracts(input, n).Ok? {
      var st := AfterContracts(input, n).value;
      CompensationsInAccount(input, st, |input.compensations|, Account("", "", Everything, 0));
      var l1 := AfterCompensations(input, st, |input.compensations|);
      if l1.Ok? {
        BillsPass(input, l1.value, |input.bills|);
        var l2 := AfterBills(input, l1.value, |input.bills|);
        if l2.Ok? { ChargesPass(input, l2.value, |input.charges|); }
      }
    }
  }
}
