/**
  What the bills the agency paid take from the lessors: the allocations passed on to the owner, as
  often as the cycle charges them.
*/
module CycleBills {
  import opened Cycle
  import opened Rounding
  import opened Sums
  import opened Wrappers
  import C = ChargeSplit
  import CL = ChargeSplitLaws
  import S = Settlement

  /** An amount borne by the lessors of the contract with a key, when it counts. */
  function Borne(input: CycleInput, key: string, amount: int, date: nat, currency: string, until: nat): int {
    var c := ContractOf(input.contracts, key);
    if c.Some? && c.value.currency == currency && date < until && c.value.lessors != [] then amount else 0
  }

  /** What the loop over the rules of a bill takes: for each rule passed on to the owner, the parts of its contract. */
  function RulesCharged(input: CycleInput, b: AgencyBill, n: nat, currency: string, until: nat): int
    requires n <= |b.rules| && b.paidByAgency.Some?
  {
    if n == 0 then 0
    else
      var rule := b.rules[n - 1];
      var split := C.SplitOf(b.bill, b.rules);
      RulesCharged(input, b, n - 1, currency, until)
        + (if rule.payer == C.Propietario && split.Ok?
           then Borne(input, rule.contractId, OwedByLessors(split.value.allocations, rule.contractId),
                      b.paidByAgency.value, currency, until)
           else 0)
  }

  // ─── The allocations of a bill ────────────────────────

  /** What one allocation takes from the lessors of its contract, when it is passed on to the owner. */
  function TakenBy(input: CycleInput, a: C.Allocation, date: nat, currency: string, until: nat): int {
    if a.payer == C.Propietario then Borne(input, a.contractId, a.amount, date, currency, until) else 0
  }

  /** The allocations passed on to the owner, each once. */
  function PassedOn(input: CycleInput, all: seq<C.Allocation>, date: nat, currency: string, until: nat): int {
    if all == [] then 0
    else
      PassedOn(input, all[..|all| - 1], date, currency, until)
        + TakenBy(input, all[|all| - 1], date, currency, until)
  }

  /** How many of the first n rules pass a part of the bill on to the owner of a contract. */
  function OwnerRules(rules: seq<C.Rule>, key: string, n: nat): nat
    requires n <= |rules|
  {
    if n == 0 then 0
    else OwnerRules(rules, key, n - 1)
           + (if rules[n - 1].payer == C.Propietario && rules[n - 1].contractId == key then 1 else 0)
  }

  /** The same allocations, each once for every rule that passes a part on to the owner of its contract. */
  function PassedOnByRules(
    input: CycleInput, rules: seq<C.Rule>, n: nat, all: seq<C.Allocation>, date: nat, currency: string, until: nat): int
    requires n <= |rules|
  {
    if all == [] then 0
    else
      var a := all[|all| - 1];
      PassedOnByRules(input, rules, n, all[..|all| - 1], date, currency, until)
        + OwnerRules(rules, a.contractId, n) * TakenBy(input, a, date, currency, until)
  }

  lemma {:induction false} OneMoreRule(
    input: CycleInput, rules: seq<C.Rule>, n: nat, all: seq<C.Allocation>, date: nat, currency: string, until: nat)
    requires n < |rules|
    ensures PassedOnByRules(input, rules, n + 1, all, date, currency, until)
         == PassedOnByRules(input, rules, n, all, date, currency, until)
            + (if rules[n].payer == C.Propietario
               then Borne(input, rules[n].contractId, OwedByLessors(all, rules[n].contractId), date, currency, until)
               else 0)
  {
    hide Borne, OwedByLessors, OwnerRules, TakenBy;
    var rule := rules[n];
    if all == [] {
      NothingBorne(input, rule.contractId, date, currency, until);
    } else {
      var front, a := all[..|all| - 1], all[|all| - 1];
      OneMoreRule(input, rules, n, front, date, currency, until);
      TakenOnceMore(input, rules, n, a, date, currency, until);
      OneMoreOwed(input, all, rule.contractId, date, currency, until);
    }
  }

  lemma NothingBorne(input: CycleInput, key: string, date: nat, currency: string, until: nat)
    ensures Borne(input, key, OwedByLessors([], key), date, currency, until) == 0
  {
  }

  /** One more rule takes an allocation once more when it is one of the owner of its contract. */
  lemma TakenOnceMore(
    input: CycleInput, rules: seq<C.Rule>, n: nat, a: C.Allocation, date: nat, currency: string, until: nat)
    requires n < |rules|
    ensures var taken := TakenBy(input, a, date, currency, until);
            OwnerRules(rules, a.contractId, n + 1) * taken
            == OwnerRules(rules, a.contractId, n) * taken
               + (if rules[n].payer == C.Propietario && rules[n].contractId == a.contractId then taken else 0)
  {
    hide TakenBy;
  }

  lemma OneMoreOwed(
    input: CycleInput, all: seq<C.Allocation>, key: string, date: nat, currency: string, until: nat)
    requires all != []
    ensures var front, a := all[..|all| - 1], all[|all| - 1];
            Borne(input, key, OwedByLessors(all, key), date, currency, until)
            == Borne(input, key, OwedByLessors(front, key), date, currency, until)
               + (if a.contractId == key then TakenBy(input, a, date, currency, until) else 0)
  {
    hide ContractOf;
  }

  lemma {:induction false} NoRules(
    input: CycleInput, rules: seq<C.Rule>, all: seq<C.Allocation>, date: nat, currency: string, until: nat)
    ensures PassedOnByRules(input, rules, 0, all, date, currency, until) == 0
  {
    if all != [] { NoRules(input, rules, all[..|all| - 1], date, currency, until); }
  }

  /** The loop charges each allocation once for every rule that passes a part on to the owner of its contract. */
  lemma {:induction false} RulesChargeTheAllocations(input: CycleInput, b: AgencyBill, n: nat, currency: string,
      until: nat)
    requires n <= |b.rules| && b.paidByAgency.Some? && C.SplitOf(b.bill, b.rules).Ok?
    ensures RulesCharged(input, b, n, currency, until)
         == PassedOnByRules(input, b.rules, n, C.SplitOf(b.bill, b.rules).value.allocations, b.paidByAgency.value,
             currency, until)
  {
    hide C.SplitOf, Borne, OwedByLessors, PassedOnByRules;
    var all, date := C.SplitOf(b.bill, b.rules).value.allocations, b.paidByAgency.value;
    if n == 0 {
      NoRules(input, b.rules, all, date, currency, until);
    } else {
      RulesChargeTheAllocations(input, b, n - 1, currency, until);
      OneMoreRule(input, b.rules, n - 1, all, date, currency, until);
    }
  }

  // ─── Once, or more than once ──────────────────────────

  lemma {:induction false} CountsTheRule(rules: seq<C.Rule>, key: string, n: nat, i: nat)
    requires i < n <= |rules| && rules[i].payer == C.Propietario && rules[i].contractId == key
    ensures OwnerRules(rules, key, n) >= 1
  {
    if i < n - 1 { CountsTheRule(rules, key, n - 1, i); }
  }

  /** An allocation that takes something from lessors whose contract has several rules passing on the bill. */
  predicate Repeated(input: CycleInput, rules: seq<C.Rule>, a: C.Allocation, date: nat, currency: string, until: nat) {
    TakenBy(input, a, date, currency, until) != 0 && OwnerRules(rules, a.contractId, |rules|) > 1
  }

  lemma {:induction false} TimesAreAtLeastOnce(
    input: CycleInput, rules: seq<C.Rule>, all: seq<C.Allocation>, date: nat, currency: string, until: nat)
    requires forall a :: a in all ==> CL.OfSomeRule(a, rules, |rules|)
    ensures PassedOnByRules(input, rules, |rules|, all, date, currency, until)
         >= PassedOn(input, all, date, currency, until)
    ensures (PassedOnByRules(input, rules, |rules|, all, date, currency, until)
             == PassedOn(input, all, date, currency, until))
       <==> forall i :: 0 <= i < |all| ==> !Repeated(input, rules, all[i], date, currency, until)
  {
    if all != [] {
      var n := |all| - 1;
      var a, front := all[n], all[..n];
      TimesAreAtLeastOnce(input, rules, front, date, currency, until);
      assert forall i :: 0 <= i < n ==> front[i] == all[i];
      assert CL.OfSomeRule(a, rules, |rules|);
      var k, taken := OwnerRules(rules, a.contractId, |rules|), TakenBy(input, a, date, currency, until);
      if a.payer == C.Propietario {
        var i :| 0 <= i < |rules| && a.contractId == rules[i].contractId && a.payer == rules[i].payer;
        CountsTheRule(rules, a.contractId, |rules|, i);
      }
      if taken != 0 {
        MulLe(1, k, taken);
        if k > 1 { MulLe(2, k, taken); }
      }
    }
  }

  /**
    The lessors are charged at least the parts of the bill passed on to them, and exactly those, each once,
    if and only if no such part is of a contract with several rules passing the bill on.
  */
  lemma OwnersPayOnceExactlyWhen(input: CycleInput, b: AgencyBill, currency: string, until: nat)
    requires b.paidByAgency.Some? && C.SplitOf(b.bill, b.rules).Ok?
    ensures var all, date := C.SplitOf(b.bill, b.rules).value.allocations, b.paidByAgency.value;
            && RulesCharged(input, b, |b.rules|, currency, until) >= PassedOn(input, all, date, currency, until)
            && (RulesCharged(input, b, |b.rules|, currency, until) == PassedOn(input, all, date, currency, until)
                <==> forall i :: 0 <= i < |all| ==> !Repeated(input, b.rules, all[i], date, currency, until))
  {
    hide C.SplitOf, CL.OfSomeRule, RulesCharged;
    CL.SplitIsOfTheRules(b.bill, b.rules);
    RulesChargeTheAllocations(input, b, |b.rules|, currency, until);
    TimesAreAtLeastOnce(input, b.rules, C.SplitOf(b.bill, b.rules).value.allocations, b.paidByAgency.value, currency,
        until);
  }

  // ─── A bill charged twice ─────────────────────────────

  function HalfRule(): C.Rule {
    C.Rule("c", C.Propietario, C.Porcentaje, 500_000, None, false, false, 1, C.ForTenant, C.Descartar, None, None)
  }

  /** A hundred cents of one contract, half by each of two rules. */
  function TwoHalves(): AgencyBill { AgencyBill(C.Bill(100, None, 0, None), [HalfRule(), HalfRule()], Some(0)) }

  lemma HalfIsFifty()
    ensures RoundDiv(100 * 500_000, FULL_PCT) == 50
  {
  }

  lemma AllocationOfHalf(i: nat)
    requires i < 2
    ensures var b := TwoHalves();
            && C.ValidBill(b.bill, b.rules)
            && C.RuleAllocations(b.bill, b.rules, i) == [C.Allocation("c", C.Propietario, 50, 0, 1, 1, 0, None)]
  {
    HalfIsFifty();
    hide RoundDiv;
    var b := TwoHalves();
    assert C.Installments(50, HalfRule()) == [50];
    assert Differences([50], [50]) == [0];
    assert C.AllocationsOf(b.bill, HalfRule(), [50], [0], None, 0) == [];
  }

  lemma AllocationsOfHalves()
    ensures var b := TwoHalves();
            var half := C.Allocation("c", C.Propietario, 50, 0, 1, 1, 0, None);
            C.SplitOf(b.bill, b.rules).Ok? && C.SplitOf(b.bill, b.rules).value.allocations == [half, half]
  {
    hide C.RuleAllocations, C.RuleSkips, C.RuleWarnings, C.MissingConsumptionSkips;
    var b := TwoHalves();
    AllocationOfHalf(0);
    AllocationOfHalf(1);
    C.NoErrorIsComputable(b.rules);
    assert C.UpToRule(b.bill, b.rules, 1).allocations == C.RuleAllocations(b.bill, b.rules, 0);
    assert C.UpToRule(b.bill, b.rules, 2).allocations
        == C.RuleAllocations(b.bill, b.rules, 0) + C.RuleAllocations(b.bill, b.rules, 1);
  }

  /** Two rules of one bill for one contract: its lessors are charged twice the bill. */
  lemma OwnersCanPayTwice(input: CycleInput, currency: string, until: nat)
    requires ContractOf(input.contracts, "c").Some? && ContractOf(input.contracts, "c").value.lessors != []
    requires ContractOf(input.contracts, "c").value.currency == currency && until > 0
    ensures var b := TwoHalves();
            && C.SplitOf(b.bill, b.rules).Ok?
            && PassedOn(input, C.SplitOf(b.bill, b.rules).value.allocations, 0, currency, until) == 100
            && RulesCharged(input, b, |b.rules|, currency, until) == 200
  {
    hide C.SplitOf, ContractOf;
    var b := TwoHalves();
    AllocationsOfHalves();
    var all := C.SplitOf(b.bill, b.rules).value.allocations;
    assert all[..1] == [all[0]] && all[..1][..0] == [] && all[..2] == all;
    assert OwedByLessors([], "c") == 0 && OwedByLessors(all[..1], "c") == 50 && OwedByLessors(all, "c") == 100;
    assert PassedOn(input, all[..1], 0, currency, until) == 50;
    assert RulesCharged(input, b, 1, currency, until) == 100;
  }
}
