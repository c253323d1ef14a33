/**
  Global conservation: in every cycle and currency, the closing balances of the lessors add up to
  what was opened, settled, charged and paid out, and to nothing else.
*/
module CycleLaws {
  import opened Cycle
  import opened CycleBills
  import opened OwnerLedger
  import opened OwnerLedgerLaws
  import opened Sorting
  import opened Sums
  import opened Wrappers
  import C = ChargeSplit
  import S = Settlement
  import SL = SettlementLaws
  import T = Statement
  import TL = StatementLaws

  /** Everything in a ledger of a currency dated before `until`. */
  function LedgerSum(ledger: seq<Entry>, currency: string, until: nat): int {
    if ledger == [] then 0
    else LedgerSum(ledger[..|ledger| - 1], currency, until) + Counted(ledger[|ledger| - 1], currency, until)
  }

  function Counted(e: Entry, currency: string, until: nat): int {
    if e.currency == currency && e.date < until then e.amount else 0
  }

  lemma {:induction false} LedgerSumConcat(a: seq<Entry>, b: seq<Entry>, currency: string, until: nat)
    ensures LedgerSum(a + b, currency, until) == LedgerSum(a, currency, until) + LedgerSum(b, currency, until)
  {
    if b == [] {
      assert a + b == a;
    } else {
      LedgerSumConcat(a, b[..|b| - 1], currency, until);
      assert (a + b)[..|a + b| - 1] == a + b[..|b| - 1];
    }
  }

  function EntryAmounts(es: seq<Entry>): seq<int> { seq(|es|, i requires 0 <= i < |es| => es[i].amount) }

  /** Entries of one currency and date count all together or not at all. */
  lemma {:induction false} UniformSum(es: seq<Entry>, c: string, date: nat, currency: string, until: nat)
    requires forall i :: 0 <= i < |es| ==> es[i].currency == c && es[i].date == date
    ensures LedgerSum(es, currency, until) == if c == currency && date < until then Sum(EntryAmounts(es)) else 0
  {
    if es != [] {
      var n := |es| - 1;
      UniformSum(es[..n], c, date, currency, until);
      assert EntryAmounts(es)[..n] == EntryAmounts(es[..n]);
    }
  }

  // ─── Settled payments ─────────────────────────────────

  lemma AgencyFlowBalances(input: S.Input)
    requires S.Settle(input).Ok? && S.Settle(input).value.flow != S.FlowLocador
    ensures forall i :: 0 <= i < |S.Settle(input).value.positions| ==>
              S.Settle(input).value.positions[i].balance == S.Settle(input).value.positions[i].share
  {
    hide S.PartsOf, S.Proportional;
  }

  /** What a settled payment leaves in the ledger: the balances of its positions. */
  lemma PostingsSum(c: Contract, input: S.Input, date: nat, currency: string, until: nat)
    requires S.Settle(input).Ok?
    ensures LedgerSum(PostingsOf(c, input.lines, S.Settle(input).value, date), currency, until)
         == if c.currency == currency && date < until then Sum(S.Balances(S.Settle(input).value.positions)) else 0
  {
    hide S.Settle, PaymentPostings, LedgerSum;
    var s := S.Settle(input).value;
    var p := InputOfSettled(input.lines, s);
    if s.flow != S.FlowLocador {
      AgencyFlowBalances(input);
    }
    PaymentPostingsSum(p, s.positions);
    var es := PostingsOf(c, input.lines, s, date);
    UniformSum(es, c.currency, date, currency, until);
    assert EntryAmounts(es) == PostingAmounts(PaymentPostings(p, s.positions));
  }

  function BalanceIf(counts: bool, input: S.Input): int {
    if counts && S.Settle(input).Ok? then Sum(S.Balances(S.Settle(input).value.positions)) else 0
  }

  /** The balances of the payments of a contract, of those that count. */
  function PaymentBalances(c: Contract, ps: seq<Payment>, n: nat, currency: string, until: nat): int
    requires n <= |ps|
  {
    if n == 0 then 0
    else PaymentBalances(c, ps, n - 1, currency, until)
           + BalanceIf(c.currency == currency && ps[n - 1].date < until, PaymentInput(c, ps, n - 1))
  }

  function PreviousInput(c: Contract): S.Input
    requires c.previous.Some?
  {
    SettleInput(c, c.previous.value.built.lines, c.previous.value.built.total, None, false, 0)
  }

  function PreviousBalances(c: Contract, currency: string, until: nat): int {
    if c.previous.None? then 0
    else BalanceIf(c.currency == currency && c.previous.value.paidAt < until, PreviousInput(c))
  }

  /** The balances of every settled position of the cycle. */
  function SettledBalances(input: CycleInput, n: nat, currency: string, until: nat): int
    requires n <= |input.contracts|
  {
    if n == 0 then 0
    else
      var c := input.contracts[n - 1];
      var ps := PaymentsOf(input.payments, c.key);
      SettledBalances(input, n - 1, currency, until) + PreviousBalances(c, currency, until)
        + PaymentBalances(c, ps, |ps|, currency, until)
  }

  /** The payments settled for a contract are its payments, each as often as it is listed, in order. */
  lemma PaymentsAreItsOwnInOrder(payments: seq<Payment>, key: string, p: Payment)
    ensures Sorted(PaymentsOf(payments, key), InOrder)
    ensures multiset(PaymentsOf(payments, key))[p] == if p.contract == key then multiset(payments)[p] else 0
  {
    SortIsSorted(OfContract(payments, key), InOrder);
    OwnPayments(payments, key, p);
  }

  lemma {:induction false} OwnPayments(payments: seq<Payment>, key: string, p: Payment)
    ensures multiset(OfContract(payments, key))[p] == if p.contract == key then multiset(payments)[p] else 0
  {
    if payments != [] {
      var n := |payments| - 1;
      assert payments == payments[..n] + [payments[n]];
      OwnPayments(payments[..n], key, p);
    }
  }

  lemma {:induction false} PaymentsLedger(c: Contract, ps: seq<Payment>, n: nat, st: State, currency: string,
      until: nat)
    requires n <= |ps| && AfterPayments(c, ps, n, st).Ok?
    ensures LedgerSum(AfterPayments(c, ps, n, st).value.ledger, currency, until)
         == LedgerSum(st.ledger, currency, until) + PaymentBalances(c, ps, n, currency, until)
  {
    hide S.Settle, PostingsOf, LedgerSum, BalanceIf, PaymentInput;
    if n > 0 {
      PaymentsLedger(c, ps, n - 1, st, currency, until);
      PaymentLines(c, ps, n - 1);
      PostedOntoLedger(c, AfterPayments(c, ps, n - 1, st).value.ledger, PaymentInput(c, ps, n - 1), ps[n - 1].date,
          currency, until);
    }
  }

  lemma PaymentLines(c: Contract, ps: seq<Payment>, n: nat)
    requires n < |ps|
    ensures PaymentInput(c, ps, n).lines == c.built.lines
  {
  }

  lemma PostedOntoLedger(c: Contract, ledger: seq<Entry>, input: S.Input, date: nat, currency: string, until: nat)
    requires S.Settle(input).Ok?
    ensures LedgerSum(ledger + PostingsOf(c, input.lines, S.Settle(input).value, date), currency, until)
         == LedgerSum(ledger, currency, until) + BalanceIf(c.currency == currency && date < until, input)
  {
    hide S.Settle, PostingsOf, LedgerSum;
    PostingsSum(c, input, date, currency, until);
    LedgerSumConcat(ledger, PostingsOf(c, input.lines, S.Settle(input).value, date), currency, until);
  }

  lemma PreviousLedger(c: Contract, st: State, currency: string, until: nat)
    requires AfterPrevious(c, st).Ok?
    ensures LedgerSum(AfterPrevious(c, st).value.ledger, currency, until)
         == LedgerSum(st.ledger, currency, until) + PreviousBalances(c, currency, until)
  {
    if c.previous.Some? {
      hide S.Settle, PostingsOf, LedgerSum;
      var p, input := c.previous.value, PreviousInput(c);
      PostingsSum(c, input, p.paidAt, currency, until);
      LedgerSumConcat(st.ledger, PostingsOf(c, p.built.lines, S.Settle(input).value, p.paidAt), currency, until);
    }
  }

  lemma {:induction false} ContractsLedger(input: CycleInput, n: nat, currency: string, until: nat)
    requires n <= |input.contracts| && AfterContracts(input, n).Ok?
    ensures LedgerSum(AfterContracts(input, n).value.ledger, currency, until)
         == SettledBalances(input, n, currency, until)
  {
    hide AfterPayments, AfterPrevious, PaymentBalances, PreviousBalances, S.SettlementBuckets;
    if n > 0 {
      ContractsLedger(input, n - 1, currency, until);
      var c, st := input.contracts[n - 1], AfterContracts(input, n - 1).value;
      PreviousLedger(c, st, currency, until);
      var ps := PaymentsOf(input.payments, c.key);
      PaymentsLedger(c, ps, |ps|, AfterPrevious(c, st).value, currency, until);
    }
  }

  // ─── Compensations ────────────────────────────────────

  /** The two entries of a compensation cancel in every currency and at every date. */
  lemma CompensationCancels(input: CycleInput, settlements: map<string, S.Settled>, c: Compensation, currency: string,
      until: nat)
    requires CompensationEntries(input, settlements, c).Ok?
    ensures LedgerSum(CompensationEntries(input, settlements, c).value, currency, until) == 0
  {
    var es := CompensationEntries(input, settlements, c).value;
    UniformSum(es, es[0].currency, es[0].date, currency, until);
    SumOfTwo(EntryAmounts(es));
  }

  lemma {:induction false} CompensationsLedger(input: CycleInput, st: State, n: nat, currency: string, until: nat)
    requires n <= |input.compensations| && AfterCompensations(input, st, n).Ok?
    ensures LedgerSum(AfterCompensations(input, st, n).value, currency, until) == LedgerSum(st.ledger, currency, until)
  {
    if n > 0 {
      hide CompensationEntries, LedgerSum;
      CompensationsLedger(input, st, n - 1, currency, until);
      var c := input.compensations[n - 1];
      CompensationCancels(input, st.settlements, c, currency, until);
      LedgerSumConcat(AfterCompensations(input, st, n - 1).value, CompensationEntries(input, st.settlements, c).value,
          currency, until);
    }
  }

  // ─── Charges to the lessors ───────────────────────────

  /** A shared amount reaches the ledger whole, as long as the contract has lessors to bear it. */
  lemma SharedSum(c: Contract, kind: EntryType, amount: int, date: nat, currency: string, until: nat)
    ensures LedgerSum(Shared(c, kind, amount, date), currency, until)
         == if c.currency == currency && date < until && c.lessors != [] then amount else 0
  {
    hide SplitByShare, LedgerSum;
    var es, ws := Shared(c, kind, amount, date), S.Weights(c.lessors);
    UniformSum(es, c.currency, date, currency, until);
    SplitByShareSum(amount, ws);
    assert EntryAmounts(es) == SplitByShare(amount, ws);
  }

  /**
    The parts of the first n bills that the agency paid and passed on to the owners: every allocation once
    for each rule passing the bill on to the owner of its contract.
  */
  function BillsCharged(input: CycleInput, n: nat, currency: string, until: nat): int
    requires n <= |input.bills|
  {
    if n == 0 then 0
    else
      var b := input.bills[n - 1];
      var split := C.SplitOf(b.bill, b.rules);
      BillsCharged(input, n - 1, currency, until)
        + (if b.paidByAgency.Some? && split.Ok?
           then PassedOnByRules(input, b.rules, |b.rules|, split.value.allocations, b.paidByAgency.value, currency,
               until)
           else 0)
  }

  /** Those parts, each once. */
  function BillsPassedOn(input: CycleInput, n: nat, currency: string, until: nat): int
    requires n <= |input.bills|
  {
    if n == 0 then 0
    else
      var b := input.bills[n - 1];
      var split := C.SplitOf(b.bill, b.rules);
      BillsPassedOn(input, n - 1, currency, until)
        + (if b.paidByAgency.Some? && split.Ok?
           then PassedOn(input, split.value.allocations, b.paidByAgency.value, currency, until)
           else 0)
  }

  /** A bill the agency paid has a part that several rules pass on to the owner of one contract. */
  predicate ChargesTwice(input: CycleInput, b: AgencyBill, currency: string, until: nat) {
    var split := C.SplitOf(b.bill, b.rules);
    b.paidByAgency.Some? && split.Ok?
    && exists i :: 0 <= i < |split.value.allocations|
                   && Repeated(input, b.rules, split.value.allocations[i], b.paidByAgency.value, currency, until)
  }

  /** The bills take their parts from the lessors once if and only if none of them charges a part twice. */
  lemma {:induction false} BillsAreChargedOnceExactlyWhen(input: CycleInput, n: nat, currency: string, until: nat)
    requires n <= |input.bills|
    ensures BillsCharged(input, n, currency, until) >= BillsPassedOn(input, n, currency, until)
    ensures BillsCharged(input, n, currency, until) == BillsPassedOn(input, n, currency, until)
            <==> forall i :: 0 <= i < n ==> !ChargesTwice(input, input.bills[i], currency, until)
  {
    hide C.SplitOf, PassedOnByRules, PassedOn, Repeated, RulesCharged;
    if n > 0 {
      BillsAreChargedOnceExactlyWhen(input, n - 1, currency, until);
      var b := input.bills[n - 1];
      if b.paidByAgency.Some? && C.SplitOf(b.bill, b.rules).Ok? {
        OwnersPayOnceExactlyWhen(input, b, currency, until);
        RulesChargeTheAllocations(input, b, |b.rules|, currency, until);
      }
    }
  }

  lemma {:induction false} UnsplitChargesNothing(input: CycleInput, b: AgencyBill, n: nat, currency: string, until: nat)
    requires n <= |b.rules| && b.paidByAgency.Some? && C.SplitOf(b.bill, b.rules).Err?
    ensures RulesCharged(input, b, n, currency, until) == 0
  {
    hide C.SplitOf, Borne;
    if n > 0 { UnsplitChargesNothing(input, b, n - 1, currency, until); }
  }

  lemma {:induction false} ContractOfKey(contracts: seq<Contract>, key: string)
    requires ContractOf(contracts, key).Some?
    ensures ContractOf(contracts, key).value.key == key
  {
    if contracts[|contracts| - 1].key != key { ContractOfKey(contracts[..|contracts| - 1], key); }
  }

  lemma {:induction false} RulesLedger(input: CycleInput, b: AgencyBill, ledger: seq<Entry>, n: nat, currency: string,
      until: nat)
    requires n <= |b.rules| && b.paidByAgency.Some? && AfterRules(input, b, ledger, n).Ok?
    ensures LedgerSum(AfterRules(input, b, ledger, n).value, currency, until)
         == LedgerSum(ledger, currency, until) - RulesCharged(input, b, n, currency, until)
  {
    hide Shared, LedgerSum, C.SplitOf, OwedByLessors, ContractOf, Borne;
    if n > 0 {
      RulesLedger(input, b, ledger, n - 1, currency, until);
      var rule := b.rules[n - 1];
      if rule.payer == C.Propietario {
        ContractOfKey(input.contracts, rule.contractId);
        SharedOntoLedger(input, rule.contractId, AfterRules(input, b, ledger, n - 1).value, PagoEnte,
                         OwedByLessors(C.SplitOf(b.bill, b.rules).value.allocations, rule.contractId),
                         b.paidByAgency.value, currency, until);
      }
    }
  }

  lemma SharedOntoLedger(input: CycleInput, key: string, ledger: seq<Entry>, kind: EntryType, amount: int, date: nat,
                         currency: string, until: nat)
    requires ContractOf(input.contracts, key).Some?
    ensures LedgerSum(ledger + Shared(ContractOf(input.contracts, key).value, kind, -amount, date), currency, until)
         == LedgerSum(ledger, currency, until) - Borne(input, key, amount, date, currency, until)
  {
    hide Shared, LedgerSum, ContractOf;
    var c := ContractOf(input.contracts, key).value;
    SharedSum(c, kind, -amount, date, currency, until);
    LedgerSumConcat(ledger, Shared(c, kind, -amount, date), currency, until);
  }

  lemma {:induction false} BillsLedger(input: CycleInput, ledger: seq<Entry>, n: nat, currency: string, until: nat)
    requires n <= |input.bills| && AfterBills(input, ledger, n).Ok?
    ensures LedgerSum(AfterBills(input, ledger, n).value, currency, until)
         == LedgerSum(ledger, currency, until) - BillsCharged(input, n, currency, until)
  {
    if n > 0 {
      hide AfterRules, RulesCharged, PassedOnByRules, C.SplitOf;
      BillsLedger(input, ledger, n - 1, currency, until);
      var b, before := input.bills[n - 1], AfterBills(input, ledger, n - 1).value;
      if b.paidByAgency.Some? {
        RulesLedger(input, b, before, |b.rules|, currency, until);
        if C.SplitOf(b.bill, b.rules).Ok? {
          RulesChargeTheAllocations(input, b, |b.rules|, currency, until);
        } else {
          UnsplitChargesNothing(input, b, |b.rules|, currency, until);
        }
      }
    }
  }

  /** Lessor charges, and the management fees of the repairs among them. */
  function ChargesBorne(input: CycleInput, n: nat, currency: string, until: nat): int
    requires n <= |input.charges|
  {
    if n == 0 then 0
    else
      var c := input.charges[n - 1];
      ChargesBorne(input, n - 1, currency, until)
        + (if c.toLessor then Borne(input, c.contract, SignedCharge(c), c.incurredAt, currency, until) else 0)
  }

  function FeesBorne(input: CycleInput, n: nat, currency: string, until: nat): int
    requires n <= |input.charges|
  {
    if n == 0 then 0
    else
      var c := input.charges[n - 1];
      var contract := ContractOf(input.contracts, c.contract);
      FeesBorne(input, n - 1, currency, until)
        + (if c.toLessor && contract.Some?
           then Borne(input, c.contract, ManagementFee(c, contract.value), c.incurredAt, currency, until) else 0)
  }

  lemma ChargeSum(c: Charge, contract: Contract, currency: string, until: nat)
    ensures LedgerSum(ChargeEntries(c, contract), currency, until)
         == if contract.currency == currency && c.incurredAt < until && contract.lessors != []
            then -SignedCharge(c) - ManagementFee(c, contract) else 0
  {
    hide Shared, LedgerSum;
    var fee := ManagementFee(c, contract);
    SharedSum(contract, Cargo, -SignedCharge(c), c.incurredAt, currency, until);
    SharedSum(contract, Honorario, -fee, c.incurredAt, currency, until);
    LedgerSumConcat(Shared(contract, Cargo, -SignedCharge(c), c.incurredAt),
                    Shared(contract, Honorario, -fee, c.incurredAt), currency, until);
    assert Shared(contract, Cargo, -SignedCharge(c), c.incurredAt) + []
        == Shared(contract, Cargo, -SignedCharge(c), c.incurredAt);
  }

  lemma {:induction false} ChargesLedger(input: CycleInput, ledger: seq<Entry>, n: nat, currency: string, until: nat)
    requires n <= |input.charges| && AfterCharges(input, ledger, n).Ok?
    ensures LedgerSum(AfterCharges(input, ledger, n).value, currency, until)
         == LedgerSum(ledger, currency, until) - ChargesBorne(input, n, currency, until)
             - FeesBorne(input, n, currency, until)
  {
    hide ChargeEntries, LedgerSum, SignedCharge, ManagementFee, ContractOf;
    if n > 0 {
      ChargesLedger(input, ledger, n - 1, currency, until);
      var c, before := input.charges[n - 1], AfterCharges(input, ledger, n - 1).value;
      if c.toLessor {
        var contract := ContractOf(input.contracts, c.contract).value;
        ChargeSum(c, contract, currency, until);
        LedgerSumConcat(before, ChargeEntries(c, contract), currency, until);
      }
    }
  }

  // ─── Payouts and opening balances ─────────────────────

  function PaidOut(ps: seq<Payout>, currency: string, until: nat): int {
    if ps == [] then 0
    else
      var p := ps[|ps| - 1];
      PaidOut(ps[..|ps| - 1], currency, until) + (if p.currency == currency && p.date < until then p.amount else 0)
  }

  function Opened(os: seq<OpeningBalance>, currency: string, until: nat): int {
    if os == [] then 0
    else
      var o := os[|os| - 1];
      Opened(os[..|os| - 1], currency, until) + (if o.currency == currency && o.date < until then o.amount else 0)
  }

  lemma {:induction false} PayoutsLedger(ps: seq<Payout>, currency: string, until: nat)
    ensures LedgerSum(PayoutEntries(ps), currency, until) == -PaidOut(ps, currency, until)
  {
    if ps != [] {
      PayoutsLedger(ps[..|ps| - 1], currency, until);
      assert PayoutEntries(ps)[..|ps| - 1] == PayoutEntries(ps[..|ps| - 1]);
    }
  }

  lemma {:induction false} OpeningsLedger(os: seq<OpeningBalance>, currency: string, until: nat)
    ensures LedgerSum(OpeningEntries(os), currency, until) == Opened(os, currency, until)
  {
    if os != [] {
      OpeningsLedger(os[..|os| - 1], currency, until);
      assert OpeningEntries(os)[..|os| - 1] == OpeningEntries(os[..|os| - 1]);
    }
  }

  // ─── The ledger and its statements ────────────────────

  /** Where every cent of a cycle's ledger comes from. */
  lemma LedgerIsAccountedFor(input: CycleInput, currency: string, until: nat)
    requires LedgerOf(input).Ok?
    ensures LedgerSum(LedgerOf(input).value, currency, until)
         == Opened(input.openingBalances, currency, until)
            + SettledBalances(input, |input.contracts|, currency, until)
            - BillsCharged(input, |input.bills|, currency, until)
            - ChargesBorne(input, |input.charges|, currency, until)
            - FeesBorne(input, |input.charges|, currency, until)
            - PaidOut(input.payouts, currency, until)
  {
    hide AfterContracts, AfterCompensations, AfterBills, AfterCharges, LedgerSum;
    var st := AfterContracts(input, |input.contracts|).value;
    var l1 := AfterCompensations(input, st, |input.compensations|).value;
    var l2 := AfterBills(input, l1, |input.bills|).value;
    var l3 := AfterCharges(input, l2, |input.charges|).value;
    ContractsLedger(input, |input.contracts|, currency, until);
    CompensationsLedger(input, st, |input.compensations|, currency, until);
    BillsLedger(input, l1, |input.bills|, currency, until);
    ChargesLedger(input, l2, |input.charges|, currency, until);
    LedgerSumConcat(l3 + PayoutEntries(input.payouts), OpeningEntries(input.openingBalances), currency, until);
    LedgerSumConcat(l3, PayoutEntries(input.payouts), currency, until);
    PayoutsLedger(input.payouts, currency, until);
    OpeningsLedger(input.openingBalances, currency, until);
  }

  function KeySum(ledger: seq<Entry>, key: Key, until: nat): int {
    if ledger == [] then 0
    else
      var e := ledger[|ledger| - 1];
      KeySum(ledger[..|ledger| - 1], key, until) + (if KeyOf(e) == key && e.date < until then e.amount else 0)
  }

  lemma {:induction false} MineSums(ledger: seq<Entry>, key: Key, period: nat, next: nat)
    requires period <= next
    ensures TL.SumOver(TL.Amount, Mine(ledger, key, 0, period)) + TL.SumOver(TL.Amount, Mine(ledger, key, period, next))
         == KeySum(ledger, key, next)
  {
    if ledger != [] {
      var front, e := ledger[..|ledger| - 1], ledger[|ledger| - 1];
      MineSums(front, key, period, next);
      var te := T.Entry(e.kind, e.amount, e.date, e.property);
      TL.SumOverOne(TL.Amount, Mine(front, key, 0, period), te);
      TL.SumOverOne(TL.Amount, Mine(front, key, period, next), te);
      assert Mine(front, key, 0, period) + [] == Mine(front, key, 0, period);
      assert Mine(front, key, period, next) + [] == Mine(front, key, period, next);
    }
  }

  /** Closing last month first and opening the cycle with it gives the balance of the whole account. */
  lemma ClosingIsTheAccount(input: CycleInput, ledger: seq<Entry>, key: Key)
    requires input.period <= input.next
    ensures StatementFor(input, ledger, key).closing == KeySum(ledger, key, input.next)
  {
    hide T.StatementOf, Mine, KeySum;
    var before := Mine(ledger, key, 0, input.period);
    MineSums(ledger, key, input.period, input.next);
    TL.ClosingIsTheSum(0, before);
    var previousClosing := if before == [] then 0 else T.StatementOf(0, before).closing;
    TL.ClosingIsTheSum(previousClosing, Mine(ledger, key, input.period, input.next));
  }

  function KeySums(ledger: seq<Entry>, keys: seq<Key>, currency: string, until: nat): seq<int> {
    seq(|keys|, i requires 0 <= i < |keys| =>
      if keys[i].currency == currency then KeySum(ledger, keys[i], until) else 0)
  }

  /** An entry adds to the sum of its own account only. */
  lemma OneMoreEntry(ledger: seq<Entry>, keys: seq<Key>, k: nat, currency: string, until: nat)
    requires forall i, j :: 0 <= i < j < |keys| ==> keys[i] != keys[j]
    requires ledger != [] && k < |keys| && keys[k] == KeyOf(ledger[|ledger| - 1])
    ensures var before := KeySums(ledger[..|ledger| - 1], keys, currency, until);
            KeySums(ledger, keys, currency, until)
            == before[k := before[k] + Counted(ledger[|ledger| - 1], currency, until)]
  {
  }

  /** Every entry belongs to exactly one account. */
  lemma {:induction false} AccountsPartition(ledger: seq<Entry>, keys: seq<Key>, currency: string, until: nat)
    requires forall i, j :: 0 <= i < j < |keys| ==> keys[i] != keys[j]
    requires forall i :: 0 <= i < |ledger| ==> KeyOf(ledger[i]) in keys
    ensures Sum(KeySums(ledger, keys, currency, until)) == LedgerSum(ledger, currency, until)
  {
    hide Counted, Sum;
    if ledger == [] {
      SumZero(KeySums(ledger, keys, currency, until));
    } else {
      var n := |ledger| - 1;
      var front, e := ledger[..n], ledger[n];
      AccountsPartition(front, keys, currency, until);
      var k :| 0 <= k < |keys| && keys[k] == KeyOf(e);
      var before := KeySums(front, keys, currency, until);
      OneMoreEntry(ledger, keys, k, currency, until);
      SumUpdate(before, k, before[k] + Counted(e, currency, until));
    }
  }

  /** The closing balances of a currency, account by account. */
  function Closings(input: CycleInput, ledger: seq<Entry>, keys: seq<Key>, currency: string): seq<int> {
    seq(|keys|, i requires 0 <= i < |keys| =>
      if keys[i].currency == currency then StatementFor(input, ledger, keys[i]).closing else 0)
  }

  /**
    For every cycle and currency: the lessors' closing balances add up to the opening balances plus
    the balances of every settled position, minus the bills paid for the lessors, their charges, the
    management fees and the payouts, all of them dated before the next month. The bills count once exactly
    when none of them charges a part twice.
  */
  lemma CycleConserves(input: CycleInput, currency: string)
    requires input.period <= input.next && LedgerOf(input).Ok?
    ensures RunOf(input) == Ok(StatementsFor(input, LedgerOf(input).value, Keys(LedgerOf(input).value)))
    ensures Sum(Closings(input, LedgerOf(input).value, Keys(LedgerOf(input).value), currency))
         == Opened(input.openingBalances, currency, input.next)
            + SettledBalances(input, |input.contracts|, currency, input.next)
            - BillsCharged(input, |input.bills|, currency, input.next)
            - ChargesBorne(input, |input.charges|, currency, input.next)
            - FeesBorne(input, |input.charges|, currency, input.next)
            - PaidOut(input.payouts, currency, input.next)
    ensures (BillsCharged(input, |input.bills|, currency, input.next)
             == BillsPassedOn(input, |input.bills|, currency, input.next))
       <==> forall i :: 0 <= i < |input.bills| ==> !ChargesTwice(input, input.bills[i], currency, input.next)
  {
    hide LedgerOf, StatementFor, KeySum, LedgerSum, BillsCharged, BillsPassedOn, ChargesTwice;
    var ledger := LedgerOf(input).value;
    var keys := Keys(ledger);
    BillsAreChargedOnceExactlyWhen(input, |input.bills|, currency, input.next);
    AccountsPartition(ledger, keys, currency, input.next);
    LedgerIsAccountedFor(input, currency, input.next);
    forall i | 0 <= i < |keys|
      ensures Closings(input, ledger, keys, currency)[i] == KeySums(ledger, keys, currency, input.next)[i]
    {
      ClosingIsTheAccount(input, ledger, keys[i]);
    }
    assert Closings(input, ledger, keys, currency) == KeySums(ledger, keys, currency, input.next);
  }
}
