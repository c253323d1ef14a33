/**
  The monthly cycle of a portfolio from end to end: every payment settled and posted, compensations,
  bills the agency paid for lessors, lessor charges and their fees, payouts and opening balances, and
  the statement of each lessor and currency. The liquidation lines of each contract are given.
*/
module Cycle {
  import opened Rounding
  import opened Sorting
  import opened Sums
  import opened Wrappers
  import C = ChargeSplit
  import O = OwnerLedger
  import S = Settlement
  import T = Statement

  datatype Built = Built(lines: seq<S.Line>, total: int)

  datatype Previous = Previous(built: Built, paidAt: nat)

  datatype Contract = Contract(
    key: string, property: string, currency: string, lessors: seq<S.Lessor>, commission: S.Commission,
    lessorCollects: bool, repairMgmtFeePct: Option<int>, built: Built, previous: Option<Previous>)

  /** keyRank is the place of the key in the text order of the keys. */
  datatype Payment = Payment(
    key: string, keyRank: int, contract: string, date: nat, amount: int, receivedBy: Option<S.Receiver>,
    inCustody: bool)

  datatype Compensation = Compensation(payment: string, from: string, to: string, amount: Option<int>)

  datatype AgencyBill = AgencyBill(bill: C.Bill, rules: seq<C.Rule>, paidByAgency: Option<nat>)

  datatype ChargeKind = Reparacion | Devolucion | OtherCharge

  datatype Charge = Charge(contract: string, toLessor: bool, kind: ChargeKind, amount: int, incurredAt: nat)

  datatype Payout = Payout(lessor: string, currency: string, amount: int, date: nat, cash: bool)

  datatype OpeningBalance = OpeningBalance(lessor: string, currency: string, amount: int, date: nat)

  /** period and next are the first days of the month of the cycle and of the month after it. */
  datatype CycleInput = CycleInput(
    period: nat, next: nat, contracts: seq<Contract>, bills: seq<AgencyBill>, charges: seq<Charge>,
    payments: seq<Payment>, compensations: seq<Compensation>, payouts: seq<Payout>,
    openingBalances: seq<OpeningBalance>)

  datatype CycleError =
    | Settlement(cause: S.SettlementError) | BillRule(rule: C.RuleError) | UnknownContract | UnknownPayment | NoPosition

  datatype Entry = Entry(lessor: string, currency: string, kind: O.EntryType, amount: int, date: nat, property: string)

  datatype State = State(ledger: seq<Entry>, settlements: map<string, S.Settled>)

  // ─── Contracts and their payments ─────────────────────

  /** The contract with that key (the last one, if a key is repeated). */
  function ContractOf(contracts: seq<Contract>, key: string): Option<Contract> {
    if contracts == [] then None
    else if contracts[|contracts| - 1].key == key then Some(contracts[|contracts| - 1])
    else ContractOf(contracts[..|contracts| - 1], key)
  }

  /** p may stay before q: by date, and by key on the same date. */
  predicate InOrder(p: Payment, q: Payment) { p.date < q.date || (p.date == q.date && p.keyRank <= q.keyRank) }

  function OfContract(payments: seq<Payment>, key: string): seq<Payment> {
    if payments == [] then []
    else
      var p := payments[|payments| - 1];
      OfContract(payments[..|payments| - 1], key) + (if p.contract == key then [p] else [])
  }

  /** The payments of a contract by date, those of one date by key. */
  function PaymentsOf(payments: seq<Payment>, key: string): seq<Payment> {
    Sort(OfContract(payments, key), InOrder)
  }

  function SettleInput(c: Contract, lines: seq<S.Line>, amount: int, receivedBy: Option<S.Receiver>, inCustody: bool,
                       paidBefore: int): S.Input
  {
    var receiver := if receivedBy.Some? then receivedBy.value
                    else if c.lessorCollects && !inCustody then S.ReceivedByLessor else S.ReceivedByAgency;
    S.Input(c.currency, lines, Some(c.commission), c.lessors, paidBefore, amount, receiver, inCustody, None,
            S.Options(S.TodoLoAjeno, S.Proporcional))
  }

  function Tagged(ps: seq<O.Posting>, c: Contract, date: nat): seq<Entry> {
    seq(|ps|, i requires 0 <= i < |ps| => Entry(ps[i].personId, c.currency, ps[i].kind, ps[i].amount, date, c.property))
  }

  function PostingsOf(c: Contract, lines: seq<S.Line>, s: S.Settled, date: nat): seq<Entry> {
    Tagged(O.PaymentPostings(O.InputOfSettled(lines, s), s.positions), c, date)
  }

  /** What has been paid of the contract's liquidation before its n-th payment. */
  function PaidBefore(ps: seq<Payment>, n: nat): int
    requires n <= |ps|
  {
    if n == 0 then 0 else PaidBefore(ps, n - 1) + ps[n - 1].amount
  }

  function PaymentInput(c: Contract, ps: seq<Payment>, n: nat): S.Input
    requires n < |ps|
  {
    SettleInput(c, c.built.lines, ps[n].amount, ps[n].receivedBy, ps[n].inCustody, PaidBefore(ps, n))
  }

  function AfterPayments(c: Contract, ps: seq<Payment>, n: nat, st: State): Result<State, CycleError>
    requires n <= |ps|
  {
    if n == 0 then Ok(st)
    else
      match AfterPayments(c, ps, n - 1, st)
      case Err(e) => Err(e)
      case Ok(before) =>
        match S.Settle(PaymentInput(c, ps, n - 1))
        case Err(e) => Err(Settlement(e))
        case Ok(s) =>
          Ok(State(before.ledger + PostingsOf(c, c.built.lines, s, ps[n - 1].date),
                   before.settlements[ps[n - 1].key := s]))
  }

  /** Last month's liquidation, when it was paid late and whole. */
  function AfterPrevious(c: Contract, st: State): Result<State, CycleError> {
    if c.previous.None? then Ok(st)
    else
      var p := c.previous.value;
      match S.Settle(SettleInput(c, p.built.lines, p.built.total, None, false, 0))
      case Err(e) => Err(Settlement(e))
      case Ok(s) => Ok(st.(ledger := st.ledger + PostingsOf(c, p.built.lines, s, p.paidAt)))
  }

  function FirstBillError(bills: seq<AgencyBill>): Option<C.RuleError> {
    if bills == [] then None
    else
      var earlier := FirstBillError(bills[..|bills| - 1]);
      if earlier.Some? then earlier
      else
        var r := C.SplitOf(bills[|bills| - 1].bill, bills[|bills| - 1].rules);
        if r.Err? then Some(r.error) else None
  }

  function AfterContract(input: CycleInput, c: Contract, st: State): Result<State, CycleError> {
    var previous := AfterPrevious(c, st);
    if previous.Err? then previous
    else
      var bill := FirstBillError(input.bills);
      if bill.Some? then Err(BillRule(bill.value))
      else
        var ps := PaymentsOf(input.payments, c.key);
        var paid := AfterPayments(c, ps, |ps|, previous.value);
        var buckets := S.SettlementBuckets(c.built.lines, Some(c.commission), c.currency);
        if paid.Ok? && buckets.Err? then Err(Settlement(buckets.error)) else paid
  }

  function AfterContracts(input: CycleInput, n: nat): Result<State, CycleError>
    requires n <= |input.contracts|
  {
    if n == 0 then Ok(State([], map[]))
    else
      match AfterContracts(input, n - 1)
      case Err(e) => Err(e)
      case Ok(st) => AfterContract(input, input.contracts[n - 1], st)
  }

  // ─── Compensations ────────────────────────────────────

  function PaymentOf(payments: seq<Payment>, key: string): Option<Payment> {
    if payments == [] then None
    else if payments[0].key == key then Some(payments[0]) else PaymentOf(payments[1..], key)
  }

  /** By default the compensated lessor's share and what it owed for the payment. */
  function CompensationDefault(p: S.Position): int { p.share - p.balance }

  function CompensationEntries(input: CycleInput, settlements: map<string, S.Settled>, c: Compensation)
    : Result<seq<Entry>, CycleError>
  {
    var payment := PaymentOf(input.payments, c.payment);
    if payment.None? || c.payment !in settlements then Err(UnknownPayment)
    else
      var positions := settlements[c.payment].positions;
      var k := S.HolderIndex(positions, c.to);
      if k == |positions| then Err(NoPosition)
      else
        var amount := if c.amount.Some? then c.amount.value else CompensationDefault(positions[k]);
        match ContractOf(input.contracts, payment.value.contract)
        case None => Err(UnknownContract)
        case Some(contract) =>
          Ok([Entry(c.from, contract.currency, O.Compensacion, -amount, payment.value.date, contract.property),
              Entry(c.to, contract.currency, O.Compensacion, amount, payment.value.date, contract.property)])
  }

  function AfterCompensations(input: CycleInput, st: State, n: nat): Result<seq<Entry>, CycleError>
    requires n <= |input.compensations|
  {
    if n == 0 then Ok(st.ledger)
    else
      match AfterCompensations(input, st, n - 1)
      case Err(e) => Err(e)
      case Ok(ledger) =>
        match CompensationEntries(input, st.settlements, input.compensations[n - 1])
        case Err(e) => Err(e)
        case Ok(es) => Ok(ledger + es)
  }

  // ─── What the lessors are charged ─────────────────────

  /** A signed amount among the lessors of a contract, one entry each. */
  function Shared(c: Contract, kind: O.EntryType, amount: int, date: nat): seq<Entry> {
    var parts := O.SplitByShare(amount, S.Weights(c.lessors));
    seq(|c.lessors|, i requires 0 <= i < |c.lessors| =>
      Entry(c.lessors[i].personId, c.currency, kind, parts[i], date, c.property))
  }

  /** The parts of a bill that a contract's lessors owe the agency. */
  function OwedByLessors(allocations: seq<C.Allocation>, key: string): int {
    if allocations == [] then 0
    else
      var a := allocations[|allocations| - 1];
      OwedByLessors(allocations[..|allocations| - 1], key)
        + (if a.contractId == key && a.payer == C.Propietario then a.amount else 0)
  }

  function AfterRules(input: CycleInput, b: AgencyBill, ledger: seq<Entry>, n: nat): Result<seq<Entry>, CycleError>
    requires n <= |b.rules| && b.paidByAgency.Some?
  {
    if n == 0 then Ok(ledger)
    else
      match AfterRules(input, b, ledger, n - 1)
      case Err(e) => Err(e)
      case Ok(before) =>
        var rule := b.rules[n - 1];
        if rule.payer != C.Propietario then Ok(before)
        else
          match ContractOf(input.contracts, rule.contractId)
          case None => Err(UnknownContract)
          case Some(c) =>
            match C.SplitOf(b.bill, b.rules)
            case Err(e) => Err(BillRule(e))
            case Ok(split) =>
              Ok(before + Shared(c, O.PagoEnte, -OwedByLessors(split.allocations, c.key), b.paidByAgency.value))
  }

  function AfterBills(input: CycleInput, ledger: seq<Entry>, n: nat): Result<seq<Entry>, CycleError>
    requires n <= |input.bills|
  {
    if n == 0 then Ok(ledger)
    else
      match AfterBills(input, ledger, n - 1)
      case Err(e) => Err(e)
      case Ok(before) =>
        var b := input.bills[n - 1];
        if b.paidByAgency.None? then Ok(before) else AfterRules(input, b, before, |b.rules|)
  }

  /** A refund is a credit however it was typed. */
  function SignedCharge(c: Charge): int {
    if c.kind == Devolucion then 0 - O.Abs(c.amount) else c.amount
  }

  function ManagementFee(c: Charge, contract: Contract): int {
    if c.kind == Reparacion && SignedCharge(c) > 0 && contract.repairMgmtFeePct.Some?
    then RoundDiv(O.Abs(SignedCharge(c)) * contract.repairMgmtFeePct.value, FULL_PCT) else 0
  }

  function ChargeEntries(c: Charge, contract: Contract): seq<Entry> {
    Shared(contract, O.Cargo, -SignedCharge(c), c.incurredAt)
      + (if c.kind == Reparacion && SignedCharge(c) > 0 && contract.repairMgmtFeePct.Some?
         then Shared(contract, O.Honorario, -ManagementFee(c, contract), c.incurredAt) else [])
  }

  function AfterCharges(input: CycleInput, ledger: seq<Entry>, n: nat): Result<seq<Entry>, CycleError>
    requires n <= |input.charges|
  {
    if n == 0 then Ok(ledger)
    else
      match AfterCharges(input, ledger, n - 1)
      case Err(e) => Err(e)
      case Ok(before) =>
        var c := input.charges[n - 1];
        if !c.toLessor then Ok(before)
        else
          match ContractOf(input.contracts, c.contract)
          case None => Err(UnknownContract)
          case Some(contract) => Ok(before + ChargeEntries(c, contract))
  }

  // ─── Payouts and opening balances ─────────────────────

  function PayoutEntries(ps: seq<Payout>): seq<Entry> {
    seq(|ps|, i requires 0 <= i < |ps| =>
      Entry(ps[i].lessor, ps[i].currency, if ps[i].cash then O.EntregaEfectivo else O.Transferencia,
            -ps[i].amount, ps[i].date, ""))
  }

  function OpeningEntries(os: seq<OpeningBalance>): seq<Entry> {
    seq(|os|, i requires 0 <= i < |os| =>
      Entry(os[i].lessor, os[i].currency, O.SaldoInicial, os[i].amount, os[i].date, ""))
  }

  function LedgerOf(input: CycleInput): Result<seq<Entry>, CycleError> {
    match AfterContracts(input, |input.contracts|)
    case Err(e) => Err(e)
    case Ok(st) =>
      match AfterCompensations(input, st, |input.compensations|)
      case Err(e) => Err(e)
      case Ok(l1) =>
        match AfterBills(input, l1, |input.bills|)
        case Err(e) => Err(e)
        case Ok(l2) =>
          match AfterCharges(input, l2, |input.charges|)
          case Err(e) => Err(e)
          case Ok(l3) => Ok(l3 + PayoutEntries(input.payouts) + OpeningEntries(input.openingBalances))
  }

  // ─── Statements ───────────────────────────────────────

  datatype Key = Key(lessor: string, currency: string)

  function KeyOf(e: Entry): Key { Key(e.lessor, e.currency) }

  /** Every lessor and currency with entries, once each. */
  function Keys(ledger: seq<Entry>): (r: seq<Key>)
    ensures forall i, j :: 0 <= i < j < |r| ==> r[i] != r[j]
    ensures forall i :: 0 <= i < |ledger| ==> KeyOf(ledger[i]) in r
  {
    if ledger == [] then []
    else
      var n := |ledger| - 1;
      var front := Keys(ledger[..n]);
      assert forall i :: 0 <= i < n ==> ledger[..n][i] == ledger[i];
      if KeyOf(ledger[n]) in front then front else front + [KeyOf(ledger[n])]
  }

  /** The entries of a key dated from `from` to before `until`, as the statement reads them. */
  function Mine(ledger: seq<Entry>, key: Key, from: nat, until: nat): seq<T.Entry> {
    if ledger == [] then []
    else
      var e := ledger[|ledger| - 1];
      Mine(ledger[..|ledger| - 1], key, from, until)
        + (if KeyOf(e) == key && from <= e.date < until then [T.Entry(e.kind, e.amount, e.date, e.property)] else [])
  }

  /** Last month's statement, if it has movements, is closed and opens the one of the cycle. */
  function StatementFor(input: CycleInput, ledger: seq<Entry>, key: Key): T.StatementResult {
    var before := Mine(ledger, key, 0, input.period);
    var previousClosing := if before == [] then 0 else T.StatementOf(0, before).closing;
    T.StatementOf(previousClosing, Mine(ledger, key, input.period, input.next))
  }

  function StatementsFor(input: CycleInput, ledger: seq<Entry>, keys: seq<Key>): map<Key, T.StatementResult> {
    map k | k in keys :: StatementFor(input, ledger, k)
  }

  function RunOf(input: CycleInput): Result<map<Key, T.StatementResult>, CycleError> {
    match LedgerOf(input)
    case Err(e) => Err(e)
    case Ok(ledger) => Ok(StatementsFor(input, ledger, Keys(ledger)))
  }

  // ─── The engine's loops ───────────────────────────────

  /** Settles the payments of a contract in order, pushing their entries onto the ledger. */
  method SettlePayments(c: Contract, payments: seq<Payment>, st: State) returns (r: Result<State, CycleError>)
    ensures r == AfterPayments(c, payments, |payments|, st)
  {
    hide S.Settle, PostingsOf;
    var ledger, settlements, paid := st.ledger, st.settlements, 0;
    for i := 0 to |payments|
      invariant AfterPayments(c, payments, i, st) == Ok(State(ledger, settlements))
      invariant paid == PaidBefore(payments, i)
    {
      var p := payments[i];
      var settled := S.SettlePayment(SettleInput(c, c.built.lines, p.amount, p.receivedBy, p.inCustody, paid));
      if settled.Err? {
        PaymentErrorStops(c, payments, i + 1, st);
        return Err(Settlement(settled.error));
      }
      var postings := O.PostPayment(O.InputOfSettled(c.built.lines, settled.value));
      ledger := ledger + Tagged(postings, c, p.date);
      settlements := settlements[p.key := settled.value];
      paid := paid + p.amount;
      assert PostingsOf(c, c.built.lines, settled.value, p.date) == Tagged(postings, c, p.date) by {
        PostingsAreThePushed(c, c.built.lines, settled.value, p.date);
      }
    }
    r := Ok(State(ledger, settlements));
  }

  lemma PostingsAreThePushed(c: Contract, lines: seq<S.Line>, s: S.Settled, date: nat)
    ensures PostingsOf(c, lines, s, date) == Tagged(O.PaymentPostings(O.InputOfSettled(lines, s), s.positions), c, date)
  {
  }

  lemma {:induction false} PaymentErrorStops(c: Contract, ps: seq<Payment>, n: nat, st: State)
    requires n <= |ps| && AfterPayments(c, ps, n, st).Err?
    ensures AfterPayments(c, ps, |ps|, st) == AfterPayments(c, ps, n, st)
    decreases |ps| - n
  {
    hide S.Settle, PostingsOf, PaymentInput;
    if n < |ps| { PaymentErrorStops(c, ps, n + 1, st); }
  }

  lemma {:induction false} ContractErrorStops(input: CycleInput, n: nat)
    requires n <= |input.contracts| && AfterContracts(input, n).Err?
    ensures AfterContracts(input, |input.contracts|) == AfterContracts(input, n)
    decreases |input.contracts| - n
  {
    hide AfterContract;
    if n < |input.contracts| { ContractErrorStops(input, n + 1); }
  }

  lemma {:induction false} CompensationErrorStops(input: CycleInput, st: State, n: nat)
    requires n <= |input.compensations| && AfterCompensations(input, st, n).Err?
    ensures AfterCompensations(input, st, |input.compensations|) == AfterCompensations(input, st, n)
    decreases |input.compensations| - n
  {
    hide CompensationEntries;
    if n < |input.compensations| { CompensationErrorStops(input, st, n + 1); }
  }

  lemma {:induction false} RuleErrorStops(input: CycleInput, b: AgencyBill, ledger: seq<Entry>, n: nat)
    requires n <= |b.rules| && b.paidByAgency.Some? && AfterRules(input, b, ledger, n).Err?
    ensures AfterRules(input, b, ledger, |b.rules|) == AfterRules(input, b, ledger, n)
    decreases |b.rules| - n
  {
    hide C.SplitOf, Shared, ContractOf, OwedByLessors;
    if n < |b.rules| { RuleErrorStops(input, b, ledger, n + 1); }
  }

  lemma {:induction false} BillErrorStops(input: CycleInput, ledger: seq<Entry>, n: nat)
    requires n <= |input.bills| && AfterBills(input, ledger, n).Err?
    ensures AfterBills(input, ledger, |input.bills|) == AfterBills(input, ledger, n)
    decreases |input.bills| - n
  {
    hide AfterRules;
    if n < |input.bills| { BillErrorStops(input, ledger, n + 1); }
  }

  lemma {:induction false} ChargeErrorStops(input: CycleInput, ledger: seq<Entry>, n: nat)
    requires n <= |input.charges| && AfterCharges(input, ledger, n).Err?
    ensures AfterCharges(input, ledger, |input.charges|) == AfterCharges(input, ledger, n)
    decreases |input.charges| - n
  {
    hide ChargeEntries, ContractOf;
    if n < |input.charges| { ChargeErrorStops(input, ledger, n + 1); }
  }

  /** Last month's liquidation of a contract, paid whole. */
  method SettlePrevious(c: Contract, st: State) returns (r: Result<State, CycleError>)
    ensures r == AfterPrevious(c, st)
  {
    hide S.Settle, PostingsOf, O.PaymentPostings, Tagged;
    if c.previous.None? {
      return Ok(st);
    }
    var p := c.previous.value;
    var settled := S.SettlePayment(SettleInput(c, p.built.lines, p.built.total, None, false, 0));
    if settled.Err? {
      return Err(Settlement(settled.error));
    }
    var postings := O.PostPayment(O.InputOfSettled(p.built.lines, settled.value));
    PostingsAreThePushed(c, p.built.lines, settled.value, p.paidAt);
    r := Ok(st.(ledger := st.ledger + Tagged(postings, c, p.paidAt)));
  }

  method RunContracts(input: CycleInput) returns (r: Result<State, CycleError>)
    ensures r == AfterContracts(input, |input.contracts|)
  {
    hide AfterPrevious, AfterPayments, S.SettlementBuckets, FirstBillError;
    var st := State([], map[]);
    for i := 0 to |input.contracts|
      invariant AfterContracts(input, i) == Ok(st)
    {
      var c := input.contracts[i];
      var previous := SettlePrevious(c, st);
      if previous.Err? {
        ContractErrorStops(input, i + 1);
        return previous;
      }
      st := previous.value;
      var bill := FirstBillError(input.bills);
      if bill.Some? {
        ContractErrorStops(input, i + 1);
        return Err(BillRule(bill.value));
      }
      var paid := SettlePayments(c, PaymentsOf(input.payments, c.key), st);
      if paid.Err? {
        ContractErrorStops(input, i + 1);
        return paid;
      }
      st := paid.value;
      var buckets := S.SettlementBuckets(c.built.lines, Some(c.commission), c.currency);
      if buckets.Err? {
        ContractErrorStops(input, i + 1);
        return Err(Settlement(buckets.error));
      }
    }
    r := Ok(st);
  }

  method RunCompensations(input: CycleInput, st: State) returns (r: Result<seq<Entry>, CycleError>)
    ensures r == AfterCompensations(input, st, |input.compensations|)
  {
    hide CompensationEntries;
    var ledger := st.ledger;
    for i := 0 to |input.compensations|
      invariant AfterCompensations(input, st, i) == Ok(ledger)
    {
      var pair := CompensationEntries(input, st.settlements, input.compensations[i]);
      if pair.Err? {
        CompensationErrorStops(input, st, i + 1);
        return pair;
      }
      ledger := ledger + pair.value;
    }
    r := Ok(ledger);
  }

  method RunRules(input: CycleInput, b: AgencyBill, before: seq<Entry>) returns (r: Result<seq<Entry>, CycleError>)
    requires b.paidByAgency.Some?
    ensures r == AfterRules(input, b, before, |b.rules|)
  {
    hide Shared, C.SplitOf;
    var ledger := before;
    for i := 0 to |b.rules|
      invariant AfterRules(input, b, before, i) == Ok(ledger)
    {
      if b.rules[i].payer == C.Propietario {
        var contract := ContractOf(input.contracts, b.rules[i].contractId);
        if contract.None? {
          RuleErrorStops(input, b, before, i + 1);
          return Err(UnknownContract);
        }
        var split := C.SplitBill(b.bill, b.rules);
        if split.Err? {
          RuleErrorStops(input, b, before, i + 1);
          return Err(BillRule(split.error));
        }
        var owed := OwedByLessors(split.value.allocations, contract.value.key);
        ledger := ledger + Shared(contract.value, O.PagoEnte, -owed, b.paidByAgency.value);
      }
    }
    r := Ok(ledger);
  }

  method RunBills(input: CycleInput, before: seq<Entry>) returns (r: Result<seq<Entry>, CycleError>)
    ensures r == AfterBills(input, before, |input.bills|)
  {
    hide AfterRules;
    var ledger := before;
    for i := 0 to |input.bills|
      invariant AfterBills(input, before, i) == Ok(ledger)
    {
      if input.bills[i].paidByAgency.Some? {
        var next := RunRules(input, input.bills[i], ledger);
        if next.Err? {
          BillErrorStops(input, before, i + 1);
          return next;
        }
        ledger := next.value;
      }
    }
    r := Ok(ledger);
  }

  method RunCharges(input: CycleInput, before: seq<Entry>) returns (r: Result<seq<Entry>, CycleError>)
    ensures r == AfterCharges(input, before, |input.charges|)
  {
    hide ChargeEntries;
    var ledger := before;
    for i := 0 to |input.charges|
      invariant AfterCharges(input, before, i) == Ok(ledger)
    {
      if input.charges[i].toLessor {
        var contract := ContractOf(input.contracts, input.charges[i].contract);
        if contract.None? {
          ChargeErrorStops(input, before, i + 1);
          return Err(UnknownContract);
        }
        ledger := ledger + ChargeEntries(input.charges[i], contract.value);
      }
    }
    r := Ok(ledger);
  }

  /** Closes last month if it has movements, and opens the month of the cycle with it. */
  method StatementOfKey(input: CycleInput, ledger: seq<Entry>, key: Key) returns (s: T.StatementResult)
    ensures s == StatementFor(input, ledger, key)
  {
    hide Mine, T.StatementOf;
    var previousClosing := 0;
    var before := Mine(ledger, key, 0, input.period);
    if before != [] {
      var previous := T.ComputeStatement(0, before);
      previousClosing := previous.closing;
    }
    s := T.ComputeStatement(previousClosing, Mine(ledger, key, input.period, input.next));
  }

  /** A statement for each lessor and currency of the ledger. */
  method Statements(input: CycleInput, ledger: seq<Entry>) returns (out: map<Key, T.StatementResult>)
    ensures out == StatementsFor(input, ledger, Keys(ledger))
  {
    hide Keys, StatementFor;
    var keys := Keys(ledger);
    out := map[];
    for i := 0 to |keys|
      invariant out.Keys == set k | k in keys[..i]
      invariant forall k :: k in keys[..i] ==> out[k] == StatementFor(input, ledger, k)
    {
      assert keys[..i + 1] == keys[..i] + [keys[i]];
      var current := StatementOfKey(input, ledger, keys[i]);
      out := out[keys[i] := current];
    }
    assert keys[..|keys|] == keys;
  }

  /** The whole cycle: one shared ledger that every stage pushes onto, then the statements of what is in it. */
  method RunCycle(input: CycleInput) returns (r: Result<map<Key, T.StatementResult>, CycleError>)
    ensures r == RunOf(input)
  {
    hide AfterContracts, AfterCompensations, AfterBills, AfterCharges, StatementsFor, Keys;
    var st := RunContracts(input);
    if st.Err? { return Err(st.error); }
    var l1 := RunCompensations(input, st.value);
    if l1.Err? { return Err(l1.error); }
    var l2 := RunBills(input, l1.value);
    if l2.Err? { return Err(l2.error); }
    var l3 := RunCharges(input, l2.value);
    if l3.Err? { return Err(l3.error); }
    var ledger := l3.value + PayoutEntries(input.payouts) + OpeningEntries(input.openingBalances);
    var out := Statements(input, ledger);
    r := Ok(out);
  }
}
