/**
  The account of each lessor in a cycle: what every stage leaves in it, entry type by entry type, and the
  statement it ends with.
*/
module CycleAccounts {
  import opened Cycle
  import opened CycleLaws
  import opened OwnerLedger
  import opened OwnerLedgerEntries
  import opened Rounding
  import opened Sums
  import opened Wrappers
  import C = ChargeSplit
  import CSL = ChargeSplitLaws
  import Money
  import Sorting
  import L = OwnerLedgerLaws
  import S = Settlement
  import SM = SettlementMeaning
  import T = Statement
  import TL = StatementLaws

  // ─── Whose entries ────────────────────────────────────

  /** Every entry, those of one type, or the movements of one unit. */
  datatype Filter = Everything | OfType(kind: EntryType) | OfUnit(unit: string)

  predicate Takes(f: Filter, kind: EntryType, unit: string) {
    match f
    case Everything => true
    case OfType(t) => t == kind
    case OfUnit(u) => u == unit && kind != SaldoInicial
  }

  /** Which account, which entries of it, and up to when. */
  datatype Account = Account(person: string, currency: string, filter: Filter, until: nat)

  predicate Counts(a: Account, currency: string, kind: EntryType, date: nat, unit: string) {
    a.currency == currency && date < a.until && Takes(a.filter, kind, unit)
  }

  function Balance(ledger: seq<Entry>, a: Account): int {
    if ledger == [] then 0
    else
      var e := ledger[|ledger| - 1];
      Balance(ledger[..|ledger| - 1], a)
        + (if e.lessor == a.person && Counts(a, e.currency, e.kind, e.date, e.property) then e.amount else 0)
  }

  lemma {:induction false} BalanceConcat(x: seq<Entry>, y: seq<Entry>, a: Account)
    ensures Balance(x + y, a) == Balance(x, a) + Balance(y, a)
  {
    if y == [] {
      assert x + y == x;
    } else {
      BalanceConcat(x, y[..|y| - 1], a);
      assert (x + y)[..|x + y| - 1] == x + y[..|y| - 1];
    }
  }

  // ─── Settled payments ─────────────────────────────────

  /** The balances of the positions of a person. */
  function BalanceOf(ps: seq<S.Position>, person: string): int {
    if ps == [] then 0
    else
      BalanceOf(ps[..|ps| - 1], person) + (if ps[|ps| - 1].personId == person then ps[|ps| - 1].balance else 0)
  }

  /** What a settled payment of a unit leaves a person: its balances, or what it is entered under one concept. */
  function LeftTo(input: S.Input, unit: string, person: string, f: Filter): int {
    if S.Settle(input).Err? then 0
    else
      var s := S.Settle(input).value;
      match f
      case Everything => BalanceOf(s.positions, person)
      case OfType(t) => EnteredTo(input.lines, s, s.positions, person, t)
      case OfUnit(u) => if u == unit then BalanceOf(s.positions, person) else 0
  }

  function AmountAs(ps: seq<Posting>, unit: string, person: string, f: Filter): int {
    if ps == [] then 0
    else
      var e := ps[|ps| - 1];
      AmountAs(ps[..|ps| - 1], unit, person, f)
        + (if e.personId == person && Takes(f, e.kind, unit) then e.amount else 0)
  }

  /** None of the entries is an opening balance. */
  ghost predicate NoneOpens(es: seq<Posting>) { forall i :: 0 <= i < |es| ==> es[i].kind != SaldoInicial }

  lemma {:induction false} AmountByFilter(ps: seq<Posting>, unit: string, person: string, f: Filter)
    requires NoneOpens(ps)
    ensures AmountAs(ps, unit, person, f)
         == match f
            case Everything => AmountAs(ps, unit, person, Everything)
            case OfType(t) => AmountTo(ps, person, t)
            case OfUnit(u) => if u == unit then AmountAs(ps, unit, person, Everything) else 0
  {
    if ps != [] {
      assert ps[|ps| - 1].kind != SaldoInicial;
      AmountByFilter(ps[..|ps| - 1], unit, person, f);
    }
  }

  lemma {:induction false} AmountAsConcat(x: seq<Posting>, y: seq<Posting>, unit: string, person: string, f: Filter)
    ensures AmountAs(x + y, unit, person, f) == AmountAs(x, unit, person, f) + AmountAs(y, unit, person, f)
  {
    if y == [] {
      assert x + y == x;
    } else {
      AmountAsConcat(x, y[..|y| - 1], unit, person, f);
      assert (x + y)[..|x + y| - 1] == x + y[..|y| - 1];
    }
  }

  lemma {:induction false} OwnAmounts(es: seq<Posting>, unit: string, own: string, person: string)
    requires forall i :: 0 <= i < |es| ==> es[i].personId == own
    ensures AmountAs(es, unit, person, Everything) == if own == person then L.PostingSum(es) else 0
  {
    if es != [] {
      var n := |es| - 1;
      OwnAmounts(es[..n], unit, own, person);
      assert es == es[..n] + [es[n]];
      L.PostingSumConcat(es[..n], [es[n]]);
      L.PostingSumOne(es[n]);
    } else {
      assert L.PostingAmounts([]) == [];
    }
  }

  lemma {:induction false} AmountOfPositions(lines: seq<S.Line>, s: S.Settled, ps: seq<S.Position>, unit: string,
      person: string)
    requires s.flow != S.FlowLocador ==> forall i :: 0 <= i < |ps| ==> ps[i].balance == ps[i].share
    ensures AmountAs(PaymentPostings(InputOfSettled(lines, s), ps), unit, person, Everything) == BalanceOf(ps, person)
  {
    if ps != [] {
      hide AmountAs, PositionPostings;
      var n := |ps| - 1;
      var es := EntriesOf(lines, s, ps[n]);
      AmountOfPositions(lines, s, ps[..n], unit, person);
      AmountAsConcat(PaymentPostings(InputOfSettled(lines, s), ps[..n]), es, unit, person, Everything);
      EntriesArePersonal(lines, s, ps[n]);
      OwnAmounts(es, unit, ps[n].personId, person);
      L.PositionPostingsSum(InputOfSettled(lines, s), ps[n]);
    } else {
      assert AmountAs([], unit, person, Everything) == 0;
    }
  }

  lemma {:induction false} PostingsAreMovements(lines: seq<S.Line>, s: S.Settled, ps: seq<S.Position>)
    ensures NoneOpens(PaymentPostings(InputOfSettled(lines, s), ps))
  {
    hide PositionPostings, NoneOpens;
    if ps == [] {
      NothingOpens();
    } else {
      var n := |ps| - 1;
      PostingsAreMovements(lines, s, ps[..n]);
      PositionMovements(lines, s, ps[n]);
      MoreOpenNothing(PaymentPostings(InputOfSettled(lines, s), ps[..n]), EntriesOf(lines, s, ps[n]));
    }
  }

  lemma NothingOpens()
    ensures NoneOpens([])
  {
  }

  lemma MoreOpenNothing(x: seq<Posting>, y: seq<Posting>)
    requires NoneOpens(x) && NoneOpens(y)
    ensures NoneOpens(x + y)
  {
  }

  lemma PositionMovements(lines: seq<S.Line>, s: S.Settled, p: S.Position)
    ensures NoneOpens(EntriesOf(lines, s, p))
  {
    hide PositionPostings;
    EntriesAreItsPersons(lines, s, p);
    var es := EntriesOf(lines, s, p);
    var n := if s.flow == S.FlowLocador && p.balance != p.share then |es| - 1 else |es|;
    forall i | 0 <= i < |es| ensures es[i].kind != SaldoInicial {
      if i < n { assert es[..n][i] == es[i]; }
    }
  }

  lemma {:induction false} TaggedBalance(ps: seq<Posting>, c: Contract, date: nat, a: Account)
    ensures Balance(Tagged(ps, c, date), a)
         == if a.currency == c.currency && date < a.until then AmountAs(ps, c.property, a.person, a.filter) else 0
  {
    if ps != [] {
      var n := |ps| - 1;
      TaggedBalance(ps[..n], c, date, a);
      assert Tagged(ps, c, date)[..n] == Tagged(ps[..n], c, date);
    }
  }

  /** The entries of a settled payment, in the account of each person. */
  lemma PaymentInAccount(c: Contract, input: S.Input, date: nat, a: Account)
    requires S.Settle(input).Ok?
    ensures Balance(PostingsOf(c, input.lines, S.Settle(input).value, date), a)
         == if a.currency == c.currency && date < a.until then LeftTo(input, c.property, a.person, a.filter) else 0
  {
    hide S.Settle, PaymentPostings, Balance, InputOfSettled, Tagged;
    var s := S.Settle(input).value;
    var ps := PaymentPostings(InputOfSettled(input.lines, s), s.positions);
    TaggedBalance(ps, c, date, a);
    PostingsAreMovements(input.lines, s, s.positions);
    AmountByFilter(ps, c.property, a.person, a.filter);
    if a.filter.OfType? {
      PaymentEnters(input.lines, s, s.positions, a.person, a.filter.kind);
    } else {
      if s.flow != S.FlowLocador { AgencyFlowBalances(input); }
      AmountOfPositions(input.lines, s, s.positions, c.property, a.person);
    }
  }

  // ─── What a payment is settled with ───────────────────

  function AmountsBefore(ps: seq<Payment>, n: nat): int
    requires n <= |ps|
  {
    Sum(seq(n, i requires 0 <= i < n => ps[i].amount))
  }

  /** Who received a payment: whoever it says; else the lessors when they collect, unless it is in custody. */
  predicate LessorReceived(c: Contract, p: Payment) {
    if p.receivedBy.Some? then p.receivedBy.value == S.ReceivedByLessor else c.lessorCollects && !p.inCustody
  }

  lemma {:induction false} PaidBeforeIs(ps: seq<Payment>, n: nat)
    requires n <= |ps|
    ensures PaidBefore(ps, n) == AmountsBefore(ps, n)
  {
    var s := seq(n, i requires 0 <= i < n => ps[i].amount);
    if n > 0 {
      PaidBeforeIs(ps, n - 1);
      assert s[..n - 1] == seq(n - 1, i requires 0 <= i < n - 1 => ps[i].amount);
    }
  }

  /** The payments of a contract are taken by date, and those of one date by the order of their keys. */
  lemma PaymentsByDateAndKey(payments: seq<Payment>, key: string, i: nat, j: nat)
    requires i < j < |PaymentsOf(payments, key)|
    ensures var p, q := PaymentsOf(payments, key)[i], PaymentsOf(payments, key)[j];
            p.date <= q.date && (p.date == q.date ==> p.keyRank <= q.keyRank)
  {
    hide PaymentsOf;
    PaymentsAreItsOwnInOrder(payments, key, PaymentsOf(payments, key)[i]);
    InOrderAt(PaymentsOf(payments, key), i, j);
  }

  lemma InOrderAt(ps: seq<Payment>, i: nat, j: nat)
    requires Sorting.Sorted(ps, InOrder) && i < j < |ps|
    ensures InOrder(ps[i], ps[j])
  {
  }

  /**
    A payment is settled against its contract's lines with its amount, after the amounts of the payments of the
    contract before it, by the contract's lessors, commission and currency, with nobody named.
  */
  lemma PaymentIsSettledWith(c: Contract, ps: seq<Payment>, n: nat)
    requires n < |ps|
    ensures var i := PaymentInput(c, ps, n);
            && i.lines == c.built.lines && i.amount == ps[n].amount && i.paidBefore == AmountsBefore(ps, n)
            && i.currency == c.currency && i.commission == Some(c.commission) && i.lessors == c.lessors
            && (SM.Direct(i) <==> LessorReceived(c, ps[n])) && i.inCustody == ps[n].inCustody && !SM.Named(i)
            && i.options == S.Options(S.TodoLoAjeno, S.Proporcional)
  {
    PaidBeforeIs(ps, n);
  }

  /** Last month's liquidation is settled whole, as its first payment. */
  lemma PreviousIsSettledWith(c: Contract)
    requires c.previous.Some?
    ensures var i, p := PreviousInput(c), c.previous.value;
            && i.lines == p.built.lines && i.amount == p.built.total && i.paidBefore == 0
            && i.currency == c.currency && i.commission == Some(c.commission) && i.lessors == c.lessors
            && (SM.Direct(i) <==> c.lessorCollects) && !i.inCustody && !SM.Named(i)
            && i.options == S.Options(S.TodoLoAjeno, S.Proporcional)
  {
  }

  // ─── All the payments ─────────────────────────────────

  /** What the first n payments of a contract leave in an account. */
  function LeftByPayments(c: Contract, ps: seq<Payment>, n: nat, a: Account): int
    requires n <= |ps|
  {
    if n == 0 then 0
    else
      LeftByPayments(c, ps, n - 1, a)
        + (if a.currency == c.currency && ps[n - 1].date < a.until
           then LeftTo(PaymentInput(c, ps, n - 1), c.property, a.person, a.filter) else 0)
  }

  function LeftByPrevious(c: Contract, a: Account): int {
    if c.previous.Some? && a.currency == c.currency && c.previous.value.paidAt < a.until
    then LeftTo(PreviousInput(c), c.property, a.person, a.filter) else 0
  }

  /** What the payments of the first n contracts leave in an account. */
  function LeftByContracts(input: CycleInput, n: nat, a: Account): int
    requires n <= |input.contracts|
  {
    if n == 0 then 0
    else
      var c := input.contracts[n - 1];
      var ps := PaymentsOf(input.payments, c.key);
      LeftByContracts(input, n - 1, a) + LeftByPrevious(c, a) + LeftByPayments(c, ps, |ps|, a)
  }

  lemma {:induction false} PaymentsInAccount(c: Contract, ps: seq<Payment>, n: nat, st: State, a: Account)
    requires n <= |ps| && AfterPayments(c, ps, n, st).Ok?
    ensures Balance(AfterPayments(c, ps, n, st).value.ledger, a) == Balance(st.ledger, a) + LeftByPayments(c, ps, n, a)
  {
    hide S.Settle, PostingsOf, Balance, LeftTo, PaymentInput;
    if n > 0 {
      PaymentsInAccount(c, ps, n - 1, st, a);
      PaymentLines(c, ps, n - 1);
      var before, input := AfterPayments(c, ps, n - 1, st).value.ledger, PaymentInput(c, ps, n - 1);
      PaymentInAccount(c, input, ps[n - 1].date, a);
      BalanceConcat(before, PostingsOf(c, input.lines, S.Settle(input).value, ps[n - 1].date), a);
    }
  }

  lemma PreviousInAccount(c: Contract, st: State, a: Account)
    requires AfterPrevious(c, st).Ok?
    ensures Balance(AfterPrevious(c, st).value.ledger, a) == Balance(st.ledger, a) + LeftByPrevious(c, a)
  {
    if c.previous.Some? {
      hide S.Settle, PostingsOf, Balance, LeftTo;
      var p, input := c.previous.value, PreviousInput(c);
      PaymentInAccount(c, input, p.paidAt, a);
      BalanceConcat(st.ledger, PostingsOf(c, p.built.lines, S.Settle(input).value, p.paidAt), a);
    }
  }

  lemma {:induction false} ContractsInAccount(input: CycleInput, n: nat, a: Account)
    requires n <= |input.contracts| && AfterContracts(input, n).Ok?
    ensures Balance(AfterContracts(input, n).value.ledger, a) == LeftByContracts(input, n, a)
  {
    hide AfterPayments, AfterPrevious, LeftByPayments, LeftByPrevious, S.SettlementBuckets;
    if n > 0 {
      ContractsInAccount(input, n - 1, a);
      var c, st := input.contracts[n - 1], AfterContracts(input, n - 1).value;
      PreviousInAccount(c, st, a);
      var ps := PaymentsOf(input.payments, c.key);
      PaymentsInAccount(c, ps, |ps|, AfterPrevious(c, st).value, a);
    }
  }

  // ─── Which settlement a payment has ───────────────────

  /** A settlement is that of a payment of one of the first n contracts, with that key. */
  ghost predicate IsSettlementOf(input: CycleInput, n: nat, key: string, s: S.Settled)
    requires n <= |input.contracts|
  {
    exists i, k :: 0 <= i < n && SettledAt(input, i, k, key, s)
  }

  ghost predicate SettledAt(input: CycleInput, i: nat, k: nat, key: string, s: S.Settled)
    requires i < |input.contracts|
  {
    var c := input.contracts[i];
    var ps := PaymentsOf(input.payments, c.key);
    k < |ps| && ps[k].key == key && S.Settle(PaymentInput(c, ps, k)) == Ok(s)
  }

  lemma {:induction false} SettledByPayments(input: CycleInput, i: nat, n: nat, st: State, key: string)
    requires i < |input.contracts|
    requires var c := input.contracts[i]; var ps := PaymentsOf(input.payments, c.key);
             n <= |ps| && AfterPayments(c, ps, n, st).Ok?
    ensures var c := input.contracts[i]; var ps := PaymentsOf(input.payments, c.key);
            var after := AfterPayments(c, ps, n, st).value.settlements;
            && (key in after && (key !in st.settlements || after[key] != st.settlements[key]) ==>
                  exists k :: 0 <= k < n && SettledAt(input, i, k, key, after[key]))
            && (key in st.settlements ==> key in after)
            && (forall k :: 0 <= k < n ==> ps[k].key in after)
  {
    hide S.Settle, PostingsOf, PaymentInput, PaymentsOf;
    if n > 0 {
      SettledByPayments(input, i, n - 1, st, key);
      var c := input.contracts[i];
      var ps := PaymentsOf(input.payments, c.key);
      var after := AfterPayments(c, ps, n, st).value.settlements;
      if ps[n - 1].key == key {
        assert SettledAt(input, i, n - 1, key, after[key]);
      }
    }
  }

  /** The settlements a cycle remembers are those of its payments, each under the key of its payment. */
  lemma {:induction false} SettlementsAreOfThePayments(input: CycleInput, n: nat, key: string)
    requires n <= |input.contracts| && AfterContracts(input, n).Ok?
    ensures var settled := AfterContracts(input, n).value.settlements;
            key in settled ==> IsSettlementOf(input, n, key, settled[key])
  {
    hide AfterPayments, AfterPrevious, S.SettlementBuckets, SettledAt;
    if n > 0 {
      SettlementsAreOfThePayments(input, n - 1, key);
      var c, st := input.contracts[n - 1], AfterContracts(input, n - 1).value;
      var ps := PaymentsOf(input.payments, c.key);
      var previous := AfterPrevious(c, st).value;
      assert previous.settlements == st.settlements by { PreviousSettlesNothing(c, st); }
      SettledByPayments(input, n - 1, |ps|, previous, key);
      if key in st.settlements && IsSettlementOf(input, n - 1, key, st.settlements[key]) {
        var i, k :| 0 <= i < n - 1 && SettledAt(input, i, k, key, st.settlements[key]);
      }
    }
  }

  lemma PreviousSettlesNothing(c: Contract, st: State)
    requires AfterPrevious(c, st).Ok?
    ensures AfterPrevious(c, st).value.settlements == st.settlements
  {
    hide S.Settle, PostingsOf;
  }

  // ─── Compensations ────────────────────────────────────

  /** The first payment with a key; their number when there is none. */
  function FirstPayment(ps: seq<Payment>, key: string): (k: nat)
    ensures k <= |ps| && (k < |ps| ==> ps[k].key == key)
    ensures forall j :: 0 <= j < k ==> ps[j].key != key
  {
    if ps == [] || ps[0].key == key then 0 else 1 + FirstPayment(ps[1..], key)
  }

  /** The last contract with a key; their number when there is none. */
  function LastContract(cs: seq<Contract>, key: string): (k: nat)
    ensures k <= |cs| && (k < |cs| ==> cs[k].key == key)
    ensures forall j :: 0 <= j < |cs| && (k == |cs| || j > k) ==> cs[j].key != key
  {
    if cs == [] then 0
    else if cs[|cs| - 1].key == key then |cs| - 1
    else
      var k := LastContract(cs[..|cs| - 1], key);
      if k < |cs| - 1 then k else |cs|
  }

  /** The first position of a person; their number when there is none. */
  function FirstPosition(ps: seq<S.Position>, person: string): (k: nat)
    ensures k <= |ps| && (k < |ps| ==> ps[k].personId == person)
    ensures forall j :: 0 <= j < k ==> ps[j].personId != person
  {
    if ps == [] || ps[0].personId == person then 0 else 1 + FirstPosition(ps[1..], person)
  }

  lemma {:induction false} PaymentOfIsTheFirst(ps: seq<Payment>, key: string)
    ensures PaymentOf(ps, key) == if FirstPayment(ps, key) < |ps| then Some(ps[FirstPayment(ps, key)]) else None
  {
    if ps != [] { PaymentOfIsTheFirst(ps[1..], key); }
  }

  lemma {:induction false} ContractOfIsTheLast(cs: seq<Contract>, key: string)
    ensures ContractOf(cs, key) == if LastContract(cs, key) < |cs| then Some(cs[LastContract(cs, key)]) else None
  {
    if cs != [] { ContractOfIsTheLast(cs[..|cs| - 1], key); }
  }

  lemma {:induction false} HolderIsTheFirst(ps: seq<S.Position>, person: string)
    ensures S.HolderIndex(ps, person) == FirstPosition(ps, person)
  {
    if ps != [] { HolderIsTheFirst(ps[1..], person); }
  }

  /** What a compensation is for: what it says, or the share of the compensated less what the payment left it. */
  function CompensationOf(c: Compensation, ps: seq<S.Position>): int
    requires FirstPosition(ps, c.to) < |ps|
  {
    var p := ps[FirstPosition(ps, c.to)];
    if c.amount.Some? then c.amount.value else p.share - p.balance
  }

  /** The error of a compensation: no such settled payment, no position of the compensated in it, no contract. */
  function CompensationError(input: CycleInput, settlements: map<string, S.Settled>, c: Compensation)
    : Option<CycleError>
  {
    var k := FirstPayment(input.payments, c.payment);
    if k == |input.payments| || c.payment !in settlements then Some(UnknownPayment)
    else if forall i :: 0 <= i < |settlements[c.payment].positions| ==>
              settlements[c.payment].positions[i].personId != c.to then Some(NoPosition)
    else if LastContract(input.contracts, input.payments[k].contract) == |input.contracts| then Some(UnknownContract)
    else None
  }

  /** What a compensation leaves in an account: it is taken from the one who pays it and given to the other. */
  function CompensationLeft(input: CycleInput, settlements: map<string, S.Settled>, c: Compensation, a: Account): int {
    if CompensationError(input, settlements, c).Some? then 0
    else
      var payment := input.payments[FirstPayment(input.payments, c.payment)];
      var contract := input.contracts[LastContract(input.contracts, payment.contract)];
      var amount := CompensationOf(c, settlements[c.payment].positions);
      if Counts(a, contract.currency, Compensacion, payment.date, contract.property)
      then (if a.person == c.to then amount else 0) - (if a.person == c.from then amount else 0) else 0
  }

  lemma CompensationInAccount(input: CycleInput, settlements: map<string, S.Settled>, c: Compensation, a: Account)
    ensures var r, error := CompensationEntries(input, settlements, c), CompensationError(input, settlements, c);
            && (r.Err? <==> error.Some?) && (r.Err? ==> r.error == error.value)
            && (r.Ok? ==> Balance(r.value, a) == CompensationLeft(input, settlements, c, a))
  {
    hide FirstPayment, LastContract, FirstPosition, PaymentOf, ContractOf, S.HolderIndex;
    var k := FirstPayment(input.payments, c.payment);
    PaymentOfIsTheFirst(input.payments, c.payment);
    if k < |input.payments| && c.payment in settlements {
      HolderIsTheFirst(settlements[c.payment].positions, c.to);
      ContractOfIsTheLast(input.contracts, input.payments[k].contract);
      var r := CompensationEntries(input, settlements, c);
      if r.Ok? { BalanceOfTwo(r.value, a); }
    }
  }

  lemma BalanceOfTwo(es: seq<Entry>, a: Account)
    requires |es| == 2
    ensures Balance(es, a)
         == (if es[0].lessor == a.person && Counts(a, es[0].currency, es[0].kind, es[0].date, es[0].property)
             then es[0].amount else 0)
            + (if es[1].lessor == a.person && Counts(a, es[1].currency, es[1].kind, es[1].date, es[1].property)
               then es[1].amount else 0)
  {
    assert es[..1][..0] == [] && es[..1][0] == es[0];
    assert Balance(es[..1][..0], a) == 0;
  }

  /** What the first n compensations leave in an account. */
  function LeftByCompensations(input: CycleInput, settlements: map<string, S.Settled>, n: nat, a: Account): int
    requires n <= |input.compensations|
  {
    if n == 0 then 0
    else LeftByCompensations(input, settlements, n - 1, a)
           + CompensationLeft(input, settlements, input.compensations[n - 1], a)
  }

  /**
    The stage of the compensations, in every account: each takes its amount from the one who pays it and gives it
    to the other, in the contract's currency and from the payment's day on; nobody else's account changes. It
    stops at the first one that has no payment, no position or no contract.
  */
  lemma {:induction false} CompensationsInAccount(input: CycleInput, st: State, n: nat, a: Account)
    requires n <= |input.compensations|
    ensures AfterCompensations(input, st, n).Ok? <==>
              forall i :: 0 <= i < n ==> CompensationError(input, st.settlements, input.compensations[i]).None?
    ensures AfterCompensations(input, st, n).Ok? ==>
              Balance(AfterCompensations(input, st, n).value, a)
              == Balance(st.ledger, a) + LeftByCompensations(input, st.settlements, n, a)
  {
    hide CompensationEntries, Balance, CompensationError, CompensationLeft;
    if n > 0 {
      CompensationsInAccount(input, st, n - 1, a);
      var c := input.compensations[n - 1];
      CompensationInAccount(input, st.settlements, c, a);
      var before, pair := AfterCompensations(input, st, n - 1), CompensationEntries(input, st.settlements, c);
      if before.Ok? && pair.Ok? { BalanceConcat(before.value, pair.value, a); }
    }
  }

  // ─── Shared among the lessors ─────────────────────────

  /**
    A signed amount among lessors: to each its largest-remainder part of the magnitude, by percentage when one is
    positive and none negative; else in equal parts, the first ones with the cents left. All with its sign.
  */
  lemma SharedByPercentage(amount: int, ws: seq<int>, i: nat)
    requires i < |ws|
    ensures var m := SM.Magnitude(amount);
            var part := if (exists j :: 0 <= j < |ws| && ws[j] > 0) && (forall j :: 0 <= j < |ws| ==> ws[j] >= 0)
                        then PartByWeight(m, ws, i) else m / |ws| + (if i < m % |ws| then 1 else 0);
            SplitByShare(amount, ws)[i] == if amount < 0 then -part else part
  {
    hide Money.Allocate;
    WeightsOfShares(ws);
    if UsableWeights(ws) { SumNonNegative(ws); } else { CSL.EqualParts(SM.Magnitude(amount), |ws|); }
  }

  function PartByWeight(m: nat, ws: seq<int>, i: nat): int
    requires i < |ws|
  {
    if Money.ValidWeights(ws) then Money.Allocate(m, ws)[i] else 0
  }

  /** What the first n lessors of a contract have of a signed amount, when they are the person. */
  function SharedWith(c: Contract, amount: int, person: string, n: nat): int
    requires n <= |c.lessors|
  {
    if n == 0 then 0
    else
      SharedWith(c, amount, person, n - 1)
        + (if c.lessors[n - 1].personId == person
           then SplitByShare(amount, SM.Percentages(c.lessors))[n - 1] else 0)
  }

  function SharedLeft(c: Contract, kind: EntryType, amount: int, date: nat, a: Account): int {
    if Counts(a, c.currency, kind, date, c.property) then SharedWith(c, amount, a.person, |c.lessors|) else 0
  }

  lemma {:induction false} SharedPrefix(c: Contract, kind: EntryType, amount: int, date: nat, a: Account, n: nat)
    requires n <= |c.lessors|
    ensures |Shared(c, kind, amount, date)| == |c.lessors|
    ensures Balance(Shared(c, kind, amount, date)[..n], a)
         == if Counts(a, c.currency, kind, date, c.property) then SharedWith(c, amount, a.person, n) else 0
  {
    hide SplitByShare;
    SM.SamePercentages(c.lessors);
    if n > 0 {
      SharedPrefix(c, kind, amount, date, a, n - 1);
      assert Shared(c, kind, amount, date)[..n][..n - 1] == Shared(c, kind, amount, date)[..n - 1];
    }
  }

  lemma SharedInAccount(c: Contract, kind: EntryType, amount: int, date: nat, a: Account)
    ensures Balance(Shared(c, kind, amount, date), a) == SharedLeft(c, kind, amount, date, a)
  {
    hide Balance, Shared, SharedWith;
    SharedPrefix(c, kind, amount, date, a, |c.lessors|);
    var es := Shared(c, kind, amount, date);
    assert es[..|es|] == es;
  }

  // ─── Bills ────────────────────────────────────────────

  /** The parts of a bill that are passed on to the owner of a contract. */
  function OwnerParts(all: seq<C.Allocation>, key: string): int {
    if all == [] then 0
    else
      var a := all[|all| - 1];
      OwnerParts(all[..|all| - 1], key) + (if a.payer == C.Propietario && a.contractId == key then a.amount else 0)
  }

  lemma {:induction false} OwedIsTheOwnerParts(all: seq<C.Allocation>, key: string)
    ensures OwedByLessors(all, key) == OwnerParts(all, key)
  {
    if all != [] { OwedIsTheOwnerParts(all[..|all| - 1], key); }
  }

  /** What the first n rules of a bill the agency paid leave in an account: the owner's debt, once for each rule. */
  function RulesLeft(input: CycleInput, b: AgencyBill, n: nat, a: Account): int
    requires n <= |b.rules| && b.paidByAgency.Some?
  {
    if n == 0 then 0
    else
      var k := LastContract(input.contracts, b.rules[n - 1].contractId);
      RulesLeft(input, b, n - 1, a)
        + (if b.rules[n - 1].payer == C.Propietario && k < |input.contracts| && C.SplitOf(b.bill, b.rules).Ok?
           then SharedLeft(input.contracts[k], PagoEnte,
                           -OwnerParts(C.SplitOf(b.bill, b.rules).value.allocations, b.rules[n - 1].contractId),
                           b.paidByAgency.value, a)
           else 0)
  }

  lemma {:induction false} RulesInAccount(input: CycleInput, b: AgencyBill, ledger: seq<Entry>, n: nat, a: Account)
    requires n <= |b.rules| && b.paidByAgency.Some? && AfterRules(input, b, ledger, n).Ok?
    ensures Balance(AfterRules(input, b, ledger, n).value, a) == Balance(ledger, a) + RulesLeft(input, b, n, a)
  {
    hide Shared, SharedLeft, Balance, C.SplitOf, ContractOf, LastContract, OwedByLessors, OwnerParts;
    if n > 0 {
      RulesInAccount(input, b, ledger, n - 1, a);
      var rule := b.rules[n - 1];
      if rule.payer == C.Propietario {
        ContractOfIsTheLast(input.contracts, rule.contractId);
        var c := input.contracts[LastContract(input.contracts, rule.contractId)];
        var all := C.SplitOf(b.bill, b.rules).value.allocations;
        OwedIsTheOwnerParts(all, c.key);
        SharedInAccount(c, PagoEnte, -OwnerParts(all, c.key), b.paidByAgency.value, a);
        BalanceConcat(AfterRules(input, b, ledger, n - 1).value,
                      Shared(c, PagoEnte, -OwnerParts(all, c.key), b.paidByAgency.value), a);
      }
    }
  }

  function LeftByBills(input: CycleInput, n: nat, a: Account): int
    requires n <= |input.bills|
  {
    if n == 0 then 0
    else
      var b := input.bills[n - 1];
      LeftByBills(input, n - 1, a) + (if b.paidByAgency.Some? then RulesLeft(input, b, |b.rules|, a) else 0)
  }

  lemma {:induction false} BillsInAccount(input: CycleInput, ledger: seq<Entry>, n: nat, a: Account)
    requires n <= |input.bills| && AfterBills(input, ledger, n).Ok?
    ensures Balance(AfterBills(input, ledger, n).value, a) == Balance(ledger, a) + LeftByBills(input, n, a)
  {
    hide AfterRules, RulesLeft, Balance;
    if n > 0 {
      BillsInAccount(input, ledger, n - 1, a);
      var b, before := input.bills[n - 1], AfterBills(input, ledger, n - 1).value;
      if b.paidByAgency.Some? { RulesInAccount(input, b, before, |b.rules|, a); }
    }
  }

  // ─── Charges ──────────────────────────────────────────

  /** What a charge takes from the lessors; a refund gives back, however it is signed. */
  function TakenByCharge(c: Charge): int {
    if c.kind != Devolucion then c.amount else 0 - SM.Magnitude(c.amount)
  }

  /** The fee of managing a repair that takes something: the agreed percentage of it, to the cent. */
  function FeeOfCharge(c: Charge, contract: Contract): int {
    if c.kind == Reparacion && c.amount > 0 && contract.repairMgmtFeePct.Some?
    then RoundDiv(c.amount * contract.repairMgmtFeePct.value, FULL_PCT) else 0
  }

  function ChargeLeft(input: CycleInput, c: Charge, a: Account): int {
    var k := LastContract(input.contracts, c.contract);
    if !c.toLessor || k == |input.contracts| then 0
    else
      var contract := input.contracts[k];
      SharedLeft(contract, Cargo, -TakenByCharge(c), c.incurredAt, a)
        + SharedLeft(contract, Honorario, -FeeOfCharge(c, contract), c.incurredAt, a)
  }

  function LeftByCharges(input: CycleInput, n: nat, a: Account): int
    requires n <= |input.charges|
  {
    if n == 0 then 0 else LeftByCharges(input, n - 1, a) + ChargeLeft(input, input.charges[n - 1], a)
  }

  lemma {:induction false} NothingShared(c: Contract, person: string, n: nat)
    requires n <= |c.lessors|
    ensures SharedWith(c, 0, person, n) == 0
  {
    if n > 0 {
      hide SplitByShare, Money.Allocate;
      NothingShared(c, person, n - 1);
      NothingOfNothing(SM.Percentages(c.lessors), n - 1);
    }
  }

  lemma NothingOfNothing(ws: seq<int>, i: nat)
    requires i < |ws|
    ensures SplitByShare(0, ws)[i] == 0
  {
    hide Money.Allocate;
    SharedByPercentage(0, ws, i);
    if Money.ValidWeights(ws) { Money.AllocateZero(ws); }
  }

  lemma ChargeInAccount(c: Charge, contract: Contract, a: Account)
    ensures Balance(ChargeEntries(c, contract), a)
         == SharedLeft(contract, Cargo, -TakenByCharge(c), c.incurredAt, a)
            + SharedLeft(contract, Honorario, -FeeOfCharge(c, contract), c.incurredAt, a)
  {
    hide Shared, Balance, SharedWith, RoundDiv;
    assert SignedCharge(c) == TakenByCharge(c) && ManagementFee(c, contract) == FeeOfCharge(c, contract);
    var charge := Shared(contract, Cargo, -TakenByCharge(c), c.incurredAt);
    SharedInAccount(contract, Cargo, -TakenByCharge(c), c.incurredAt, a);
    if c.kind == Reparacion && c.amount > 0 && contract.repairMgmtFeePct.Some? {
      var fee := Shared(contract, Honorario, -FeeOfCharge(c, contract), c.incurredAt);
      SharedInAccount(contract, Honorario, -FeeOfCharge(c, contract), c.incurredAt, a);
      BalanceConcat(charge, fee, a);
    } else {
      NothingShared(contract, a.person, |contract.lessors|);
      assert charge + [] == charge;
    }
  }

  lemma {:induction false} ChargesInAccount(input: CycleInput, ledger: seq<Entry>, n: nat, a: Account)
    requires n <= |input.charges| && AfterCharges(input, ledger, n).Ok?
    ensures Balance(AfterCharges(input, ledger, n).value, a) == Balance(ledger, a) + LeftByCharges(input, n, a)
  {
    hide ChargeEntries, Balance, ContractOf, LastContract, SharedLeft, TakenByCharge, FeeOfCharge;
    if n > 0 {
      ChargesInAccount(input, ledger, n - 1, a);
      var c, before := input.charges[n - 1], AfterCharges(input, ledger, n - 1).value;
      if c.toLessor {
        ContractOfIsTheLast(input.contracts, c.contract);
        var contract := input.contracts[LastContract(input.contracts, c.contract)];
        ChargeInAccount(c, contract, a);
        BalanceConcat(before, ChargeEntries(c, contract), a);
      }
    }
  }

  // ─── Payouts and opening balances ─────────────────────

  function LeftByPayouts(ps: seq<Payout>, a: Account): int {
    if ps == [] then 0
    else
      var p := ps[|ps| - 1];
      LeftByPayouts(ps[..|ps| - 1], a)
        - (if p.lessor == a.person
              && Counts(a, p.currency, if p.cash then EntregaEfectivo else Transferencia, p.date, "")
           then p.amount else 0)
  }

  function LeftByOpenings(os: seq<OpeningBalance>, a: Account): int {
    if os == [] then 0
    else
      var o := os[|os| - 1];
      LeftByOpenings(os[..|os| - 1], a)
        + (if o.lessor == a.person && Counts(a, o.currency, SaldoInicial, o.date, "") then o.amount else 0)
  }

  lemma {:induction false} PayoutsInAccount(ps: seq<Payout>, a: Account)
    ensures Balance(PayoutEntries(ps), a) == LeftByPayouts(ps, a)
  {
    if ps != [] {
      PayoutsInAccount(ps[..|ps| - 1], a);
      assert PayoutEntries(ps)[..|ps| - 1] == PayoutEntries(ps[..|ps| - 1]);
    }
  }

  lemma {:induction false} OpeningsInAccount(os: seq<OpeningBalance>, a: Account)
    ensures Balance(OpeningEntries(os), a) == LeftByOpenings(os, a)
  {
    if os != [] {
      OpeningsInAccount(os[..|os| - 1], a);
      assert OpeningEntries(os)[..|os| - 1] == OpeningEntries(os[..|os| - 1]);
    }
  }

  // ─── The whole account ────────────────────────────────

  /** The settlements the compensations of a cycle look at. */
  function SettlementsOf(input: CycleInput): map<string, S.Settled> {
    var st := AfterContracts(input, |input.contracts|);
    if st.Ok? then st.value.settlements else map[]
  }

  /** Everything a cycle leaves in an account. */
  function Left(input: CycleInput, a: Account): int {
    LeftByContracts(input, |input.contracts|, a)
    + LeftByCompensations(input, SettlementsOf(input), |input.compensations|, a)
    + LeftByBills(input, |input.bills|, a) + LeftByCharges(input, |input.charges|, a)
    + LeftByPayouts(input.payouts, a) + LeftByOpenings(input.openingBalances, a)
  }

  lemma LedgerInAccount(input: CycleInput, a: Account)
    requires LedgerOf(input).Ok?
    ensures Balance(LedgerOf(input).value, a) == Left(input, a)
  {
    hide AfterContracts, AfterCompensations, AfterBills, AfterCharges, Balance, PayoutEntries, OpeningEntries;
    var st := AfterContracts(input, |input.contracts|).value;
    var l1 := AfterCompensations(input, st, |input.compensations|).value;
    var l2 := AfterBills(input, l1, |input.bills|).value;
    var l3 := AfterCharges(input, l2, |input.charges|).value;
    ContractsInAccount(input, |input.contracts|, a);
    CompensationsInAccount(input, st, |input.compensations|, a);
    BillsInAccount(input, l1, |input.bills|, a);
    ChargesInAccount(input, l2, |input.charges|, a);
    BalanceConcat(l3 + PayoutEntries(input.payouts), OpeningEntries(input.openingBalances), a);
    BalanceConcat(l3, PayoutEntries(input.payouts), a);
    PayoutsInAccount(input.payouts, a);
    OpeningsInAccount(input.openingBalances, a);
  }

  // ─── Its statement ────────────────────────────────────

  lemma {:induction false} MineInAccount(ledger: seq<Entry>, person: string, currency: string, from: nat, until: nat,
      t: EntryType)
    requires from <= until
    ensures TL.SumOver(TL.OfType(t), Mine(ledger, Key(person, currency), from, until))
         == Balance(ledger, Account(person, currency, OfType(t), until))
            - Balance(ledger, Account(person, currency, OfType(t), from))
    ensures TL.SumOver(TL.Amount, Mine(ledger, Key(person, currency), from, until))
         == Balance(ledger, Account(person, currency, Everything, until))
            - Balance(ledger, Account(person, currency, Everything, from))
  {
    hide Mine, TL.SumOver;
    if ledger == [] {
      NoneMine(Key(person, currency), from, until, TL.OfType(t));
      NoneMine(Key(person, currency), from, until, TL.Amount);
    } else {
      MineInAccount(ledger[..|ledger| - 1], person, currency, from, until, t);
      OneMoreMine(ledger, Key(person, currency), from, until, TL.OfType(t));
      OneMoreMine(ledger, Key(person, currency), from, until, TL.Amount);
    }
  }

  lemma NoneMine(key: Key, from: nat, until: nat, m: TL.Measure)
    ensures TL.SumOver(m, Mine([], key, from, until)) == 0
  {
  }

  lemma OneMoreMine(ledger: seq<Entry>, key: Key, from: nat, until: nat, m: TL.Measure)
    requires ledger != []
    ensures var e := ledger[|ledger| - 1];
            TL.SumOver(m, Mine(ledger, key, from, until))
            == TL.SumOver(m, Mine(ledger[..|ledger| - 1], key, from, until))
               + (if KeyOf(e) == key && from <= e.date < until
                  then TL.MeasureOf(m, T.Entry(e.kind, e.amount, e.date, e.property)) else 0)
  {
    hide TL.SumOver, TL.MeasureOf;
    var front, e := Mine(ledger[..|ledger| - 1], key, from, until), ledger[|ledger| - 1];
    TL.SumOverOne(m, front, T.Entry(e.kind, e.amount, e.date, e.property));
    assert front + [] == front;
  }

  lemma {:induction false} UnitInAccount(ledger: seq<Entry>, person: string, currency: string, from: nat, until: nat,
      unit: string)
    requires from <= until
    ensures TL.SumOver(TL.OfUnit(unit), Mine(ledger, Key(person, currency), from, until))
         == Balance(ledger, Account(person, currency, OfUnit(unit), until))
            - Balance(ledger, Account(person, currency, OfUnit(unit), from))
  {
    hide Mine, TL.SumOver;
    if ledger == [] {
      NoneMine(Key(person, currency), from, until, TL.OfUnit(unit));
    } else {
      UnitInAccount(ledger[..|ledger| - 1], person, currency, from, until, unit);
      OneMoreMine(ledger, Key(person, currency), from, until, TL.OfUnit(unit));
    }
  }

  lemma {:induction false} NothingBeforeDayZero(ledger: seq<Entry>, a: Account)
    requires a.until == 0
    ensures Balance(ledger, a) == 0
  {
    if ledger != [] { NothingBeforeDayZero(ledger[..|ledger| - 1], a); }
  }

  /** The statement of a lessor and currency, from the entries of the ledger. */
  lemma StatementInAccount(input: CycleInput, ledger: seq<Entry>, person: string, currency: string, t: EntryType)
    requires input.period <= input.next
    ensures var s := StatementFor(input, ledger, Key(person, currency));
            var at := (f: Filter, until: nat) => Balance(ledger, Account(person, currency, f, until));
            && s.closing == at(Everything, input.next)
            && TL.TypeTotal(s.totals, t) == at(OfType(t), input.next) - at(OfType(t), input.period)
            && s.opening == at(Everything, input.period) + at(OfType(SaldoInicial), input.next)
                            - at(OfType(SaldoInicial), input.period)
  {
    hide T.StatementOf, Mine, Balance, TL.SumOver;
    var key := Key(person, currency);
    var before, during := Mine(ledger, key, 0, input.period), Mine(ledger, key, input.period, input.next);
    MineInAccount(ledger, person, currency, 0, input.period, t);
    MineInAccount(ledger, person, currency, input.period, input.next, t);
    MineInAccount(ledger, person, currency, input.period, input.next, SaldoInicial);
    NothingBeforeDayZero(ledger, Account(person, currency, Everything, 0));
    TL.StatementTotals(0, before);
    var previousClosing := if before == [] then 0 else T.StatementOf(0, before).closing;
    assert previousClosing == TL.SumOver(TL.Amount, before) by { if before == [] { NoEntries(); } }
    TL.StatementTotals(previousClosing, during);
    OpeningIsInitial(during);
  }

  lemma NoEntries()
    ensures TL.SumOver(TL.Amount, []) == 0
  {
  }

  lemma {:induction false} OpeningIsInitial(es: seq<T.Entry>)
    ensures TL.SumOver(TL.Opening, es) == TL.SumOver(TL.OfType(SaldoInicial), es)
  {
    if es != [] { OpeningIsInitial(es[..|es| - 1]); }
  }

  /** Whose statements a cycle has: those with any entry. */
  lemma {:induction false} KeysAreTheAccounts(ledger: seq<Entry>, person: string, currency: string)
    ensures Key(person, currency) in Keys(ledger) <==>
              exists i :: 0 <= i < |ledger| && ledger[i].lessor == person && ledger[i].currency == currency
    ensures Key(person, currency) !in Keys(ledger) ==>
              forall f, until :: Balance(ledger, Account(person, currency, f, until)) == 0
  {
    if ledger != [] {
      var n := |ledger| - 1;
      KeysAreTheAccounts(ledger[..n], person, currency);
      if i :| 0 <= i < |ledger| && ledger[i].lessor == person && ledger[i].currency == currency {
        if i < n { assert ledger[..n][i] == ledger[i]; }
      }
    }
  }

  /**
    The statement of each lessor and currency of a cycle. It closes with everything the cycle leaves in its
    account before the next month: its own balances of the settled payments, its compensations, its parts of the
    bills, charges and fees, its payouts and its opening balances. It opens with what was left before the month,
    and its total of each entry type is what the month left. Without a statement, nothing is left.
  */
  lemma StatementOfEachLessor(input: CycleInput, person: string, currency: string, t: EntryType)
    requires input.period <= input.next && RunOf(input).Ok?
    ensures var key := Key(person, currency);
            var left := (f: Filter, until: nat) => Left(input, Account(person, currency, f, until));
            && (key in RunOf(input).value ==>
                  var s := RunOf(input).value[key];
                  && s.closing == left(Everything, input.next)
                  && TL.TypeTotal(s.totals, t) == left(OfType(t), input.next) - left(OfType(t), input.period)
                  && s.opening == left(Everything, input.period) + left(OfType(SaldoInicial), input.next)
                                  - left(OfType(SaldoInicial), input.period))
            && (key !in RunOf(input).value ==> left(Everything, input.next) == 0)
  {
    hide LedgerOf, StatementFor, Balance, Left, Keys, TL.TypeTotal;
    var ledger := LedgerOf(input).value;
    KeysAreTheAccounts(ledger, person, currency);
    LedgerInAccount(input, Account(person, currency, Everything, input.next));
    LedgerInAccount(input, Account(person, currency, Everything, input.period));
    LedgerInAccount(input, Account(person, currency, OfType(t), input.next));
    LedgerInAccount(input, Account(person, currency, OfType(t), input.period));
    LedgerInAccount(input, Account(person, currency, OfType(SaldoInicial), input.next));
    LedgerInAccount(input, Account(person, currency, OfType(SaldoInicial), input.period));
    StatementInAccount(input, ledger, person, currency, t);
  }

  /**
    The groups of that statement: each unit's net is what the month left the lessor of it, and a unit with no group
    has left nothing.
  */
  lemma UnitsOfEachLessor(input: CycleInput, person: string, currency: string, unit: string)
    requires input.period <= input.next && RunOf(input).Ok? && Key(person, currency) in RunOf(input).value
    ensures var groups := RunOf(input).value[Key(person, currency)].totals.groups;
            var left := Left(input, Account(person, currency, OfUnit(unit), input.next))
                        - Left(input, Account(person, currency, OfUnit(unit), input.period));
            && (forall g :: g in groups && g.propertyId == unit ==> g.net == left)
            && (!TL.HasGroup(groups, unit) ==> left == 0)
  {
    hide LedgerOf, Balance, Left, Keys, Mine, T.StatementOf, TL.HasGroup, TL.SumOver;
    var ledger, key := LedgerOf(input).value, Key(person, currency);
    LedgerInAccount(input, Account(person, currency, OfUnit(unit), input.next));
    LedgerInAccount(input, Account(person, currency, OfUnit(unit), input.period));
    var before, during := Mine(ledger, key, 0, input.period), Mine(ledger, key, input.period, input.next);
    UnitInAccount(ledger, person, currency, input.period, input.next, unit);
    TL.GroupOfEachUnit(if before == [] then 0 else T.StatementOf(0, before).closing, during, unit);
  }
}
