/**
  What a settled payment says of each destination and each person: the buckets line by line, the commission,
  whose each position is and what it holds in each flow, the compensations, and which error refuses what.
*/
module SettlementMeaning {
  import opened Money
  import opened Rounding
  import opened Settlement
  import opened SettlementLaws
  import opened SettlementLosses
  import opened Sums
  import opened Wrappers

  // ─── Lines ────────────────────────────────────────────

  function Magnitude(x: int): nat { if x >= 0 then x else -x }

  /** What the lines charge for a destination, and what its discounts take off, however they are signed. */
  function ChargedFor(lines: seq<Line>, d: Beneficiary): int {
    if lines == [] then 0
    else
      var l := lines[|lines| - 1];
      ChargedFor(lines[..|lines| - 1], d) + (if l.beneficiary == d && l.kind != Descuento then l.amount else 0)
  }

  function DiscountedFor(lines: seq<Line>, d: Beneficiary): nat {
    if lines == [] then 0
    else
      var l := lines[|lines| - 1];
      DiscountedFor(lines[..|lines| - 1], d)
        + (if l.beneficiary == d && l.kind == Descuento then Magnitude(l.amount) else 0)
  }

  function DueTo(lines: seq<Line>, d: Beneficiary): int { ChargedFor(lines, d) - DiscountedFor(lines, d) }

  /** The base of the commission: the commissionable lines, whoever they are for. */
  function CommissionableOf(lines: seq<Line>): int {
    if lines == [] then 0
    else
      var l := lines[|lines| - 1];
      CommissionableOf(lines[..|lines| - 1])
        + (if !l.commissionable then 0 else if l.kind != Descuento then l.amount else 0 - Magnitude(l.amount))
  }

  lemma {:induction false} PickedIsDue(lines: seq<Line>, d: Beneficiary)
    ensures SumPicked(lines, For(d)) == DueTo(lines, d)
  {
    if lines != [] {
      var n := |lines| - 1;
      PickedIsDue(lines[..n], d);
      assert Picked(lines, For(d))[..n] == Picked(lines[..n], For(d));
    }
  }

  lemma {:induction false} PickedIsCommissionable(lines: seq<Line>)
    ensures SumPicked(lines, Commissionable) == CommissionableOf(lines)
  {
    if lines != [] {
      var n := |lines| - 1;
      PickedIsCommissionable(lines[..n]);
      assert Picked(lines, Commissionable)[..n] == Picked(lines[..n], Commissionable);
    }
  }

  // ─── Commission and buckets ───────────────────────────

  predicate Acceptable(base: int, c: Commission) {
    0 <= c.percentage <= FULL_PCT && base >= 0 && c.fixedAmount >= 0 && c.adminFee >= 0
  }

  /** x is the commission on a base: the fixed amount, the percentage, or both. */
  predicate IsCommission(x: int, base: int, c: Commission) {
    match c.kind
    case FixedAmount => x == c.fixedAmount
    case FixedPercent => IsPercentage(x, base, c.percentage)
    case Mixed => IsPercentage(x - c.fixedAmount, base, c.percentage)
  }

  lemma CommissionIs(base: int, c: Commission, x: int)
    ensures CalculateCommission(base, c).Some? <==> Acceptable(base, c)
    ensures CalculateCommission(base, c).Some? ==>
              var a := CalculateCommission(base, c).value;
              IsCommission(a.commission, base, c) && a.adminFee == c.adminFee
              && (IsCommission(x, base, c) ==> x == a.commission)
  {
    if Acceptable(base, c) {
      hide RoundDiv;
      MulLe(0, base, c.percentage);
      RoundDivHalfAway(base * c.percentage, FULL_PCT);
      var part := if c.kind == Mixed then x - c.fixedAmount else x;
      if IsPercentage(part, base, c.percentage) { RoundedIs(base * c.percentage, FULL_PCT, part); }
    }
  }

  predicate ForeignLine(lines: seq<Line>, currency: string) {
    exists i :: 0 <= i < |lines| && lines[i].currency.Some? && lines[i].currency.value != currency
                && lines[i].currency.value != ""
  }

  function FeeOf(commission: Option<Commission>): int {
    if commission.Some? then commission.value.adminFee else 0
  }

  /**
    What each destination has of the whole liquidation: the agency its lines, the commission and the
    administrative fee; the public bodies their lines; the lessors theirs, less the commission and the fee.
  */
  lemma BucketsAre(lines: seq<Line>, commission: Option<Commission>, currency: string)
    requires SettlementBuckets(lines, commission, currency).Ok?
    ensures var b := SettlementBuckets(lines, commission, currency).value;
            && !ForeignLine(lines, currency)
            && b.commissionBase == CommissionableOf(lines)
            && b.adminFee == FeeOf(commission)
            && (if commission.None? then b.commission == 0
                else Acceptable(b.commissionBase, commission.value)
                     && IsCommission(b.commission, b.commissionBase, commission.value))
            && b.agencyLines == DueTo(lines, Inmobiliaria)
            && b.agency == DueTo(lines, Inmobiliaria) + b.commission + b.adminFee
            && b.ente == DueTo(lines, Ente)
            && b.lessors == DueTo(lines, Locador) - b.commission - b.adminFee
            && b.total == DueTo(lines, Inmobiliaria) + DueTo(lines, Ente) + DueTo(lines, Locador)
            && b.agency >= 0 && b.ente >= 0 && b.lessors >= 0
  {
    hide CalculateCommission, SumPicked, ChargedFor, DiscountedFor, CommissionableOf;
    BucketsAreWhole(lines, commission, currency);
    PickedAll(lines);
    if commission.Some? { CommissionIs(CommissionableOf(lines), commission.value, 0); }
  }

  lemma PickedAll(lines: seq<Line>)
    ensures SumPicked(lines, For(Inmobiliaria)) == DueTo(lines, Inmobiliaria)
    ensures SumPicked(lines, For(Ente)) == DueTo(lines, Ente)
    ensures SumPicked(lines, For(Locador)) == DueTo(lines, Locador)
    ensures SumPicked(lines, Commissionable) == CommissionableOf(lines)
  {
    PickedIsDue(lines, Inmobiliaria);
    PickedIsDue(lines, Ente);
    PickedIsDue(lines, Locador);
    PickedIsCommissionable(lines);
  }

  /** The commission leaves no destination with a negative amount. */
  predicate Fits(lines: seq<Line>, commission: int, fee: int) {
    && DueTo(lines, Inmobiliaria) + commission + fee >= 0 && DueTo(lines, Ente) >= 0
    && DueTo(lines, Locador) - commission - fee >= 0
  }

  /** Which liquidations have no buckets, and with which error. */
  lemma NoBucketsExactlyWhen(lines: seq<Line>, commission: Option<Commission>, currency: string)
    ensures SettlementBuckets(lines, commission, currency) == Err(CurrencyMismatch) <==> ForeignLine(lines, currency)
    ensures SettlementBuckets(lines, commission, currency).Ok? <==>
              && !ForeignLine(lines, currency)
              && (if commission.None? then Fits(lines, 0, 0)
                  else Acceptable(CommissionableOf(lines), commission.value)
                       && exists x :: IsCommission(x, CommissionableOf(lines), commission.value)
                                      && Fits(lines, x, commission.value.adminFee))
  {
    hide CalculateCommission, SumPicked, DueTo, CommissionableOf, IsCommission;
    PickedAll(lines);
    if commission.Some? {
      var base := CommissionableOf(lines);
      var a := CalculateCommission(base, commission.value);
      CommissionIs(base, commission.value, if a.Some? then a.value.commission else 0);
      forall x | IsCommission(x, base, commission.value) && Acceptable(base, commission.value)
        ensures a.Some? && x == a.value.commission
      {
        CommissionIs(base, commission.value, x);
      }
    }
  }

  // ─── Who passes ───────────────────────────────────────

  /** The percentages of the lessors, in their order. */
  function Percentages(lessors: seq<Lessor>): seq<int> {
    seq(|lessors|, i requires 0 <= i < |lessors| => lessors[i].payoutPct)
  }

  /** Percentages that can split an amount. */
  predicate ValidPercentages(lessors: seq<Lessor>) { ValidWeights(Percentages(lessors)) }

  predicate AddUpTo100(lessors: seq<Lessor>) {
    lessors != [] && Sum(Percentages(lessors)) == 1_000_000
    && forall i :: 0 <= i < |lessors| ==> lessors[i].payoutPct >= 0
  }

  predicate Named(input: Input) { input.receiverPersonId.Some? && input.receiverPersonId.value != "" }

  predicate Direct(input: Input) { input.receivedBy == ReceivedByLessor }

  /** Nothing refuses the payment before the lessors are looked at. */
  predicate AmountsPass(input: Input) {
    && input.amount > 0 && input.paidBefore >= 0
    && SettlementBuckets(input.lines, input.commission, input.currency).Ok?
    && input.paidBefore + input.amount <= SettlementBuckets(input.lines, input.commission, input.currency).value.total
    && !(input.inCustody && Direct(input))
  }

  /** Each error, and exactly when it refuses the payment: the first one that applies, in this order. */
  lemma RefusedExactlyWhen(input: Input)
    ensures var buckets := SettlementBuckets(input.lines, input.commission, input.currency);
            var r, valid := Settle(input), input.amount > 0 && input.paidBefore >= 0;
            && (r == Err(InvalidAmount) <==> !valid)
            && (r == Err(CurrencyMismatch) <==> valid && buckets == Err(CurrencyMismatch))
            && (r == Err(NegativeShare) <==> valid && buckets == Err(NegativeShare))
            && (r == Err(ExceedsTotal) <==>
                  valid && buckets.Ok? && input.paidBefore + input.amount > buckets.value.total)
            && (r == Err(CustodyRequiresAgency) <==>
                  valid && buckets.Ok? && input.paidBefore + input.amount <= buckets.value.total
                  && input.inCustody && Direct(input))
            && (r == Err(LessorShares) <==>
                  AmountsPass(input)
                  && ((buckets.value.lessors > 0 && !AddUpTo100(input.lessors))
                      || (Direct(input) && !Named(input) && input.lessors == [])))
  {
    hide Settle, PartsOf, SettlementBuckets, AmountsPass, AddUpTo100;
    PartsRefused(input);
    SettleErrors(input);
  }

  /** A payment that is split can only fail in the split of what is owed; otherwise the error is the split's. */
  lemma SettleErrors(input: Input)
    ensures PartsOf(input).Err? ==> Settle(input) == Err(PartsOf(input).error)
    ensures PartsOf(input).Ok? && Settle(input).Err? ==> Settle(input).error.Allocation?
  {
    hide PartsOf, SettlementBuckets;
    SplitsExactlyTheChecked(input);
    if PartsOf(input).Ok? { SettlesExactlyWhen(input); }
  }

  lemma PartsRefused(input: Input)
    ensures var buckets := SettlementBuckets(input.lines, input.commission, input.currency);
            var r, valid := PartsOf(input), input.amount > 0 && input.paidBefore >= 0;
            && (r == Err(InvalidAmount) <==> !valid)
            && (r == Err(CurrencyMismatch) <==> valid && buckets == Err(CurrencyMismatch))
            && (r == Err(NegativeShare) <==> valid && buckets == Err(NegativeShare))
            && (r == Err(ExceedsTotal) <==>
                  valid && buckets.Ok? && input.paidBefore + input.amount > buckets.value.total)
            && (r == Err(CustodyRequiresAgency) <==>
                  valid && buckets.Ok? && input.paidBefore + input.amount <= buckets.value.total
                  && input.inCustody && Direct(input))
            && (r == Err(LessorShares) <==>
                  AmountsPass(input)
                  && ((buckets.value.lessors > 0 && !AddUpTo100(input.lessors))
                      || (Direct(input) && !Named(input) && input.lessors == [])))
  {
    hide CoveredAt, LessorSplit, SettlementBuckets, SharesAddUp, AddUpTo100, Differences;
    SamePercentages(input.lessors);
    SplitsExactlyTheChecked(input);
    if AmountsPass(input) { CoversExist(input); }
  }

  lemma SamePercentages(lessors: seq<Lessor>)
    ensures Percentages(lessors) == Weights(lessors)
    ensures SharesAddUp(Weights(lessors)) <==> AddUpTo100(lessors)
  {
    var ws := Weights(lessors);
    assert Percentages(lessors) == ws;
    assert (forall i :: 0 <= i < |ws| ==> ws[i] >= 0)
      <==> forall i :: 0 <= i < |lessors| ==> lessors[i].payoutPct >= 0 by {
      if forall i :: 0 <= i < |ws| ==> ws[i] >= 0 {
        forall i | 0 <= i < |lessors| ensures lessors[i].payoutPct >= 0 { assert ws[i] >= 0; }
      }
    }
  }

  lemma CoversExist(input: Input)
    requires AmountsPass(input)
    ensures var b := SettlementBuckets(input.lines, input.commission, input.currency).value;
            var mode := input.options.partialAllocation;
            CoveredAt(input.paidBefore, b, mode).Ok? && CoveredAt(input.paidBefore + input.amount, b, mode).Ok?
  {
    hide CoveredAt, SettlementBuckets;
    BucketsAreWhole(input.lines, input.commission, input.currency);
    var b := SettlementBuckets(input.lines, input.commission, input.currency).value;
    CoveredAtIsASplit(input.paidBefore, b, input.options.partialAllocation);
    CoveredAtIsASplit(input.paidBefore + input.amount, b, input.options.partialAllocation);
  }

  // ─── Whose each position is ───────────────────────────

  /** A lessor's part of an amount by its percentage. */
  function PartOfLessor(amount: int, lessors: seq<Lessor>, i: nat): int
    requires i < |lessors| && (amount != 0 ==> ValidPercentages(lessors))
  {
    if amount == 0 then 0 else Allocate(amount, Percentages(lessors))[i]
  }

  /** What a payment gives each destination: what is covered after it less what was covered before it. */
  lemma PaymentIsTheDifference(input: Input)
    requires Settle(input).Ok?
    ensures AmountsPass(input)
    ensures var b := SettlementBuckets(input.lines, input.commission, input.currency).value;
            var mode, s := input.options.partialAllocation, Settle(input).value;
            var before := CoveredAt(input.paidBefore, b, mode);
            var after := CoveredAt(input.paidBefore + input.amount, b, mode);
            && s.buckets == b && before.Ok? && after.Ok?
            && s.payment.agency == after.value.agency - before.value.agency
            && s.payment.ente == after.value.ente - before.value.ente
            && s.payment.lessors == after.value.lessors - before.value.lessors
  {
    hide CoveredAt, SettlementBuckets, PartsOf, Proportional;
    SettleIsChecked(input);
    SplitsExactlyTheChecked(input);
  }

  /** What the lessors together are covered, at an amount paid. */
  function LessorsCovered(input: Input, paid: int): int
    requires AmountsPass(input) && (paid == input.paidBefore || paid == input.paidBefore + input.amount)
  {
    CoversExist(input);
    CoveredAt(paid, SettlementBuckets(input.lines, input.commission, input.currency).value,
              input.options.partialAllocation).value.lessors
  }

  /** The i-th position is the i-th lessor's, with the difference of its parts of what the lessors are covered. */
  lemma PositionIsTheLessors(input: Input, i: nat)
    requires Settle(input).Ok? && i < |input.lessors|
    ensures var s := Settle(input).value;
            |s.positions| >= |input.lessors| && s.positions[i].personId == input.lessors[i].personId
    ensures AmountsPass(input)
    ensures var before := LessorsCovered(input, input.paidBefore);
            var after := LessorsCovered(input, input.paidBefore + input.amount);
            && (before != 0 || after != 0 ==> ValidPercentages(input.lessors))
            && Settle(input).value.positions[i].share
               == PartOfLessor(after, input.lessors, i) - PartOfLessor(before, input.lessors, i)
  {
    hide PartsOf, Proportional, CoveredAt, SettlementBuckets, Allocate;
    PaymentIsTheDifference(input);
    SettleIsChecked(input);
    SplitsExactlyTheChecked(input);
    PersonAndShare(input, i);
    SamePercentages(input.lessors);
    ProportionalPart(LessorsCovered(input, input.paidBefore), input.lessors, i);
    ProportionalPart(LessorsCovered(input, input.paidBefore + input.amount), input.lessors, i);
  }

  lemma PersonAndShare(input: Input, i: nat)
    requires Settle(input).Ok? && i < |input.lessors|
    ensures var s := Settle(input).value;
            |s.positions| >= |input.lessors| && s.positions[i].personId == input.lessors[i].personId
            && PartsOf(input).Ok? && s.positions[i].share == PartsOf(input).value.shares[i]
  {
    hide PartsOf, Proportional;
  }

  lemma ProportionalPart(amount: int, lessors: seq<Lessor>, i: nat)
    requires i < |lessors| && Proportional(amount, Weights(lessors)).Ok?
    ensures amount != 0 ==> ValidPercentages(lessors)
    ensures Proportional(amount, Weights(lessors)).value[i] == PartOfLessor(amount, lessors, i)
  {
    hide Allocate;
    SamePercentages(lessors);
    if amount != 0 { SumNonNegative(Percentages(lessors)); }
  }

  // ─── What each position holds ─────────────────────────

  /** Received by the agency: nobody has anything in hand, and each is owed its share, in custody or not. */
  lemma AgencyPositions(input: Input)
    requires Settle(input).Ok? && !Direct(input)
    ensures var s := Settle(input).value;
            && |s.positions| == |input.lessors| && s.compensations == [] && s.currency == input.currency
            && s.flow == (if input.inCustody then FlowCustodia else FlowInmobiliaria) && s.enteHeldByAgency
            && (forall i :: 0 <= i < |s.positions| ==>
                  && s.positions[i].received == 0 && s.positions[i].balance == s.positions[i].share
                  && s.positions[i].custody == if input.inCustody then s.positions[i].share else 0)
            && s.custodyTotal == (if input.inCustody then s.payment.lessors else 0)
            && s.agencyCash == input.amount - s.custodyTotal
  {
    hide PartsOf, Proportional, Sum, SettlementBuckets, CoveredAt;
    SettleIsChecked(input);
    SplitsExactlyTheChecked(input);
    OpeningSums(input.lessors, PartsOf(input).value.shares, FlowOf(input));
  }

  /** The agency's side of a payment a lessor receives: nothing in its till, and the bodies' part kept or not. */
  lemma DirectPayment(input: Input)
    requires Settle(input).Ok? && Direct(input)
    ensures var s := Settle(input).value;
            && s.flow == FlowLocador && s.currency == input.currency && s.agencyCash == 0 && s.custodyTotal == 0
            && (s.enteHeldByAgency <==> input.options.lessorDirectOwes == TodoLoAjeno)
            && (forall i :: 0 <= i < |s.positions| ==> s.positions[i].custody == 0)
  {
    hide PartsOf, Proportional, Sum;
    var s := Settle(input).value;
    SumZero(Custodies(s.positions));
  }

  /** What is not the lessors' in a direct payment: owed to the agency, or kept by them for the bodies. */
  function OwedToAgency(input: Input, payment: Split): int {
    payment.agency + (if input.options.lessorDirectOwes == TodoLoAjeno then payment.ente else 0)
  }

  function KeptForBodies(input: Input, payment: Split): int {
    if input.options.lessorDirectOwes == SoloInmobiliaria then payment.ente else 0
  }

  /** Nobody named: each lessor took its share and its part of the rest, and owes its part of what is owed. */
  lemma EachTookItsPart(input: Input, i: nat)
    requires Settle(input).Ok? && Direct(input) && !Named(input) && i < |input.lessors|
    ensures var s := Settle(input).value;
            var owed, kept := OwedToAgency(input, s.payment), KeptForBodies(input, s.payment);
            && |s.positions| == |input.lessors| && s.compensations == []
            && (owed != 0 || kept != 0 ==> ValidPercentages(input.lessors))
            && s.positions[i].balance == -PartOfLessor(owed, input.lessors, i)
            && s.positions[i].received
               == s.positions[i].share + PartOfLessor(owed, input.lessors, i) + PartOfLessor(kept, input.lessors, i)
  {
    hide PartsOf, Proportional, Allocate, Sum, SettledWith;
    var payment := PartsOf(input).value.payment;
    SettledParts(input);
    ProportionalPart(OwedToAgency(input, payment), input.lessors, i);
    ProportionalPart(KeptForBodies(input, payment), input.lessors, i);
  }

  lemma SomebodyReceived(input: Input)
    requires Settle(input).Ok? && Direct(input) && !Named(input)
    ensures input.lessors != []
  {
    hide Settle, PartsOf;
    SettleIsChecked(input);
  }

  lemma SettledParts(input: Input)
    requires PartsOf(input).Ok?
    ensures forall ps, cs {:trigger SettledWith(input, PartsOf(input).value, ps, cs)} ::
              var s := SettledWith(input, PartsOf(input).value, ps, cs);
              s.positions == ps && s.compensations == cs && s.payment == PartsOf(input).value.payment
  {
    hide PartsOf;
  }

  /** The first lessor of that name; their number when there is none. */
  function FirstNamed(lessors: seq<Lessor>, id: string): (k: nat)
    ensures k <= |lessors| && (k < |lessors| ==> lessors[k].personId == id)
    ensures forall j :: 0 <= j < k ==> lessors[j].personId != id
  {
    if lessors == [] || lessors[0].personId == id then 0 else 1 + FirstNamed(lessors[1..], id)
  }

  /**
    One lessor named: it has the whole payment and owes all of it but its share and what it keeps for the bodies;
    the others have nothing in hand and are owed their shares. Someone who is no lessor comes last, with no share.
  */
  lemma OneTookItAll(input: Input)
    requires Settle(input).Ok? && Direct(input) && Named(input)
    ensures var s, id := Settle(input).value, input.receiverPersonId.value;
            var k, n := FirstNamed(input.lessors, id), |input.lessors|;
            && |s.positions| == (if k < n then n else n + 1)
            && s.positions[k].personId == id && (k == n ==> s.positions[n].share == 0)
            && s.positions[k].received == input.amount
            && s.positions[k].balance == s.positions[k].share + KeptForBodies(input, s.payment) - input.amount
            && (forall i :: 0 <= i < |s.positions| && i != k ==>
                  s.positions[i].received == 0 && s.positions[i].balance == s.positions[i].share)
  {
    hide PartsOf, Sum, SettledWith, CompensationsFrom;
    var id := input.receiverPersonId.value;
    SettledParts(input);
    FirstIsTheHolder(input.lessors, PartsOf(input).value.shares, FlowOf(input), id);
  }

  lemma {:induction false} FirstIsTheHolder(lessors: seq<Lessor>, shares: seq<int>, flow: Flow, id: string)
    requires |shares| == |lessors|
    ensures HolderIndex(OpeningPositions(lessors, shares, flow), id) == FirstNamed(lessors, id)
  {
    var opening := OpeningPositions(lessors, shares, flow);
    if lessors != [] {
      FirstIsTheHolder(lessors[1..], shares[1..], flow, id);
      assert opening[1..] == OpeningPositions(lessors[1..], shares[1..], flow);
    }
  }

  // ─── Compensations ────────────────────────────────────

  /** The compensations are, in order, one for each of these positions: those with a share, but the receiver's. */
  ghost predicate CompensatesAt(at: seq<nat>, cs: seq<Compensation>, ps: seq<Position>, k: nat, id: string) {
    && |at| == |cs| && (forall i, j :: 0 <= i < j < |at| ==> at[i] < at[j])
    && (forall j :: 0 <= j < |at| ==>
          at[j] < |ps| && at[j] != k && ps[at[j]].share > 0
          && cs[j] == Compensation(id, ps[at[j]].personId, ps[at[j]].share))
    && (forall i: nat :: i < |ps| && i != k && ps[i].share > 0 ==> i in at)
  }

  lemma {:induction false} CompensationsFromAt(ps: seq<Position>, k: nat, id: string) returns (at: seq<nat>)
    ensures CompensatesAt(at, CompensationsFrom(ps, k, id), ps, k, id)
  {
    at := [];
    if ps != [] {
      hide CompensatesAt;
      var n := |ps| - 1;
      at := CompensationsFromAt(ps[..n], k, id);
      var cs := CompensationsFrom(ps[..n], k, id);
      if n != k && ps[n].share > 0 {
        OneMore(at, cs, ps, k, id);
        at := at + [n];
      } else {
        NoneMore(at, cs, ps, k, id);
        assert cs + [] == cs;
      }
    }
  }

  lemma OneMore(at: seq<nat>, cs: seq<Compensation>, ps: seq<Position>, k: nat, id: string)
    requires ps != [] && CompensatesAt(at, cs, ps[..|ps| - 1], k, id)
    requires |ps| - 1 != k && ps[|ps| - 1].share > 0
    ensures var p := ps[|ps| - 1];
            CompensatesAt(at + [|ps| - 1], cs + [Compensation(id, p.personId, p.share)], ps, k, id)
  {
    var n := |ps| - 1;
    var all := at + [n];
    forall i: nat | i < |ps| && i != k && ps[i].share > 0 ensures i in all {
      if i < n {
        assert ps[..n][i] == ps[i];
        assert i in at;
      } else {
        assert all[|at|] == i;
      }
    }
  }

  lemma NoneMore(at: seq<nat>, cs: seq<Compensation>, ps: seq<Position>, k: nat, id: string)
    requires ps != [] && CompensatesAt(at, cs, ps[..|ps| - 1], k, id)
    requires |ps| - 1 == k || ps[|ps| - 1].share <= 0
    ensures CompensatesAt(at, cs, ps, k, id)
  {
    var n := |ps| - 1;
    forall i: nat | i < |ps| && i != k && ps[i].share > 0 ensures i in at {
      assert ps[..n][i] == ps[i];
    }
  }

  lemma CompensationsAre(input: Input)
    requires Settle(input).Ok? && Direct(input) && Named(input)
    ensures var s, id := Settle(input).value, input.receiverPersonId.value;
            exists at :: CompensatesAt(at, s.compensations, s.positions, FirstNamed(input.lessors, id), id)
  {
    hide PartsOf, Sum, SettledWith, CompensationsFrom, CompensatesAt;
    var id, s := input.receiverPersonId.value, Settle(input).value;
    SettledParts(input);
    var shares := PartsOf(input).value.shares;
    FirstIsTheHolder(input.lessors, shares, FlowOf(input), id);
    var all := WithHolder(OpeningPositions(input.lessors, shares, FlowOf(input)), id);
    var k := FirstNamed(input.lessors, id);
    var at := CompensationsFromAt(all, k, id);
    SameShares(at, s.compensations, all, s.positions, k, id);
  }

  /** Writing what the receiver has changes nobody's name or share. */
  lemma SameShares(at: seq<nat>, cs: seq<Compensation>, a: seq<Position>, b: seq<Position>, k: nat, id: string)
    requires CompensatesAt(at, cs, a, k, id) && |a| == |b|
    requires forall i :: 0 <= i < |a| ==> a[i].personId == b[i].personId && a[i].share == b[i].share
    ensures CompensatesAt(at, cs, b, k, id)
  {
  }
}
