/**
  Exactly when a payment takes a cent back from a destination or from a lessor, and payments that do.
*/
module SettlementLosses {
  import opened Money
  import opened Rounding
  import opened Settlement
  import opened SettlementLaws
  import opened Sums
  import opened Wrappers

  // ─── Destinations ─────────────────────────────────────

  function PartOf(s: Split, d: Beneficiary): int {
    match d
    case Inmobiliaria => s.agency
    case Ente => s.ente
    case Locador => s.lessors
  }

  function DestinationWeights(b: Buckets): seq<int> { [b.agency, b.ente, b.lessors] }

  function PlaceOf(d: Beneficiary): nat {
    match d
    case Inmobiliaria => 0
    case Ente => 1
    case Locador => 2
  }

  /**
    A payment takes a cent back from a destination exactly in proportional mode, when raising the total
    from what was paid before to what is paid after takes a cent from that part of the three buckets.
  */
  lemma DestinationLosesExactlyWhen(paid: int, paid': int, b: Buckets, mode: PartialAllocation, d: Beneficiary)
    requires Whole(b) && 0 <= paid <= paid' <= b.total
    ensures CoveredAt(paid, b, mode).Ok? && CoveredAt(paid', b, mode).Ok?
    ensures b.total > 0 <==> ValidWeights(DestinationWeights(b))
    ensures PartOf(PaymentParts(CoveredAt(paid, b, mode).value, CoveredAt(paid', b, mode).value), d) < 0 <==>
              mode == Proporcional && b.total > 0 && LosesACent(paid, paid', DestinationWeights(b), PlaceOf(d))
  {
    hide Allocate, CoveredAt, LosesACent;
    var ws := DestinationWeights(b);
    SumOfThree(ws);
    CoveredAtIsASplit(paid, b, mode);
    CoveredAtIsASplit(paid', b, mode);
    if mode == Proporcional && b.total > 0 {
      ProportionalCover(paid, b);
      ProportionalCover(paid', b);
      LosesACentExactlyWhen(paid, paid', ws, PlaceOf(d));
    } else {
      DestinationLosesAtMostACent(paid, paid', b, mode);
    }
  }

  // ─── Lessors ──────────────────────────────────────────

  /** What the lessors have been given together before and after a payment. */
  function LessorsBefore(input: Input): int
    requires PartsOf(input).Ok?
  {
    PartsOf(input).value.lessorsBefore
  }

  function LessorsAfter(input: Input): int
    requires PartsOf(input).Ok?
  {
    PartsOf(input).value.lessorsAfter
  }

  /** The shares of a payment, from the cumulative splits: none when nothing is the lessors'. */
  lemma SharesAre(input: Input, i: nat)
    requires Settle(input).Ok? && i < |input.lessors|
    ensures PartsOf(input).Ok?
    ensures var parts, ws := PartsOf(input).value, Weights(input.lessors);
            && parts.payment.lessors == LessorsAfter(input) - LessorsBefore(input)
            && Sum(parts.shares) == parts.payment.lessors && parts.buckets.lessors >= 0
            && (parts.buckets.lessors > 0 ==> ValidWeights(ws))
            && (parts.buckets.lessors == 0 ==> parts.shares[i] == 0 && parts.payment.lessors == 0)
            && (parts.buckets.lessors > 0 ==>
                  parts.shares[i] == Allocate(LessorsAfter(input), ws)[i] - Allocate(LessorsBefore(input), ws)[i])
  {
    hide Settle, CoveredAt, Proportional, SettlementBuckets, Allocate;
    SettleIsChecked(input);
    SplitsExactlyTheChecked(input);
    var b, mode, ws := PartsOf(input).value.buckets, input.options.partialAllocation, Weights(input.lessors);
    CoveredAtIsASplit(input.paidBefore, b, mode);
    CoveredAtIsASplit(input.paidBefore + input.amount, b, mode);
    if b.lessors > 0 {
      SharesAreValid(ws);
      ProportionalIsAllocate(LessorsBefore(input), ws);
      ProportionalIsAllocate(LessorsAfter(input), ws);
    } else {
      NothingForNobody(ws);
    }
  }

  lemma ProportionalIsAllocate(value: int, ws: seq<int>)
    requires ValidWeights(ws)
    ensures Proportional(value, ws) == Ok(Allocate(value, ws))
  {
    hide Allocate;
    AllocateZero(ws);
    AllocationOfValid(value, ws);
  }

  /** A part of a split: its truncated quota, and a cent when its remainder takes one. */
  function PartAt(total: int, ws: seq<int>, i: nat): int
    requires ValidWeights(ws) && i < |ws|
  {
    QuotaFloor(total, ws[i], Sum(ws)) + (if TakesACent(total, ws, i) then 1 else 0)
  }

  /**
    A lessor loses a cent exactly when its part of the lessors' amount, by quota and rank, is smaller after
    the payment than before; when the lessors together lose nothing, that is when raising their amount takes
    a cent from its percentage.
  */
  lemma LessorLosesExactlyWhen(input: Input, i: nat)
    requires Settle(input).Ok? && i < |input.lessors|
    ensures PartsOf(input).Ok?
    ensures var parts, ws := PartsOf(input).value, Weights(input.lessors);
            && (parts.buckets.lessors > 0 ==> ValidWeights(ws))
            && (parts.shares[i] < 0 <==>
                  parts.buckets.lessors > 0 && PartAt(LessorsAfter(input), ws, i) < PartAt(LessorsBefore(input), ws, i))
            && (parts.payment.lessors >= 0 ==>
                  (parts.shares[i] < 0 <==>
                    parts.buckets.lessors > 0 && LosesACent(LessorsBefore(input), LessorsAfter(input), ws, i)))
            && (parts.payment.lessors < 0 ==> exists j :: 0 <= j < |parts.shares| && parts.shares[j] == -1)
  {
    hide Settle, PartsOf, Allocate, LosesACent, LessorsBefore, LessorsAfter, TakesACent, QuotaFloor, Sum;
    SharesAre(input, i);
    var parts, ws := PartsOf(input).value, Weights(input.lessors);
    if parts.buckets.lessors > 0 {
      PartByRank(LessorsBefore(input), ws, i);
      PartByRank(LessorsAfter(input), ws, i);
    }
    if parts.payment.lessors >= 0 {
      if parts.buckets.lessors > 0 { LosesACentExactlyWhen(LessorsBefore(input), LessorsAfter(input), ws, i); }
    } else {
      PaymentTakesBackAtMostACent(input);
      if forall j :: 0 <= j < |parts.shares| ==> parts.shares[j] >= 0 {
        SumNonNegative(parts.shares);
      }
    }
  }

  /**
    No lessor ever loses anything when the agency goes first or one of the other two buckets is empty, and
    at most two lessors have a percentage.
  */
  lemma NoLessorLoses(input: Input, a: nat, b: nat)
    requires Settle(input).Ok? && AtMostTwoPositive(Weights(input.lessors), a, b)
    requires var buckets := SettlementBuckets(input.lines, input.commission, input.currency);
             buckets.Ok? ==>
               input.options.partialAllocation == InmobiliariaPrimero
               || buckets.value.agency == 0 || buckets.value.ente == 0 || buckets.value.lessors == 0
    ensures PartsOf(input).Ok? && forall i :: 0 <= i < |input.lessors| ==> PartsOf(input).value.shares[i] >= 0
  {
    hide Settle, PartsOf, Allocate, CoveredAt, SettlementBuckets, LessorsBefore, LessorsAfter, Proportional;
    SettleIsChecked(input);
    SplitsExactlyTheChecked(input);
    var parts, ws := PartsOf(input).value, Weights(input.lessors);
    DestinationLosesAtMostACent(input.paidBefore, input.paidBefore + input.amount, parts.buckets,
                                input.options.partialAllocation);
    forall i: nat | i < |input.lessors| ensures parts.shares[i] >= 0 {
      SharesAre(input, i);
      if parts.buckets.lessors > 0 { AtMostTwoMonotone(LessorsBefore(input), LessorsAfter(input), ws, a, b, i); }
    }
  }

  /** The only lessor of a contract gets the whole of the lessors' part, a lost cent included. */
  lemma OnlyLessorGetsAll(input: Input)
    requires Settle(input).Ok? && |input.lessors| == 1
    ensures PartsOf(input).Ok? && PartsOf(input).value.shares == [PartsOf(input).value.payment.lessors]
  {
    hide Settle, PartsOf, Allocate, LessorsBefore, LessorsAfter;
    SharesAre(input, 0);
    var shares := PartsOf(input).value.shares;
    SumPrefix(shares, 0);
    assert shares[..0] == [] && shares[..1] == shares;
  }

  // ─── Payments that take a cent back ───────────────────

  function LineFor(amount: int, beneficiary: Beneficiary): Line { Line(amount, beneficiary, false, Extra, None) }

  function PaymentInput(lines: seq<Line>, lessors: seq<Lessor>, paidBefore: int, amount: int): Input {
    Input("ARS", lines, None, lessors, paidBefore, amount, ReceivedByAgency, false, None,
        Options(TodoLoAjeno, Proporcional))
  }

  /** Six cents are the agency's, six the public bodies' and two of a single lessor; ten have been paid. */
  function EleventhCent(): Input {
    PaymentInput([LineFor(6, Inmobiliaria), LineFor(6, Ente), LineFor(2, Locador)], [Lessor("l", FULL_PCT)], 10, 1)
  }

  lemma BucketsOfThree(lines: seq<Line>)
    requires |lines| == 3
    requires forall i :: 0 <= i < 3 ==> lines[i].currency == None && !lines[i].kind.Descuento? && lines[i].amount >= 0
                                        && !lines[i].commissionable
    ensures var of := (d: Beneficiary) =>
              (if lines[0].beneficiary == d then lines[0].amount else 0)
              + (if lines[1].beneficiary == d then lines[1].amount else 0)
              + (if lines[2].beneficiary == d then lines[2].amount else 0);
            SettlementBuckets(lines, None, "ARS")
            == Ok(Buckets(lines[0].amount + lines[1].amount + lines[2].amount, 0, 0, 0,
                          of(Inmobiliaria), of(Inmobiliaria),
                          of(Ente), of(Locador)))
  {
    hide Sum;
    SumOfThree(Picked(lines, Every));
    SumOfThree(Picked(lines, Commissionable));
    SumOfThree(Picked(lines, For(Inmobiliaria)));
    SumOfThree(Picked(lines, For(Ente)));
    SumOfThree(Picked(lines, For(Locador)));
  }

  /** A received cent that leaves the lessors, and the only one of them, with one less. */
  lemma PaymentCanTakeACentBack()
    ensures Settle(EleventhCent()).Ok?
    ensures Settle(EleventhCent()).value.payment == Split(1, 1, -1)
    ensures PartsOf(EleventhCent()).Ok? && PartsOf(EleventhCent()).value.shares == [-1]
  {
    var input := EleventhCent();
    var b := Buckets(14, 0, 0, 0, 6, 6, 6, 2);
    hide Allocate, CoveredAt, Proportional, SettlementBuckets, PartsOf;
    BucketsOfThree(input.lines);
    OnlyWeight(input.lessors);
    RaisingTotalCanLowerAPart();
    ProportionalCover(10, b);
    ProportionalCover(11, b);
    SplitsExactlyTheChecked(input);
    AgencyPaymentSettles(input);
    OnlyLessorGetsAll(input);
  }

  lemma OnlyWeight(lessors: seq<Lessor>)
    requires |lessors| == 1 && lessors[0].payoutPct == FULL_PCT
    ensures SharesAddUp(Weights(lessors))
  {
    var ws := Weights(lessors);
    SumPrefix(ws, 0);
    assert ws[..0] == [] && ws[..1] == ws;
  }

  lemma AgencyPaymentSettles(input: Input)
    requires PartsOf(input).Ok? && FlowOf(input) != FlowLocador
    ensures Settle(input).Ok? && Settle(input).value.payment == PartsOf(input).value.payment
  {
    hide PartsOf;
  }

  /** Fourteen cents are all of three lessors, with 43 %, 43 % and 14 %; ten have been paid. */
  function EleventhCentOfThree(): Input {
    PaymentInput([LineFor(7, Locador), LineFor(5, Locador), LineFor(2, Locador)],
             [Lessor("a", 430_000), Lessor("b", 430_000), Lessor("c", 140_000)], 10, 1)
  }

  /** A lessor can lose a cent of a payment that gives the lessors one more. */
  lemma LessorCanLoseACent()
    ensures Settle(EleventhCentOfThree()).Ok? && Settle(EleventhCentOfThree()).value.payment.lessors == 1
    ensures PartsOf(EleventhCentOfThree()).Ok? && PartsOf(EleventhCentOfThree()).value.shares == [1, 1, -1]
  {
    hide Settle, PartsOf, SettlementBuckets;
    var input := EleventhCentOfThree();
    BucketsOfThree(input.lines);
    EleventhOfThree(input, [430_000, 430_000, 140_000]);
  }

  lemma EleventhOfThree(input: Input, ws: seq<int>)
    requires SettlementBuckets(input.lines, input.commission, input.currency) == Ok(Buckets(14, 0, 0, 0, 0, 0, 0, 14))
    requires Weights(input.lessors) == ws == [430_000, 430_000, 140_000] && input.paidBefore == 10 && input.amount == 1
    requires input.receivedBy == ReceivedByAgency && input.options.partialAllocation == Proporcional
    ensures Settle(input).Ok? && Settle(input).value.payment.lessors == 1
    ensures PartsOf(input).Ok? && PartsOf(input).value.shares == [1, 1, -1]
  {
    hide CoveredAt, SettlementBuckets, PartsOf, Settle, Sum, Weights, LessorsBefore, LessorsAfter, Checked;
    SumOfThree(ws);
    PaymentOfAll(input);
    AgencyPaymentSettles(input);
    SharesOfThree(input, ws);
  }

  lemma PaymentOfAll(input: Input)
    requires SettlementBuckets(input.lines, input.commission, input.currency) == Ok(Buckets(14, 0, 0, 0, 0, 0, 0, 14))
    requires SharesAddUp(Weights(input.lessors)) && input.paidBefore == 10 && input.amount == 1
    requires input.receivedBy == ReceivedByAgency && input.options.partialAllocation == Proporcional
    ensures PartsOf(input).Ok? && PartsOf(input).value.buckets.lessors == 14
    ensures LessorsBefore(input) == 10 && LessorsAfter(input) == 11 && PartsOf(input).value.payment.lessors == 1
  {
    hide CoveredAt, SettlementBuckets, PartsOf, SharesAddUp, LessorsBefore, LessorsAfter, Proportional, Differences,
        Sum;
    assert PartsOf(input).Ok? by {
      assert Checked(input);
      SplitsExactlyTheChecked(input);
    }
    var b := PartsOf(input).value.buckets;
    assert b == Buckets(14, 0, 0, 0, 0, 0, 0, 14) by { SplitsExactlyTheChecked(input); }
    SplitOfLessors(input);
    LastTakesAll(10, b);
    LastTakesAll(11, b);
    SplitsExactlyTheChecked(input);
  }

  lemma SplitOfLessors(input: Input)
    requires PartsOf(input).Ok?
    ensures var parts, mode := PartsOf(input).value, input.options.partialAllocation;
            && CoveredAt(input.paidBefore, parts.buckets, mode).Ok?
            && CoveredAt(input.paidBefore + input.amount, parts.buckets, mode).Ok?
            && LessorsBefore(input) == CoveredAt(input.paidBefore, parts.buckets, mode).value.lessors
            && LessorsAfter(input) == CoveredAt(input.paidBefore + input.amount, parts.buckets, mode).value.lessors
  {
    hide CoveredAt, SettlementBuckets, LessorSplit;
  }

  lemma SharesOfThree(input: Input, ws: seq<int>)
    requires Settle(input).Ok? && Weights(input.lessors) == ws == [430_000, 430_000, 140_000] && Sum(ws) == FULL_PCT
    requires PartsOf(input).Ok? && PartsOf(input).value.buckets.lessors > 0
    requires LessorsBefore(input) == 10 && LessorsAfter(input) == 11
    ensures PartsOf(input).value.shares == [1, 1, -1]
  {
    hide Allocate, PartsOf, Settle, LessorsBefore, LessorsAfter, Sum;
    ThreePercentages(ws);
    SharesAre(input, 0);
    SharesAre(input, 1);
    SharesAre(input, 2);
  }

  lemma LastTakesAll(paid: int, b: Buckets)
    requires Whole(b) && b.agency == 0 && b.ente == 0 && 0 <= paid <= b.total
    ensures CoveredAt(paid, b, Proporcional) == Ok(Split(0, 0, paid))
  {
    hide CoveredAt;
    CoveredAtIsASplit(paid, b, Proporcional);
  }

  lemma ThreePercentages(ws: seq<int>)
    requires ws == [430_000, 430_000, 140_000] && Sum(ws) == FULL_PCT
    ensures ValidWeights(ws) && Allocate(10, ws) == [4, 4, 2] && Allocate(11, ws) == [5, 5, 1]
  {
    Quotas();
    hide QuotaFloor, QuotaRest, Allocate, Sum;
    FourFourOne(10, ws);
    FourFourOne(11, ws);
  }

  lemma Quotas()
    ensures QuotaFloor(10, 430_000, FULL_PCT) == 4 && QuotaRest(10, 430_000, FULL_PCT) == 300_000
    ensures QuotaFloor(10, 140_000, FULL_PCT) == 1 && QuotaRest(10, 140_000, FULL_PCT) == 400_000
    ensures QuotaFloor(11, 430_000, FULL_PCT) == 4 && QuotaRest(11, 430_000, FULL_PCT) == 730_000
    ensures QuotaFloor(11, 140_000, FULL_PCT) == 1 && QuotaRest(11, 140_000, FULL_PCT) == 540_000
  {
  }

  // ─── Payments that fail ───────────────────────────────

  /** A hundred cents, all the agency's, received by a lessor with no percentage, and nobody named. */
  function OwedByNobody(): Input {
    Input("ARS", [LineFor(50, Inmobiliaria), LineFor(30, Inmobiliaria), LineFor(20, Inmobiliaria)], None,
          [Lessor("l", 0)],
          0, 100, ReceivedByLessor, false, None, Options(TodoLoAjeno, Proporcional))
  }

  /** It passes every check of the engine, and fails with the zero-weight error of the split. */
  lemma CheckedPaymentCanFail()
    ensures Checked(OwedByNobody()) && Settle(OwedByNobody()) == Err(Allocation(ZeroWeightSum))
  {
    hide Settle, PartsOf, SettlementBuckets, Checked;
    var input := OwedByNobody();
    BucketsOfThree(input.lines);
    OwedWithoutPercentages(input);
  }

  /** Everything is the agency's, a single lessor received it, and it has no percentage. */
  predicate OwedByNoWeight(input: Input) {
    && SettlementBuckets(input.lines, input.commission, input.currency) == Ok(Buckets(100, 0, 0, 0, 100, 100, 0, 0))
    && |input.lessors| == 1 && input.lessors[0].payoutPct == 0 && input.paidBefore == 0 && input.amount == 100
    && input.receivedBy == ReceivedByLessor && !input.inCustody && NamedReceiver(input).None?
    && EnteHeldByAgency(input)
  }

  lemma OwedIsChecked(input: Input)
    requires OwedByNoWeight(input)
    ensures Checked(input) && FlowOf(input) == FlowLocador
  {
    hide SettlementBuckets, SharesAddUp, Weights;
  }

  lemma OwedParts(input: Input)
    requires OwedByNoWeight(input) && Checked(input)
    ensures PartsOf(input).Ok?
    ensures PartsOf(input).value.payment.agency + PartsOf(input).value.payment.ente == 100
  {
    hide CoveredAt, SettlementBuckets, PartsOf, Checked, Proportional, Differences, Weights, Sum;
    SplitsExactlyTheChecked(input);
    var b := PartsOf(input).value.buckets;
    CoveredAtIsASplit(0, b, input.options.partialAllocation);
    CoveredAtIsASplit(100, b, input.options.partialAllocation);
  }

  lemma OwedWithoutPercentages(input: Input)
    requires OwedByNoWeight(input)
    ensures Checked(input) && Settle(input) == Err(Allocation(ZeroWeightSum))
  {
    hide SettlementBuckets, PartsOf, Settle, Checked, Sum;
    OwedIsChecked(input);
    OwedParts(input);
    SumZero(Weights(input.lessors));
    OwedToNoWeight(input);
  }

  lemma OwedToNoWeight(input: Input)
    requires PartsOf(input).Ok? && FlowOf(input) == FlowLocador && NamedReceiver(input).None? && EnteHeldByAgency(input)
    requires PartsOf(input).value.payment.agency + PartsOf(input).value.payment.ente != 0
    requires input.lessors != [] && Sum(Weights(input.lessors)) == 0
    requires forall i :: 0 <= i < |input.lessors| ==> input.lessors[i].payoutPct >= 0
    ensures Settle(input) == Err(Allocation(ZeroWeightSum))
  {
    hide PartsOf, Sum;
  }
}
