/**
  Payments of one liquidation settled with lines, commission, percentages or a mode that change between
  them: what each destination and each lessor ends up with.
*/
module SettlementChanges {
  import opened Money
  import opened Rounding
  import opened Settlement
  import opened SettlementLaws
  import opened SettlementLosses
  import opened Sums
  import opened Wrappers

  // ─── What has been given ──────────────────────────────

  function Plus(a: Split, b: Split): Split { Split(a.agency + b.agency, a.ente + b.ente, a.lessors + b.lessors) }

  const NOTHING := Split(0, 0, 0)

  /** What is covered of each destination at an amount paid, with the lines, commission and mode of a payment. */
  function CoverWith(input: Input, paid: int): Split {
    match SettlementBuckets(input.lines, input.commission, input.currency)
    case Err(_) => NOTHING
    case Ok(b) =>
      match CoveredAt(paid, b, input.options.partialAllocation)
      case Err(_) => NOTHING
      case Ok(s) => s
  }

  function CoverBefore(input: Input): Split { CoverWith(input, input.paidBefore) }

  function CoverAfter(input: Input): Split { CoverWith(input, input.paidBefore + input.amount) }

  predicate AllSettle(inputs: seq<Input>) { forall i :: 0 <= i < |inputs| ==> Settle(inputs[i]).Ok? }

  /** The parts of the payments, added up. */
  function Given(inputs: seq<Input>): Split
    requires AllSettle(inputs)
  {
    if inputs == [] then NOTHING
    else Plus(Given(inputs[..|inputs| - 1]), Settle(inputs[|inputs| - 1]).value.payment)
  }

  /**
    What the change from one payment to the next leaves given and no longer covered: the cover after the
    first, with its own terms, less the cover before the second, with its own.
  */
  function Drift(a: Input, b: Input): Split { PaymentParts(CoverBefore(b), CoverAfter(a)) }

  function Drifts(inputs: seq<Input>): Split {
    if |inputs| < 2 then NOTHING
    else Plus(Drifts(inputs[..|inputs| - 1]), Drift(inputs[|inputs| - 2], inputs[|inputs| - 1]))
  }

  /** A payment gives the difference of its own covers. */
  lemma GivesItsOwnCovers(input: Input)
    requires Settle(input).Ok?
    ensures Settle(input).value.payment == PaymentParts(CoverBefore(input), CoverAfter(input))
    ensures SettlementBuckets(input.lines, input.commission, input.currency).Ok?
    ensures input.paidBefore == 0 ==> CoverBefore(input) == NOTHING
    ensures var b := SettlementBuckets(input.lines, input.commission, input.currency).value;
            input.paidBefore + input.amount == b.total ==> CoverAfter(input) == Split(b.agency, b.ente, b.lessors)
  {
    hide Settle, PartsOf, SettlementBuckets, CoveredAt, Proportional;
    SettleIsChecked(input);
    SettlePayments(input);
    SplitsExactlyTheChecked(input);
    CoverOfNothing(PartsOf(input).value.buckets, input.options.partialAllocation);
  }

  lemma CoverOfNothing(b: Buckets, mode: PartialAllocation)
    requires Whole(b)
    ensures CoveredAt(0, b, mode) == Ok(NOTHING)
    ensures CoveredAt(b.total, b, mode) == Ok(Split(b.agency, b.ente, b.lessors))
  {
  }

  /**
    Whatever changes between the payments, what they give is the cover after the last one, less the cover
    before the first, plus the drift of every change.
  */
  lemma {:induction false} GivenIsTheLastCover(inputs: seq<Input>)
    requires inputs != [] && AllSettle(inputs)
    ensures Given(inputs)
         == Plus(PaymentParts(CoverBefore(inputs[0]), CoverAfter(inputs[|inputs| - 1])), Drifts(inputs))
  {
    hide Settle, CoverBefore, CoverAfter;
    var n := |inputs| - 1;
    GivesItsOwnCovers(inputs[n]);
    if n == 0 {
      assert Given(inputs[..0]) == NOTHING;
    } else {
      GivenIsTheLastCover(inputs[..n]);
    }
  }

  /**
    Payments from the first one to the one that reaches the total give exactly the buckets if and only if
    the drifts of the changes cancel; in particular when no change moves the cover.
  */
  lemma EndsAtTheBucketsExactlyWhen(inputs: seq<Input>)
    requires inputs != [] && AllSettle(inputs) && inputs[0].paidBefore == 0
    requires var last := inputs[|inputs| - 1];
             var buckets := SettlementBuckets(last.lines, last.commission, last.currency);
             buckets.Ok? && last.paidBefore + last.amount == buckets.value.total
    ensures var last := inputs[|inputs| - 1];
            var b := SettlementBuckets(last.lines, last.commission, last.currency).value;
            Given(inputs) == Split(b.agency, b.ente, b.lessors) <==> Drifts(inputs) == NOTHING
    ensures (forall k :: 0 < k < |inputs| ==> CoverAfter(inputs[k - 1]) == CoverBefore(inputs[k])) ==>
              Drifts(inputs) == NOTHING
  {
    hide Settle, SettlementBuckets, CoverBefore, CoverAfter, Drifts;
    GivenIsTheLastCover(inputs);
    GivesItsOwnCovers(inputs[0]);
    GivesItsOwnCovers(inputs[|inputs| - 1]);
    if forall k :: 0 < k < |inputs| ==> CoverAfter(inputs[k - 1]) == CoverBefore(inputs[k]) { NoDrift(inputs); }
  }

  lemma {:induction false} NoDrift(inputs: seq<Input>)
    requires forall k :: 0 < k < |inputs| ==> CoverAfter(inputs[k - 1]) == CoverBefore(inputs[k])
    ensures Drifts(inputs) == NOTHING
  {
    hide CoverBefore, CoverAfter;
    if |inputs| >= 2 {
      var n := |inputs| - 1;
      NoDrift(inputs[..n]);
      assert CoverAfter(inputs[n - 1]) == CoverBefore(inputs[n]);
    }
  }

  // ─── What each lessor has been given ──────────────────

  /** What lessor i has of what the lessors are covered, with the percentages of a payment. */
  function LessorCover(input: Input, paid: int, i: nat): int {
    var split := Proportional(CoverWith(input, paid).lessors, Weights(input.lessors));
    if split.Ok? && i < |split.value| then split.value[i] else 0
  }

  function LessorGiven(inputs: seq<Input>, i: nat): int
    requires AllSettle(inputs)
  {
    if inputs == [] then 0 else LessorGiven(inputs[..|inputs| - 1], i) + ShareOf(Settle(inputs[|inputs| - 1]).value, i)
  }

  function LessorDrift(a: Input, b: Input, i: nat): int {
    LessorCover(a, a.paidBefore + a.amount, i) - LessorCover(b, b.paidBefore, i)
  }

  function LessorDrifts(inputs: seq<Input>, i: nat): int {
    if |inputs| < 2 then 0
    else LessorDrifts(inputs[..|inputs| - 1], i) + LessorDrift(inputs[|inputs| - 2], inputs[|inputs| - 1], i)
  }

  /** The same person is the i-th lessor of every payment. */
  predicate SameLessor(inputs: seq<Input>, i: nat, id: string) {
    forall k :: 0 <= k < |inputs| ==> i < |inputs[k].lessors| && inputs[k].lessors[i].personId == id
  }

  lemma LessorGetsItsOwnCovers(input: Input, i: nat)
    requires Settle(input).Ok? && i < |input.lessors|
    ensures ShareOf(Settle(input).value, i)
         == LessorCover(input, input.paidBefore + input.amount, i) - LessorCover(input, input.paidBefore, i)
  {
    hide Settle, PartsOf, SettlementBuckets, CoveredAt, Proportional;
    SettleIsChecked(input);
    SharesOfSettled(input, i);
    SplitsExactlyTheChecked(input);
  }

  /** For each lessor too: its cover after the last payment, less the one before the first, plus the drifts. */
  lemma {:induction false} LessorGivenIsTheLastCover(inputs: seq<Input>, i: nat, id: string)
    requires inputs != [] && AllSettle(inputs) && SameLessor(inputs, i, id)
    ensures var first, last := inputs[0], inputs[|inputs| - 1];
            LessorGiven(inputs, i)
            == LessorCover(last, last.paidBefore + last.amount, i) - LessorCover(first, first.paidBefore, i)
               + LessorDrifts(inputs, i)
  {
    hide Settle, LessorCover;
    var n := |inputs| - 1;
    LessorGetsItsOwnCovers(inputs[n], i);
    if n == 0 {
      assert LessorGiven(inputs[..0], i) == 0;
    } else {
      assert SameLessor(inputs[..n], i, id);
      LessorGivenIsTheLastCover(inputs[..n], i, id);
    }
  }

  // ─── A penalty added between two payments ─────────────

  /** Fifty cents are the public bodies' and fifty the lessor's; forty are paid. */
  function FirstForty(): Input {
    PaymentInput([LineFor(50, Ente), LineFor(30, Locador), LineFor(20, Locador)], [Lessor("l", FULL_PCT)], 0, 40)
  }

  /** A penalty of a hundred cents is added for the lessor, and the whole balance is paid. */
  function RestWithPenalty(): Input {
    PaymentInput([LineFor(50, Ente), LineFor(50, Locador), LineFor(100, Locador).(kind := Multa)],
                 [Lessor("l", FULL_PCT)], 40, 160)
  }

  /** The cover of an amount whose quotas of the bodies and the lessors are whole numbers of cents. */
  lemma WholeCover(b: Buckets, paid: int, ente: int, lessors: int)
    requires Whole(b) && b.total > 0 && 0 <= paid <= b.total && b.agency == 0
    requires paid * b.ente == ente * b.total && paid * b.lessors == lessors * b.total
    ensures CoveredAt(paid, b, Proporcional) == Ok(Split(0, ente, lessors))
  {
    hide CoveredAt, Allocate;
    var ws := [b.agency, b.ente, b.lessors];
    SumOfThree(ws);
    ProportionalCover(paid, b);
    DivUnique(paid * b.agency, b.total, 0, 0);
    DivUnique(paid * b.ente, b.total, ente, 0);
    DivUnique(paid * b.lessors, b.total, lessors, 0);
    WholeQuotaIsExact(paid, ws, 0);
    WholeQuotaIsExact(paid, ws, 1);
    WholeQuotaIsExact(paid, ws, 2);
  }

  lemma SettlesToCovers(input: Input, before: Split, after: Split)
    requires input.amount > 0 && input.paidBefore >= 0 && FlowOf(input) == FlowInmobiliaria && !input.inCustody
    requires SharesAddUp(Weights(input.lessors))
    requires SettlementBuckets(input.lines, input.commission, input.currency).Ok?
    requires var b := SettlementBuckets(input.lines, input.commission, input.currency).value;
             && input.paidBefore + input.amount <= b.total
             && CoveredAt(input.paidBefore, b, input.options.partialAllocation) == Ok(before)
             && CoveredAt(input.paidBefore + input.amount, b, input.options.partialAllocation) == Ok(after)
    ensures Settle(input).Ok? && Settle(input).value.payment == PaymentParts(before, after)
  {
    hide Settle, PartsOf, SettlementBuckets, CoveredAt, Proportional, SharesAddUp;
    SplitsExactlyTheChecked(input);
    AgencyPaymentSettles(input);
  }

  /** A payment received by the agency, whose covers are whole numbers of cents before and after it. */
  lemma SettlesToWholeCovers(input: Input, b: Buckets, before: Split, after: Split)
    requires SettlementBuckets(input.lines, input.commission, input.currency) == Ok(b)
    requires Whole(b) && b.agency == 0 && before.agency == 0 && after.agency == 0
    requires input.amount > 0 && input.paidBefore >= 0 && input.paidBefore + input.amount <= b.total
    requires FlowOf(input) == FlowInmobiliaria && input.options.partialAllocation == Proporcional
    requires |input.lessors| == 1 && input.lessors[0].payoutPct == FULL_PCT
    requires var paid := input.paidBefore;
             paid * b.ente == before.ente * b.total && paid * b.lessors == before.lessors * b.total
    requires var paid := input.paidBefore + input.amount;
             paid * b.ente == after.ente * b.total && paid * b.lessors == after.lessors * b.total
    ensures Settle(input).Ok? && Settle(input).value.payment == PaymentParts(before, after)
  {
    hide Settle, CoveredAt, SettlementBuckets, SharesAddUp, Weights;
    OnlyWeight(input.lessors);
    WholeCover(b, input.paidBefore, before.ente, before.lessors);
    WholeCover(b, input.paidBefore + input.amount, after.ente, after.lessors);
    SettlesToCovers(input, before, after);
  }

  lemma FirstFortyBuckets()
    ensures SettlementBuckets(FirstForty().lines, None, "ARS") == Ok(Buckets(100, 0, 0, 0, 0, 0, 50, 50))
  {
    hide SettlementBuckets;
    BucketsOfThree(FirstForty().lines);
  }

  /** The first payment, whose cover is a whole number of cents. */
  lemma FirstSettlesToWholeCover(input: Input, b: Buckets, after: Split)
    requires SettlementBuckets(input.lines, input.commission, input.currency) == Ok(b)
    requires Whole(b) && b.agency == 0 && after.agency == 0
    requires input.paidBefore == 0 && 0 < input.amount <= b.total
    requires FlowOf(input) == FlowInmobiliaria && input.options.partialAllocation == Proporcional
    requires |input.lessors| == 1 && input.lessors[0].payoutPct == FULL_PCT
    requires input.amount * b.ente == after.ente * b.total && input.amount * b.lessors == after.lessors * b.total
    ensures Settle(input).Ok? && Settle(input).value.payment == after
  {
    hide Settle, CoveredAt, SettlementBuckets;
    SettlesToWholeCovers(input, b, NOTHING, after);
  }

  lemma FirstFortySettles()
    ensures Settle(FirstForty()).Ok? && Settle(FirstForty()).value.payment == Split(0, 20, 20)
  {
    hide Settle, SettlementBuckets, Sum, CoveredAt, LineFor;
    FirstFortyBuckets();
    FirstSettlesToWholeCover(FirstForty(), Buckets(100, 0, 0, 0, 0, 0, 50, 50), Split(0, 20, 20));
  }

  lemma RestWithPenaltyBuckets()
    ensures SettlementBuckets(RestWithPenalty().lines, None, "ARS") == Ok(Buckets(200, 0, 0, 0, 0, 0, 50, 150))
  {
    hide SettlementBuckets;
    BucketsOfThree(RestWithPenalty().lines);
  }

  lemma RestWithPenaltySettles()
    ensures Settle(RestWithPenalty()).Ok? && Settle(RestWithPenalty()).value.payment == Split(0, 40, 120)
  {
    hide Settle, SettlementBuckets, Sum, CoveredAt, LineFor;
    RestWithPenaltyBuckets();
    SettlesToWholeCovers(RestWithPenalty(), Buckets(200, 0, 0, 0, 0, 0, 50, 150), Split(0, 10, 30), Split(0, 50, 150));
  }

  /**
    Two payments that settle the whole liquidation, a penalty added between them: the public bodies end with
    sixty cents of a bucket of fifty, and the lessor with ten less than its own.
  */
  lemma AddedPenaltyMovesTheSplit()
    ensures AllSettle([FirstForty(), RestWithPenalty()])
    ensures RestWithPenalty().paidBefore == FirstForty().amount
    ensures SettlementBuckets(RestWithPenalty().lines, None, "ARS") == Ok(Buckets(200, 0, 0, 0, 0, 0, 50, 150))
    ensures Given([FirstForty(), RestWithPenalty()]) == Split(0, 60, 140)
  {
    hide Settle, SettlementBuckets;
    FirstFortySettles();
    RestWithPenaltySettles();
    RestWithPenaltyBuckets();
    var inputs := [FirstForty(), RestWithPenalty()];
    assert inputs[..1][..0] == [] && inputs[..1][0] == inputs[0];
    assert Given(inputs[..1]) == Plus(Given([]), Settle(inputs[0]).value.payment);
  }
}
