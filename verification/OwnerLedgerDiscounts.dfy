/**
  Where the discounts of a liquidation end up in the lessors' ledger: its components count them as credits,
  and the residual takes them off the rent.
*/
module OwnerLedgerDiscounts {
  import opened OwnerLedger
  import opened OwnerLedgerLaws
  import opened Rounding
  import opened Sums
  import opened Wrappers
  import S = Settlement
  import SL = SettlementLaws
  import SX = SettlementLosses
  import SC = SettlementChanges

  // ─── Where the discounts come off ─────────────────────

  lemma {:induction false} NonZeroHead(all: seq<Component>)
    requires all != [] && all[0].value != 0
    ensures NonZero(all) == [all[0]] + NonZero(all[1..])
  {
    var n := |all| - 1;
    if n == 0 {
      assert NonZero(all[..0]) == [];
    } else {
      NonZeroHead(all[..n]);
      assert all[..n][1..] == all[1..][..n - 1];
    }
  }

  ghost predicate NoneOf(components: seq<Component>, kind: EntryType) {
    forall i :: 0 <= i < |components| ==> components[i].kind != kind
  }

  lemma {:induction false} NonZeroNoneOf(all: seq<Component>, kind: EntryType)
    requires NoneOf(all, kind)
    ensures NoneOf(NonZero(all), kind)
  {
    if all != [] { NonZeroNoneOf(all[..|all| - 1], kind); }
  }

  /** The first component is prorated by itself when no other is of its concept. */
  lemma {:induction false} HeadIsAlone(c: Component, rest: seq<Component>, share: int, net: int)
    requires net > 0 && NoneOf(rest, c.kind)
    ensures Get(Prorated([c] + rest, share, net), c.kind) == Quotient(c.value * share, net)
  {
    hide Quotient;
    var all := [c] + rest;
    if rest == [] {
      assert all[..0] == [] && all == [c];
    } else {
      var n := |rest| - 1;
      assert all[..n + 1] == [c] + rest[..n] && all[n + 1] == rest[n];
      HeadIsAlone(c, rest[..n], share, net);
    }
  }

  lemma {:induction false} HeadAddsUp(c: Component, rest: seq<Component>, share: int, net: int)
    requires net > 0 && c.kind in POSTING_ORDER && Posted(rest)
    ensures Total(Prorated([c] + rest, share, net))
         == Quotient(c.value * share, net) + Total(Prorated(rest, share, net))
  {
    hide Total, Quotient, Add, Prorated;
    var all := [c] + rest;
    if rest == [] {
      assert all[..0] == [] && all == [c];
      NothingProrated(share, net);
      ProratedTotal(all, share, net);
    } else {
      var n := |rest| - 1;
      assert all[..n + 1] == [c] + rest[..n] && all[n + 1] == rest[n];
      HeadAddsUp(c, rest[..n], share, net);
      ProratedTotal(all, share, net);
      ProratedTotal(rest, share, net);
    }
  }

  lemma ProratedTotal(components: seq<Component>, share: int, net: int)
    requires net > 0 && components != [] && components[|components| - 1].kind in POSTING_ORDER
    ensures var n := |components| - 1;
            Total(Prorated(components, share, net))
            == Total(Prorated(components[..n], share, net)) + Quotient(components[n].value * share, net)
  {
    hide Total, Add, Quotient;
    var n := |components| - 1;
    AddTotal(Prorated(components[..n], share, net), components[n].kind, Quotient(components[n].value * share, net));
  }

  lemma {:induction false} HeadSum(c: Component, rest: seq<Component>)
    ensures ComponentSum([c] + rest) == c.value + ComponentSum(rest)
  {
    var all := [c] + rest;
    if rest == [] {
      assert all[..0] == [] && all == [c];
    } else {
      var n := |rest| - 1;
      assert all[..n + 1] == [c] + rest[..n] && all[n + 1] == rest[n];
      HeadSum(c, rest[..n]);
    }
  }

  /** The rent is the first component when it is not zero, and the only one of its concept. */
  lemma RentIsFirst(input: PostingInput)
    requires Get(Gross(input.lines), Alquiler) != 0
    ensures var components := Components(input);
            && 1 <= |components| <= 6 && components[0] == Component(Alquiler, Get(Gross(input.lines), Alquiler))
            && NoneOf(components[1..], Alquiler) && Posted(components)
  {
    hide Gross, NonZero;
    var g := Gross(input.lines);
    var all := [
      Component(Alquiler, Get(g, Alquiler)), Component(Punitorio, Get(g, Punitorio)),
      Component(ReintegroImpuesto, Get(g, ReintegroImpuesto)), Component(Ajuste, Get(g, Ajuste)),
      Component(Comision, -input.commission), Component(Honorario, -input.adminFee)];
    NonZeroHead(all);
    NonZeroNoneOf(all[1..], Alquiler);
    NonZeroPosted(all);
    NonZeroSum(all);
  }

  /** When the rent is a credit, what it is entered with is the share less what the other components take. */
  lemma RentEntryOf(c: Component, rest: seq<Component>, share: int, net: int)
    requires net > 0 && share != 0 && c.kind == Alquiler && c.value > 0
    requires NoneOf(rest, Alquiler) && Posted(rest)
    ensures Get(PositionParts([c] + rest, share, net), Alquiler) == share - Total(Prorated(rest, share, net))
  {
    hide Total, Prorated, Quotient;
    HeadIsAlone(c, rest, share, net);
    HeadAddsUp(c, rest, share, net);
  }

  /**
    When the lessors' rent lines are a credit (discounts counted with them, unsigned), the discounts come off the
    rent entry and nothing else: it is the share of the rent less twice the discounts counted in it, that is of
    the rent they leave, within two and a half cents.
  */
  lemma DiscountsComeOffTheRent(input: S.Input, share: int)
    requires S.Settle(input).Ok? && S.Settle(input).value.buckets.lessors > 0 && share != 0
    requires Get(Gross(input.lines), Alquiler) > 0
    ensures var s := S.Settle(input).value;
            var net, rent := s.buckets.lessors, Get(Gross(input.lines), Alquiler) - DiscountGap(input.lines);
            var entry := Get(PositionParts(Components(InputOfSettled(input.lines, s)), share, net), Alquiler);
            && -5 * net <= 2 * (net * entry - rent * share) <= 5 * net
            && (share == net ==> entry == rent)
  {
    hide S.Settle, S.SettlementBuckets, Components, DiscountGap, Prorated, ComponentSum, Gross, PositionParts, Total;
    var s := S.Settle(input).value;
    var posting, net, gap := InputOfSettled(input.lines, s), s.buckets.lessors, DiscountGap(input.lines);
    var components := Components(posting);
    BucketsOfSettled(input);
    ComponentsMissTheDiscounts(input.lines, input.commission, input.currency, posting);
    RentIsFirst(posting);
    var c, rest := components[0], components[1..];
    assert components == [c] + rest;
    assert Posted(rest);
    HeadSum(c, rest);
    RentEntryOf(c, rest, share, net);
    ProratedBound(rest, share, net);
    RentOfTheRest(net, share, c.value - gap, ComponentSum(rest), Total(Prorated(rest, share, net)), |rest|);
    if share == net { WholeShare(rest, net); }
  }

  lemma RentOfTheRest(net: int, share: int, rent: int, others: int, prorated: int, k: int)
    requires net > 0 && rent + others == net && 0 <= k <= 5
    requires -k * net <= 2 * (net * prorated - others * share) <= k * net
    ensures -5 * net <= 2 * (net * (share - prorated) - rent * share) <= 5 * net
  {
    assert rent * share + others * share == net * share;
    assert net * (share - prorated) == net * share - net * prorated;
    assert k * net <= 5 * net;
  }

  // ─── A discount as it is written ──────────────────────

  /** A rent of a hundred with a discount of ten, as the builder writes it; the ninety are paid to the agency. */
  function DiscountedRent(): S.Input {
    SX.PaymentInput([S.Line(100, S.Locador, true, S.Alquiler, None), S.Line(10, S.Locador, true, S.Descuento, None)],
                    [S.Lessor("l", FULL_PCT)], 0, 90)
  }

  /** What two lines of the lessors, a rent and a discount, leave in the buckets and in the concepts. */
  lemma RentAndDiscount(lines: seq<S.Line>, rent: int, discount: int)
    requires |lines| == 2 && 0 < discount <= rent
    requires lines[0] == S.Line(rent, S.Locador, true, S.Alquiler, None)
    requires lines[1] == S.Line(discount, S.Locador, true, S.Descuento, None)
    ensures var net := rent - discount;
            S.SettlementBuckets(lines, None, "ARS") == Ok(S.Buckets(net, net, 0, 0, 0, 0, 0, net))
  {
    hide Sum;
    SumOfTwo(S.Picked(lines, S.Every));
    SumOfTwo(S.Picked(lines, S.Commissionable));
    SumOfTwo(S.Picked(lines, S.For(S.Inmobiliaria)));
    SumOfTwo(S.Picked(lines, S.For(S.Ente)));
    SumOfTwo(S.Picked(lines, S.For(S.Locador)));
  }

  lemma ConceptsOfTwo(lines: seq<S.Line>, rent: int, discount: int)
    requires |lines| == 2 && 0 < discount <= rent
    requires lines[0] == S.Line(rent, S.Locador, true, S.Alquiler, None)
    requires lines[1] == S.Line(discount, S.Locador, true, S.Descuento, None)
    ensures Get(Gross(lines), Alquiler) == rent + discount && DiscountGap(lines) == 2 * discount
  {
    assert lines[..1][..0] == [] && lines[..1][0] == lines[0];
    assert DiscountGap(lines[..1][..0]) == 0 && Gross(lines[..1][..0]) == map[];
    assert Get(Gross(lines[..1]), Alquiler) == rent;
  }

  lemma WholePaymentSettles(input: S.Input, net: int)
    requires S.SettlementBuckets(input.lines, input.commission, input.currency)
          == Ok(S.Buckets(net, net, 0, 0, 0, 0, 0, net))
    requires input.paidBefore == 0 && input.amount == net > 0 && !input.inCustody
    requires S.FlowOf(input) == S.FlowInmobiliaria && input.options.partialAllocation == S.Proporcional
    requires |input.lessors| == 1 && input.lessors[0].payoutPct == FULL_PCT
    ensures S.Settle(input).Ok? && S.Settle(input).value.buckets.lessors == net
    ensures SL.ShareOf(S.Settle(input).value, 0) == net
  {
    hide S.Settle, S.CoveredAt, S.SettlementBuckets, S.PartsOf, S.SharesAddUp, S.Weights;
    var b := S.Buckets(net, net, 0, 0, 0, 0, 0, net);
    SX.OnlyWeight(input.lessors);
    SC.CoverOfNothing(b, S.Proporcional);
    SC.SettlesToCovers(input, SC.NOTHING, S.Split(0, 0, net));
    BucketsOfSettled(input);
    SX.OnlyLessorGetsAll(input);
    SL.SharesOfSettled(input, 0);
  }

  /** The residual of a rent with a discount is twice the discount, and leaves the rent entry with the net. */
  lemma DiscountIsTheResidual(input: S.Input, rent: int, discount: int)
    requires S.Settle(input).Ok? && S.Settle(input).value.buckets.lessors == rent - discount > 0
    requires Get(Gross(input.lines), Alquiler) == rent + discount && DiscountGap(input.lines) == 2 * discount > 0
    ensures var s := S.Settle(input).value;
            var components, net := Components(InputOfSettled(input.lines, s)), rent - discount;
            && ComponentSum(components) == rent + discount
            && Residual(components, net, net) == -2 * discount
            && Get(PositionParts(components, net, net), Alquiler) == net
  {
    hide S.Settle, S.SettlementBuckets, Components, Residual, DiscountGap, ComponentSum, Gross, PositionParts;
    var s := S.Settle(input).value;
    BucketsOfSettled(input);
    ComponentsMissTheDiscounts(input.lines, input.commission, input.currency, InputOfSettled(input.lines, s));
    SettledResidualIsTheGap(input, rent - discount);
    DiscountsComeOffTheRent(input, rent - discount);
  }

  /**
    So the residual is no rounding in the ordinary case of a discount: here, of a share of ninety, it is minus
    twenty, with a single component of a hundred and ten. The rent is entered with the ninety.
  */
  lemma OrdinaryDiscount()
    ensures S.Settle(DiscountedRent()).Ok? && S.Settle(DiscountedRent()).value.buckets.lessors == 90
    ensures SL.ShareOf(S.Settle(DiscountedRent()).value, 0) == 90
    ensures var components := Components(InputOfSettled(DiscountedRent().lines, S.Settle(DiscountedRent()).value));
            && ComponentSum(components) == 110 && Residual(components, 90, 90) == -20
            && Get(PositionParts(components, 90, 90), Alquiler) == 90
  {
    hide S.Settle, S.SettlementBuckets, Components, Residual, ComponentSum, Gross, PositionParts, DiscountGap, Sum;
    var input := DiscountedRent();
    RentAndDiscount(input.lines, 100, 10);
    ConceptsOfTwo(input.lines, 100, 10);
    WholePaymentSettles(input, 90);
    DiscountIsTheResidual(input, 100, 10);
  }
}
