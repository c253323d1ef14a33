/**
  The entries of a payment add up to what the payment gave each lessor, to the cent, whatever the
  mix of lines; and exactly how large the rounding they absorb can be.
*/
module OwnerLedgerLaws {
  import opened Money
  import opened OwnerLedger
  import opened Rounding
  import opened Sums
  import opened Wrappers
  import S = Settlement
  import SL = SettlementLaws

  function PostingAmounts(ps: seq<Posting>): seq<int> {
    seq(|ps|, i requires 0 <= i < |ps| => ps[i].amount)
  }

  function PostingSum(ps: seq<Posting>): int { Sum(PostingAmounts(ps)) }

  lemma PostingSumConcat(a: seq<Posting>, b: seq<Posting>)
    ensures PostingSum(a + b) == PostingSum(a) + PostingSum(b)
  {
    assert PostingAmounts(a + b) == PostingAmounts(a) + PostingAmounts(b);
    SumConcat(PostingAmounts(a), PostingAmounts(b));
  }

  lemma PostingSumOne(p: Posting)
    ensures PostingSum([p]) == p.amount
  {
    assert PostingAmounts([p]) == [] + [p.amount];
    SumSnoc([], p.amount);
  }

  lemma AddTotal(m: Parts, t: EntryType, value: int)
    requires t in POSTING_ORDER
    ensures Total(Add(m, t, value)) == Total(m) + value
  {
  }

  function PartsSum(parts: Parts, order: seq<EntryType>): int {
    if order == [] then 0 else PartsSum(parts, order[..|order| - 1]) + Get(parts, order[|order| - 1])
  }

  lemma {:induction false} PartPostingsSum(id: string, parts: Parts, order: seq<EntryType>)
    ensures PostingSum(PartPostings(id, parts, order)) == PartsSum(parts, order)
  {
    if order != [] {
      var n := |order| - 1;
      PartPostingsSum(id, parts, order[..n]);
      var last := Posting(id, order[n], Get(parts, order[n]), 0, 0);
      PostingSumConcat(PartPostings(id, parts, order[..n]), [last]);
      PostingSumOne(last);
      assert PartPostings(id, parts, order[..n]) + [] == PartPostings(id, parts, order[..n]);
    }
  }

  lemma PartsSumIsTotal(parts: Parts)
    ensures PartsSum(parts, POSTING_ORDER) == Total(parts)
  {
    var o := POSTING_ORDER;
    assert o[..5][..4] == o[..4] && o[..4][..3] == o[..3] && o[..3][..2] == o[..2] && o[..2][..1] == o[..1]
        && o[..1][..0] == [];
    assert PartsSum(parts, o[..1]) == Get(parts, Alquiler);
    assert PartsSum(parts, o[..2]) == Get(parts, Alquiler) + Get(parts, Punitorio);
    assert PartsSum(parts, o[..3]) == PartsSum(parts, o[..2]) + Get(parts, ReintegroImpuesto);
    assert PartsSum(parts, o[..4]) == PartsSum(parts, o[..3]) + Get(parts, Ajuste);
    assert PartsSum(parts, o[..5]) == PartsSum(parts, o[..4]) + Get(parts, Comision);
  }

  predicate Posted(components: seq<Component>) {
    forall i :: 0 <= i < |components| ==> components[i].kind in POSTING_ORDER
  }

  lemma {:induction false} NonZeroPosted(all: seq<Component>)
    requires Posted(all)
    ensures Posted(NonZero(all))
  {
    if all != [] { NonZeroPosted(all[..|all| - 1]); }
  }

  lemma {:induction false} TargetPosted(components: seq<Component>)
    requires Posted(components)
    ensures ResidualTarget(components) in POSTING_ORDER
  {
    if components != [] { TargetPosted(components[1..]); }
  }

  /** The concepts of a position always add up to its share: the residual is what makes them. */
  lemma PositionPartsTotal(components: seq<Component>, share: int, net: int)
    requires Posted(components)
    ensures Total(PositionParts(components, share, net)) == share
  {
    if share != 0 && net != 0 {
      TargetPosted(components);
      AddTotal(Prorated(components, share, net), ResidualTarget(components), Residual(components, share, net));
    }
  }

  /**
    The entries of each position add up exactly to its share of the payment; when a lessor took the
    money, to the balance it is left with. Whatever the lines, commission and fees.
  */
  lemma PositionPostingsSum(input: PostingInput, p: S.Position)
    ensures PostingSum(PositionPostings(input, p)) == if input.flow == S.FlowLocador then p.balance else p.share
  {
    hide Prorated, Gross, NonZero, PositionParts;
    NonZeroPosted([
      Component(Alquiler, Get(Gross(input.lines), Alquiler)), Component(Punitorio, Get(Gross(input.lines), Punitorio)),
      Component(ReintegroImpuesto, Get(Gross(input.lines), ReintegroImpuesto)),
          Component(Ajuste, Get(Gross(input.lines), Ajuste)),
      Component(Comision, -input.commission), Component(Honorario, -input.adminFee)]);
    var parts := PositionParts(Components(input), p.share, input.lessors);
    PositionPartsTotal(Components(input), p.share, input.lessors);
    PartPostingsSum(p.personId, parts, POSTING_ORDER);
    PartsSumIsTotal(parts);
    var direct := DirectPosting(input.flow, p);
    PostingSumConcat(PartPostings(p.personId, parts, POSTING_ORDER), direct);
    if direct != [] {
      PostingSumOne(direct[0]);
    }
  }

  /** All the entries of a payment leave the lessors, together, with the balances of its settlement. */
  lemma {:induction false} PaymentPostingsSum(input: PostingInput, positions: seq<S.Position>)
    requires input.flow != S.FlowLocador ==>
               forall i :: 0 <= i < |positions| ==> positions[i].balance == positions[i].share
    ensures PostingSum(PaymentPostings(input, positions)) == Sum(S.Balances(positions))
  {
    if positions != [] {
      var n := |positions| - 1;
      hide PositionPostings;
      PaymentPostingsSum(input, positions[..n]);
      PositionPostingsSum(input, positions[n]);
      PostingSumConcat(PaymentPostings(input, positions[..n]), PositionPostings(input, positions[n]));
      assert S.Balances(positions)[..n] == S.Balances(positions[..n]);
    }
  }

  // ─── How much rounding the first credit absorbs ───────

  function ComponentSum(components: seq<Component>): int {
    if components == [] then 0 else ComponentSum(components[..|components| - 1]) + components[|components| - 1].value
  }

  lemma {:induction false} ProratedBound(components: seq<Component>, share: int, net: int)
    requires net > 0 && Posted(components)
    ensures -|components| * net
         <= 2 * (net * Total(Prorated(components, share, net)) - ComponentSum(components) * share)
         <= |components| * net
  {
    hide Total, Add, RoundDiv;
    if components == [] {
      NothingProrated(share, net);
    } else {
      var n := |components| - 1;
      var c, front := components[n], components[..n];
      ProratedBound(front, share, net);
      RoundDivNearest(c.value * share, net);
      var part := Quotient(c.value * share, net);
      AddTotal(Prorated(front, share, net), c.kind, part);
      OneMorePart(net, share, Total(Prorated(front, share, net)), part, ComponentSum(front), c.value, n);
    }
  }

  lemma NothingProrated(share: int, net: int)
    requires net != 0
    ensures Total(Prorated([], share, net)) == 0
  {
  }

  lemma OneMorePart(net: int, share: int, before: int, part: int, sum: int, value: int, n: int)
    requires -n * net <= 2 * (net * before - sum * share) <= n * net
    requires -net <= 2 * (net * part - value * share) <= net
    ensures -(n + 1) * net <= 2 * (net * (before + part) - (sum + value) * share) <= (n + 1) * net
  {
  }

  /**
    The residual is the share of whatever the components miss of the net, give or take half a cent
    per component. When the components do add up to the net, that is at most half a cent each.
  */
  lemma {:induction false} ResidualBound(components: seq<Component>, share: int, net: int)
    requires net > 0 && Posted(components)
    ensures var missing := net - ComponentSum(components);
            -|components| * net <= 2 * (net * Residual(components, share, net) - missing * share) <= |components| * net
    ensures ComponentSum(components) == net ==>
              -|components| <= 2 * Residual(components, share, net) <= |components|
  {
    ProratedBound(components, share, net);
    ResidualArithmetic(share, net, ComponentSum(components), Total(Prorated(components, share, net)), |components|);
  }

  lemma ResidualArithmetic(share: int, net: int, sum: int, total: int, k: int)
    requires net > 0 && k >= 0 && -k * net <= 2 * (net * total - sum * share) <= k * net
    ensures -k * net <= 2 * (net * (share - total) - (net - sum) * share) <= k * net
    ensures sum == net ==> -k <= 2 * (share - total) <= k
  {
    assert net * (share - total) - (net - sum) * share == -(net * total - sum * share);
    if sum == net {
      var d := 2 * (share - total);
      assert 2 * (net * total - net * share) == -d * net;
      LessByMultiple(d, k + 1, net);
      LessByMultiple(-k - 1, d, net);
    }
  }

  predicate NoPositiveDiscount(lines: seq<S.Line>) {
    forall i :: 0 <= i < |lines| && lines[i].beneficiary == S.Locador && lines[i].kind.Descuento? ==>
        lines[i].amount <= 0
  }

  /** Twice the positive discounts on the lessors' lines: what the unsigned concepts count and settlement subtracts. */
  function DiscountGap(lines: seq<S.Line>): int {
    if lines == [] then 0
    else
      var l := lines[|lines| - 1];
      DiscountGap(lines[..|lines| - 1])
        + (if l.beneficiary == S.Locador && l.kind.Descuento? && l.amount > 0 then 2 * l.amount else 0)
  }

  lemma {:induction false} GrossTotal(lines: seq<S.Line>)
    ensures Total(Gross(lines)) == S.SumPicked(lines, S.For(S.Locador)) + DiscountGap(lines)
    ensures forall t :: t in Gross(lines) ==> t == Alquiler || t == Punitorio || t == ReintegroImpuesto || t == Ajuste
  {
    var pick := S.For(S.Locador);
    if lines != [] {
      var n := |lines| - 1;
      GrossTotal(lines[..n]);
      assert S.Picked(lines, pick)[..n] == S.Picked(lines[..n], pick);
      AddTotal(Gross(lines[..n]), TypeOfLine(lines[n].kind), lines[n].amount);
    }
  }

  lemma {:induction false} NonZeroSum(all: seq<Component>)
    ensures ComponentSum(NonZero(all)) == ComponentSum(all) && |NonZero(all)| <= |all|
  {
    if all != [] {
      var n := |all| - 1;
      NonZeroSum(all[..n]);
      var rest := NonZero(all[..n]);
      assert (rest + [all[n]])[..|rest|] == rest;
      assert rest + [] == rest;
    }
  }

  lemma ComponentSumOfSix(c: seq<Component>)
    requires |c| == 6
    ensures ComponentSum(c) == c[0].value + c[1].value + c[2].value + c[3].value + c[4].value + c[5].value
  {
    assert c[..5][..4] == c[..4] && c[..4][..3] == c[..3] && c[..3][..2] == c[..2] && c[..2][..1] == c[..1]
        && c[..1][..0] == [];
    assert ComponentSum(c[..1]) == c[0].value;
    assert ComponentSum(c[..2]) == c[0].value + c[1].value;
    assert ComponentSum(c[..3]) == ComponentSum(c[..2]) + c[2].value;
    assert ComponentSum(c[..4]) == ComponentSum(c[..3]) + c[3].value;
    assert ComponentSum(c[..5]) == ComponentSum(c[..4]) + c[4].value;
  }

  /**
    The components exceed the net of the settlement by exactly the discount gap: they add up to it
    if and only if no line of the lessors is a positive discount.
  */
  lemma {:induction false} ComponentsMissTheDiscounts(lines: seq<S.Line>, commission: Option<S.Commission>,
      currency: string, input: PostingInput)
    requires S.SettlementBuckets(lines, commission, currency).Ok?
    requires var b := S.SettlementBuckets(lines, commission, currency).value;
             input.lines == lines && input.commission == b.commission && input.adminFee == b.adminFee
                 && input.lessors == b.lessors
    ensures Posted(Components(input)) && |Components(input)| <= 6
    ensures ComponentSum(Components(input)) == input.lessors + DiscountGap(lines)
    ensures ComponentSum(Components(input)) == input.lessors <==> NoPositiveDiscount(lines)
  {
    hide NonZero, S.SettlementBuckets, Gross, Total, S.SumPicked, DiscountGap, ComponentSum;
    var g := Gross(lines);
    var all := [
      Component(Alquiler, Get(g, Alquiler)), Component(Punitorio, Get(g, Punitorio)),
      Component(ReintegroImpuesto, Get(g, ReintegroImpuesto)), Component(Ajuste, Get(g, Ajuste)),
      Component(Comision, -input.commission), Component(Honorario, -input.adminFee)];
    NonZeroPosted(all);
    NonZeroSum(all);
    ComponentSumOfSix(all);
    GrossTotal(lines);
    CreditsTotal(g);
    LessorsBucket(lines, commission, currency);
    GapIsZeroWhen(lines);
  }

  lemma CreditsTotal(g: Parts)
    requires forall t :: t in g ==> t == Alquiler || t == Punitorio || t == ReintegroImpuesto || t == Ajuste
    ensures Total(g) == Get(g, Alquiler) + Get(g, Punitorio) + Get(g, ReintegroImpuesto) + Get(g, Ajuste)
  {
  }

  lemma LessorsBucket(lines: seq<S.Line>, commission: Option<S.Commission>, currency: string)
    requires S.SettlementBuckets(lines, commission, currency).Ok?
    ensures var b := S.SettlementBuckets(lines, commission, currency).value;
            b.lessors == S.SumPicked(lines, S.For(S.Locador)) - b.commission - b.adminFee
  {
    hide S.SumPicked, S.CalculateCommission;
  }

  lemma {:induction false} GapIsZeroWhen(lines: seq<S.Line>)
    ensures DiscountGap(lines) >= 0
    ensures DiscountGap(lines) == 0 <==> NoPositiveDiscount(lines)
  {
    if lines != [] {
      var n := |lines| - 1;
      GapIsZeroWhen(lines[..n]);
      assert forall i :: 0 <= i < n ==> lines[..n][i] == lines[i];
    }
  }

  // ─── Settled payments ─────────────────────────────────

  lemma BucketsOfSettled(input: S.Input)
    requires S.Settle(input).Ok?
    ensures S.SettlementBuckets(input.lines, input.commission, input.currency) == Ok(S.Settle(input).value.buckets)
    ensures S.Whole(S.Settle(input).value.buckets)
  {
    hide S.PartsOf, S.Proportional, S.SettlementBuckets;
    SL.SplitsExactlyTheChecked(input);
  }

  /**
    In every settled payment without positive discounts of the lessors, the rounding the first credit of a
    position absorbs is at most three cents, whatever the position's share.
  */
  lemma SettledResidualIsAtMostThree(input: S.Input, share: int)
    requires S.Settle(input).Ok? && NoPositiveDiscount(input.lines)
    ensures var s := S.Settle(input).value;
            var components := Components(InputOfSettled(input.lines, s));
            s.buckets.lessors != 0 ==> -3 <= Residual(components, share, s.buckets.lessors) <= 3
  {
    hide S.Settle, S.SettlementBuckets, Components, Residual;
    var s := S.Settle(input).value;
    BucketsOfSettled(input);
    ComponentsMissTheDiscounts(input.lines, input.commission, input.currency, InputOfSettled(input.lines, s));
    if s.buckets.lessors != 0 {
      ResidualBound(Components(InputOfSettled(input.lines, s)), share, s.buckets.lessors);
    }
  }

  /**
    In every settled payment the residual of a position is, give or take three cents, minus its share of twice
    the positive discounts; of a position that gets the whole net, exactly that.
  */
  lemma SettledResidualIsTheGap(input: S.Input, share: int)
    requires S.Settle(input).Ok? && S.Settle(input).value.buckets.lessors > 0
    ensures var s := S.Settle(input).value;
            var net := s.buckets.lessors;
            var residual := Residual(Components(InputOfSettled(input.lines, s)), share, net);
            && -6 * net <= 2 * (net * residual + DiscountGap(input.lines) * share) <= 6 * net
            && (share == net ==> residual == -DiscountGap(input.lines))
  {
    hide S.Settle, S.SettlementBuckets, Components, Residual, DiscountGap, Prorated, ComponentSum;
    var s := S.Settle(input).value;
    var components, net, gap := Components(InputOfSettled(input.lines, s)), s.buckets.lessors, DiscountGap(input.lines);
    BucketsOfSettled(input);
    ComponentsMissTheDiscounts(input.lines, input.commission, input.currency, InputOfSettled(input.lines, s));
    ResidualBound(components, share, net);
    ResidualOfGap(net, net - ComponentSum(components), gap, share, Residual(components, share, net), |components|);
    if share == net { WholeShareResidual(components, net); }
  }

  lemma ResidualOfGap(net: int, missing: int, gap: int, share: int, residual: int, k: int)
    requires net > 0 && missing == -gap && 0 <= k <= 6
    requires -k * net <= 2 * (net * residual - missing * share) <= k * net
    ensures -6 * net <= 2 * (net * residual + gap * share) <= 6 * net
  {
    assert missing * share == -(gap * share);
    assert k * net <= 6 * net;
  }

  lemma {:induction false} WholeShare(components: seq<Component>, net: int)
    requires net > 0 && Posted(components)
    ensures Total(Prorated(components, net, net)) == ComponentSum(components)
  {
    hide Total, RoundDiv;
    if components == [] {
      NothingProrated(net, net);
    } else {
      var n := |components| - 1;
      WholeShare(components[..n], net);
      RoundDivExact(components[n].value, net);
      AddTotal(Prorated(components[..n], net, net), components[n].kind, components[n].value);
    }
  }

  lemma WholeShareResidual(components: seq<Component>, net: int)
    requires net > 0 && Posted(components)
    ensures Residual(components, net, net) == net - ComponentSum(components)
  {
    hide Total, Prorated, ComponentSum;
    WholeShare(components, net);
  }

  // ─── Signed splits ────────────────────────────────────

  /** The signed split adds up to the amount exactly, and nobody's part has the opposite sign. */
  lemma SplitByShareSum(amount: int, ws: seq<int>)
    ensures Sum(SplitByShare(amount, ws)) == if ws == [] then 0 else amount
    ensures forall i :: 0 <= i < |ws| ==>
              if amount < 0 then SplitByShare(amount, ws)[i] <= 0 else SplitByShare(amount, ws)[i] >= 0
  {
    if ws != [] {
      WeightsOfShares(ws);
      var used := if UsableWeights(ws) then ws else Ones(|ws|);
      AllocateIsLargestRemainder(Abs(amount), used);
      NonNegativeParts(Abs(amount), used);
      if amount < 0 {
        SumScale(Allocate(Abs(amount), used), -1, SplitByShare(amount, ws));
      }
    }
  }
}
