/**
  What the settlement promises: it only fails where it says so, no money appears or disappears in
  any flow, and a liquidation collected in any number of partial payments ends up split exactly as
  if it had been collected at once.
*/
module SettlementLaws {
  import opened Money
  import opened Rounding
  import opened Settlement
  import opened Sums
  import opened Wrappers

  // ─── The cumulative split ─────────────────────────────

  lemma AllocationOfValid(total: int, ws: seq<int>)
    requires ValidWeights(ws)
    ensures ws != [] && AllocationOf(total, ws) == Ok(Allocate(total, ws))
  {
  }

  /** A part of a split of at most the sum of the weights is never more than its weight. */
  lemma PartWithinWeight(total: int, ws: seq<int>, i: nat)
    requires ValidWeights(ws) && i < |ws| && 0 <= total <= Sum(ws)
    ensures 0 <= Allocate(total, ws)[i] <= ws[i]
  {
    hide QuotaRest, QuotaFloor, Allocate, Sum;
    NonNegativeParts(total, ws);
    AllocateIsLargestRemainder(total, ws);
    var sum := Sum(ws);
    var f, r := QuotaFloor(total, ws[i], sum), QuotaRest(total, ws[i], sum);
    FloorWithinWeight(total, ws[i], sum, f, r);
    if r == 0 { WholeQuotaIsExact(total, ws, i); }
  }

  lemma FloorWithinWeight(total: int, w: int, sum: int, f: int, r: int)
    requires 0 <= total <= sum && w >= 0 && 0 <= r < sum && total * w == f * sum + r
    ensures if r == 0 then f <= w else f < w
  {
    assert total * w <= w * sum by { MulLe(total, sum, w); }
    if r == 0 {
      assert (w + 1) * sum == w * sum + sum;
      LessByMultiple(f, w + 1, sum);
    } else {
      LessByMultiple(f, w, sum);
    }
  }

  /**
    For every amount up to the total the cumulative split exists (the zero-weight error is never
    reached), adds up to what was paid, and covers no destination beyond its bucket.
  */
  lemma CoveredAtIsASplit(paid: int, b: Buckets, mode: PartialAllocation)
    requires Whole(b) && 0 <= paid <= b.total
    ensures CoveredAt(paid, b, mode).Ok?
    ensures var s := CoveredAt(paid, b, mode).value;
            s.agency + s.ente + s.lessors == paid
            && 0 <= s.agency <= b.agency && 0 <= s.ente <= b.ente && 0 <= s.lessors <= b.lessors
  {
    hide Allocate, AllocationOf;
    if paid != b.total && paid != 0 {
      match mode
      case Proporcional =>
        var ws := [b.agency, b.ente, b.lessors];
        SumOfThree(ws);
        SplitBy(paid, ws);
        SumOfThree(Allocate(paid, ws));
      case InmobiliariaPrimero =>
        var rest := paid - Min(paid, b.agency);
        if rest != 0 {
          var ws := [b.ente, b.lessors];
          SumOfTwo(ws);
          SplitBy(rest, ws);
          SumOfTwo(Allocate(rest, ws));
        }
    }
  }

  lemma SplitBy(total: int, ws: seq<int>)
    requires ValidWeights(ws) && 0 <= total <= Sum(ws)
    ensures AllocationOf(total, ws) == Ok(Allocate(total, ws))
    ensures Sum(Allocate(total, ws)) == total
    ensures forall i :: 0 <= i < |ws| ==> 0 <= Allocate(total, ws)[i] <= ws[i]
  {
    AllocationOfValid(total, ws);
    hide QuotaRest, QuotaFloor, Allocate;
    AllocateIsLargestRemainder(total, ws);
    forall i | 0 <= i < |ws| ensures 0 <= Allocate(total, ws)[i] <= ws[i] {
      PartWithinWeight(total, ws, i);
    }
  }

  /** In proportional mode the two shortcuts (nothing paid, all paid) agree with the general rule. */
  lemma ProportionalCover(paid: int, b: Buckets)
    requires Whole(b) && 0 <= paid <= b.total && b.total > 0
    ensures var ws := [b.agency, b.ente, b.lessors];
            ValidWeights(ws)
            && var p := Allocate(paid, ws);
               CoveredAt(paid, b, Proporcional) == Ok(Split(p[0], p[1], p[2]))
  {
    hide Allocate;
    var ws := [b.agency, b.ente, b.lessors];
    SumOfThree(ws);
    AllocateZero(ws);
    AllocateWhole(ws);
    AllocationOfValid(paid, ws);
  }

  /** With the agency first, the two shortcuts agree with the rule for the rest as well. */
  lemma AgencyFirstCover(paid: int, b: Buckets)
    requires Whole(b) && 0 <= paid <= b.total && b.ente + b.lessors > 0
    ensures var ws := [b.ente, b.lessors];
            ValidWeights(ws)
            && var agency := Min(paid, b.agency);
               var p := Allocate(paid - agency, ws);
               CoveredAt(paid, b, InmobiliariaPrimero) == Ok(Split(agency, p[0], p[1]))
  {
    hide Allocate;
    var ws := [b.ente, b.lessors];
    SumOfTwo(ws);
    AllocateZero(ws);
    AllocateWhole(ws);
    AllocationOfValid(paid - Min(paid, b.agency), ws);
  }

  // ─── Bounds on what one payment gives ─────────────────

  /** No destination loses more than one cent of what earlier payments had given it. */
  lemma DestinationLosesAtMostACent(paid: int, paid': int, b: Buckets, mode: PartialAllocation)
    requires Whole(b) && 0 <= paid <= paid' <= b.total
    ensures CoveredAt(paid, b, mode).Ok? && CoveredAt(paid', b, mode).Ok?
    ensures var p := PaymentParts(CoveredAt(paid, b, mode).value, CoveredAt(paid', b, mode).value);
            p.agency >= -1 && p.ente >= -1 && p.lessors >= -1
            && (mode == InmobiliariaPrimero || b.agency == 0 || b.ente == 0 || b.lessors == 0
                ==> p.agency >= 0 && p.ente >= 0 && p.lessors >= 0)
  {
    hide Allocate, CoveredAt;
    CoveredAtIsASplit(paid, b, mode);
    CoveredAtIsASplit(paid', b, mode);
    if mode == Proporcional && b.total > 0 {
      var ws := [b.agency, b.ente, b.lessors];
      ProportionalCover(paid, b);
      ProportionalCover(paid', b);
      RaisingTotalLosesAtMostACent(paid, paid', ws, 0);
      RaisingTotalLosesAtMostACent(paid, paid', ws, 1);
      RaisingTotalLosesAtMostACent(paid, paid', ws, 2);
      if b.agency == 0 || b.ente == 0 || b.lessors == 0 {
        var x, y := if b.agency == 0 then 1 else 0, if b.lessors == 0 then 1 else 2;
        AtMostTwoMonotone(paid, paid', ws, x, y, 0);
        AtMostTwoMonotone(paid, paid', ws, x, y, 1);
        AtMostTwoMonotone(paid, paid', ws, x, y, 2);
      }
    } else if mode == InmobiliariaPrimero {
      AgencyFirstMonotone(paid, paid', b);
    }
  }

  lemma AgencyFirstMonotone(paid: int, paid': int, b: Buckets)
    requires Whole(b) && 0 <= paid <= paid' <= b.total
    ensures CoveredAt(paid, b, InmobiliariaPrimero).Ok? && CoveredAt(paid', b, InmobiliariaPrimero).Ok?
    ensures var s, s' := CoveredAt(paid, b, InmobiliariaPrimero).value, CoveredAt(paid', b, InmobiliariaPrimero).value;
            s.agency <= s'.agency && s.ente <= s'.ente && s.lessors <= s'.lessors
  {
    hide Allocate;
    CoveredAtIsASplit(paid, b, InmobiliariaPrimero);
    CoveredAtIsASplit(paid', b, InmobiliariaPrimero);
    if b.ente + b.lessors > 0 {
      AgencyFirstCover(paid, b);
      AgencyFirstCover(paid', b);
      var ws := [b.ente, b.lessors];
      TwoWeightsMonotone(paid - Min(paid, b.agency), paid' - Min(paid', b.agency), ws, 0, 1);
      TwoWeightsMonotone(paid - Min(paid, b.agency), paid' - Min(paid', b.agency), ws, 1, 0);
    }
  }

  /** No lessor loses more than one cent either, even when the lessors' part itself loses one. */
  lemma LessorLosesAtMostACent(before: int, after: int, ws: seq<int>, i: nat)
    requires ValidWeights(ws) && i < |ws| && after >= before - 1
    ensures LessorSplit(before, after, ws).Ok? && LessorSplit(before, after, ws).value[i] >= -1
  {
    hide Allocate;
    AllocateZero(ws);
    AllocationOfValid(before, ws);
    AllocationOfValid(after, ws);
    if after >= before {
      RaisingTotalLosesAtMostACent(before, after, ws, i);
    } else {
      OneMoreCentRaisesByAtMostOne(after, ws, i);
    }
  }

  // ─── When a payment is accepted ───────────────────────

  lemma SharesAreValid(ws: seq<int>)
    requires SharesAddUp(ws)
    ensures ValidWeights(ws)
  {
  }

  /**
    What the lessors have been given once `value` is theirs; it is what `Proportional` gives whenever the
    checks pass.
  */
  lemma ProportionalSum(value: int, ws: seq<int>)
    requires ws != [] || value == 0
    requires Proportional(value, ws).Ok?
    ensures Sum(Proportional(value, ws).value) == value
  {
    if value == 0 {
      SumZero(Zeros(|ws|));
    } else {
      SumNonNegative(ws);
      AllocateIsLargestRemainder(value, ws);
    }
  }

  ghost predicate Checked(input: Input) {
    input.amount > 0 && input.paidBefore >= 0
    && SettlementBuckets(input.lines, input.commission, input.currency).Ok?
    && (var b := SettlementBuckets(input.lines, input.commission, input.currency).value;
        input.paidBefore + input.amount <= b.total
        && (b.lessors > 0 ==> SharesAddUp(Weights(input.lessors))))
    && !(input.inCustody && input.receivedBy != ReceivedByAgency)
    && !(FlowOf(input) == FlowLocador && NamedReceiver(input).None? && input.lessors == [])
  }

  lemma CumulativeShares(value: int, b: Buckets, ws: seq<int>)
    requires 0 <= value <= b.lessors && (b.lessors > 0 ==> SharesAddUp(ws))
    ensures Proportional(value, ws).Ok? && Sum(Proportional(value, ws).value) == value
  {
    hide Allocate;
    if value > 0 {
      SharesAreValid(ws);
      AllocationOfValid(value, ws);
    }
    ProportionalSum(value, ws);
  }

  /** Exactly the checked payments are split; the largest-remainder errors never show here. */
  lemma SplitsExactlyTheChecked(input: Input)
    ensures PartsOf(input).Ok? <==> Checked(input)
    ensures PartsOf(input).Err? ==> !PartsOf(input).error.Allocation?
    ensures PartsOf(input).Ok? ==>
              var parts := PartsOf(input).value;
              var mode := input.options.partialAllocation;
              var before := CoveredAt(input.paidBefore, parts.buckets, mode);
              var after := CoveredAt(input.paidBefore + input.amount, parts.buckets, mode);
              && SettlementBuckets(input.lines, input.commission, input.currency) == Ok(parts.buckets)
              && Whole(parts.buckets)
              && before.Ok? && after.Ok?
              && parts.payment == PaymentParts(before.value, after.value)
              && parts.payment.agency + parts.payment.ente + parts.payment.lessors == input.amount
              && Sum(parts.shares) == parts.payment.lessors
              && Proportional(before.value.lessors, Weights(input.lessors)).Ok?
              && Proportional(after.value.lessors, Weights(input.lessors)).Ok?
              && parts.shares == Differences(Proportional(after.value.lessors, Weights(input.lessors)).value,
                                       Proportional(before.value.lessors, Weights(input.lessors)).value)
  {
    hide CoveredAt, Proportional, SettlementBuckets;
    var buckets := SettlementBuckets(input.lines, input.commission, input.currency);
    if input.amount > 0 && input.paidBefore >= 0 && buckets.Ok? {
      var b, mode, ws := buckets.value, input.options.partialAllocation, Weights(input.lessors);
      var paidAfter := input.paidBefore + input.amount;
      BucketsAreWhole(input.lines, input.commission, input.currency);
      if paidAfter <= b.total {
        CoveredAtIsASplit(input.paidBefore, b, mode);
        CoveredAtIsASplit(paidAfter, b, mode);
        var before, after := CoveredAt(input.paidBefore, b, mode).value, CoveredAt(paidAfter, b, mode).value;
        if b.lessors > 0 ==> SharesAddUp(ws) {
          CumulativeShares(before.lessors, b, ws);
          CumulativeShares(after.lessors, b, ws);
          DifferenceSum(Proportional(after.lessors, ws).value, Proportional(before.lessors, ws).value);
          var shares := LessorSplit(before.lessors, after.lessors, ws);
          assert shares
              == Ok(Differences(Proportional(after.lessors, ws).value, Proportional(before.lessors, ws).value));
          assert input.lessors == [] ==> shares.value == [];
        }
      }
    }
  }

  /** No payment takes back more than a cent from any destination, nor from any lessor. */
  lemma PaymentTakesBackAtMostACent(input: Input)
    requires Settle(input).Ok?
    ensures PartsOf(input).Ok?
    ensures var p := Settle(input).value.payment; p.agency >= -1 && p.ente >= -1 && p.lessors >= -1
    ensures forall i :: 0 <= i < |input.lessors| ==> PartsOf(input).value.shares[i] >= -1
  {
    hide Settle, PartsOf, CoveredAt, Proportional, SettlementBuckets;
    SettleIsChecked(input);
    SettlePayments(input);
    SplitsExactlyTheChecked(input);
    var b, mode, ws := PartsOf(input).value.buckets, input.options.partialAllocation, Weights(input.lessors);
    var paidAfter := input.paidBefore + input.amount;
    DestinationLosesAtMostACent(input.paidBefore, paidAfter, b, mode);
    var before, after := CoveredAt(input.paidBefore, b, mode).value, CoveredAt(paidAfter, b, mode).value;
    CoveredAtIsASplit(input.paidBefore, b, mode);
    CoveredAtIsASplit(paidAfter, b, mode);
    forall i | 0 <= i < |input.lessors| ensures PartsOf(input).value.shares[i] >= -1 {
      if b.lessors > 0 {
        SharesAreValid(ws);
        LessorLosesAtMostACent(before.lessors, after.lessors, ws, i);
      } else {
        NothingForNobody(ws);
      }
    }
  }

  lemma NothingForNobody(ws: seq<int>)
    ensures Proportional(0, ws) == Ok(Zeros(|ws|))
  {
  }

  lemma DifferenceSum(a: seq<int>, b: seq<int>)
    requires |a| == |b|
    ensures Sum(Differences(a, b)) == Sum(a) - Sum(b)
  {
    SumAdd(Differences(a, b), b, a);
  }

  /**
    A checked payment still fails in one family: a lessor received it and none is named, nothing of
    the liquidation is the lessors' (so their percentages were never checked), and the percentages
    cannot split what they owe.
  */
  lemma SettlesExactlyWhen(input: Input)
    requires Checked(input)
    ensures PartsOf(input).Ok?
    ensures Settle(input).Err? <==>
              && FlowOf(input) == FlowLocador && NamedReceiver(input).None?
              && PartsOf(input).value.buckets.lessors == 0
              && !ValidWeights(Weights(input.lessors))
    ensures Settle(input).Err? ==> Settle(input).error.Allocation?
  {
    hide CoveredAt;
    SplitsExactlyTheChecked(input);
    var parts, ws := PartsOf(input).value, Weights(input.lessors);
    if FlowOf(input) == FlowLocador && NamedReceiver(input).None? {
      var owed, kept := Owed(input, parts.payment), KeptForEnte(input, parts.payment);
      assert ws != [];
      if ValidWeights(ws) {
        AllocationOfValid(owed, ws);
        AllocationOfValid(kept, ws);
      } else {
        assert !SharesAddUp(ws);
        var b, mode := parts.buckets, input.options.partialAllocation;
        CoveredAtIsASplit(input.paidBefore, b, mode);
        CoveredAtIsASplit(input.paidBefore + input.amount, b, mode);
        assert parts.payment.lessors == 0 && owed + kept == input.amount;
        NotSplittable(owed, ws);
        NotSplittable(kept, ws);
      }
    }
  }

  lemma NotSplittable(value: int, ws: seq<int>)
    requires ws != [] && !ValidWeights(ws)
    ensures value != 0 ==> Proportional(value, ws).Err?
  {
    if forall i :: 0 <= i < |ws| ==> ws[i] >= 0 {
      SumNonNegative(ws);
    }
  }

  // ─── The money equation ───────────────────────────────

  lemma HolderOfWith(positions: seq<Position>, id: string)
    ensures Sum(Shares(WithHolder(positions, id))) == Sum(Shares(positions))
    ensures Sum(Balances(WithHolder(positions, id))) == Sum(Balances(positions))
    ensures Sum(Received(WithHolder(positions, id))) == Sum(Received(positions))
    ensures Sum(Custodies(WithHolder(positions, id))) == Sum(Custodies(positions))
  {
    var all := WithHolder(positions, id);
    if all != positions {
      assert Shares(all) == Shares(positions) + [0];
      assert Balances(all) == Balances(positions) + [0];
      assert Received(all) == Received(positions) + [0];
      assert Custodies(all) == Custodies(positions) + [0];
      SumSnoc(Shares(positions), 0);
      SumSnoc(Balances(positions), 0);
      SumSnoc(Received(positions), 0);
      SumSnoc(Custodies(positions), 0);
    }
  }

  lemma OpeningSums(lessors: seq<Lessor>, shares: seq<int>, flow: Flow)
    requires |shares| == |lessors|
    ensures var p := OpeningPositions(lessors, shares, flow);
            Shares(p) == shares && Balances(p) == shares
            && Sum(Received(p)) == 0
            && Sum(Custodies(p)) == if flow == FlowCustodia then Sum(shares) else 0
  {
    hide Sum;
    var p := OpeningPositions(lessors, shares, flow);
    SumZero(Received(p));
    if flow == FlowCustodia {
      assert Custodies(p) == shares;
    } else {
      SumZero(Custodies(p));
    }
  }

  lemma TookOwnPartSums(positions: seq<Position>, owes: seq<int>, kept: seq<int>)
    requires |owes| == |kept| == |positions|
    ensures var p := TookOwnPart(positions, owes, kept);
            Sum(Received(p)) == Sum(Shares(positions)) + Sum(owes) + Sum(kept)
            && Sum(Balances(p)) == -Sum(owes)
            && Custodies(p) == Custodies(positions)
  {
    var p := TookOwnPart(positions, owes, kept);
    var both := seq(|owes|, i requires 0 <= i < |owes| => owes[i] + kept[i]);
    SumAdd(owes, kept, both);
    SumAdd(Shares(positions), both, Received(p));
    SumScale(owes, -1, Balances(p));
  }

  lemma TookItAllSums(positions: seq<Position>, k: nat, amount: int, kept: int)
    requires k < |positions|
    requires forall i :: 0 <= i < |positions| ==>
      positions[i].balance == positions[i].share && positions[i].received == 0
    ensures var p := TookItAll(positions, k, amount, kept);
            Sum(Received(p)) == amount
            && Sum(Balances(p)) == Sum(Shares(positions)) + kept - amount
            && Custodies(p) == Custodies(positions)
  {
    var p := TookItAll(positions, k, amount, kept);
    assert Balances(positions) == Shares(positions);
    assert Received(p) == Received(positions)[k := amount];
    SumUpdate(Received(positions), k, amount);
    SumZero(Received(positions));
    assert Balances(p) == Balances(positions)[k := positions[k].share + kept - amount];
    SumUpdate(Balances(positions), k, positions[k].share + kept - amount);
  }

  /**
    No cent appears or disappears. What the agency's till, the custody accounts and the lessors'
    hands hold is the payment; and what the agency holds, less what it owes the lessors, is exactly
    its own part, plus the public bodies' when it keeps it for them.
  */
  lemma MoneyEquation(input: Input)
    requires Settle(input).Ok?
    ensures var s := Settle(input).value;
            && s.agencyCash + s.custodyTotal + Sum(Received(s.positions)) == input.amount
            && s.agencyCash + s.custodyTotal - Sum(Balances(s.positions))
               == s.payment.agency + (if s.enteHeldByAgency then s.payment.ente else 0)
            && s.payment.agency + s.payment.ente + s.payment.lessors == input.amount
  {
    SettleIsChecked(input);
    SplitsExactlyTheChecked(input);
    if FlowOf(input) != FlowLocador {
      AgencyReceives(input);
    } else if NamedReceiver(input).None? {
      LessorsReceive(input);
    } else {
      OneLessorReceives(input);
    }
  }

  lemma AgencyReceives(input: Input)
    requires Settle(input).Ok? && PartsOf(input).Ok? && FlowOf(input) != FlowLocador
    requires var parts := PartsOf(input).value; Sum(parts.shares) == parts.payment.lessors
    ensures var s, parts := Settle(input).value, PartsOf(input).value;
            && s.payment == parts.payment && s.enteHeldByAgency
            && Sum(Received(s.positions)) == 0
            && Sum(Balances(s.positions)) == parts.payment.lessors
            && s.agencyCash + s.custodyTotal == input.amount
  {
    hide PartsOf;
    OpeningSums(input.lessors, PartsOf(input).value.shares, FlowOf(input));
  }

  lemma LessorsReceive(input: Input)
    requires Settle(input).Ok? && PartsOf(input).Ok? && FlowOf(input) == FlowLocador && NamedReceiver(input).None?
    requires var parts := PartsOf(input).value; Sum(parts.shares) == parts.payment.lessors
    requires input.lessors != []
    ensures var s, parts := Settle(input).value, PartsOf(input).value;
            && s.payment == parts.payment && s.enteHeldByAgency == EnteHeldByAgency(input)
            && Sum(Received(s.positions))
                == parts.payment.lessors + Owed(input, parts.payment) + KeptForEnte(input, parts.payment)
            && Sum(Balances(s.positions)) == -Owed(input, parts.payment)
            && s.agencyCash + s.custodyTotal == 0
  {
    hide PartsOf, Proportional, Owed, KeptForEnte;
    var parts, ws := PartsOf(input).value, Weights(input.lessors);
    var opening := OpeningPositions(input.lessors, parts.shares, FlowLocador);
    OpeningSums(input.lessors, parts.shares, FlowLocador);
    var owed, kept := Owed(input, parts.payment), KeptForEnte(input, parts.payment);
    ProportionalSum(owed, ws);
    ProportionalSum(kept, ws);
    TookOwnPartSums(opening, Proportional(owed, ws).value, Proportional(kept, ws).value);
  }

  lemma OneLessorReceives(input: Input)
    requires Settle(input).Ok? && PartsOf(input).Ok? && FlowOf(input) == FlowLocador && NamedReceiver(input).Some?
    requires var parts := PartsOf(input).value; Sum(parts.shares) == parts.payment.lessors
    ensures var s, parts := Settle(input).value, PartsOf(input).value;
            && s.payment == parts.payment && s.enteHeldByAgency == EnteHeldByAgency(input)
            && Sum(Received(s.positions)) == input.amount
            && Sum(Balances(s.positions)) == parts.payment.lessors + KeptForEnte(input, parts.payment) - input.amount
            && s.agencyCash + s.custodyTotal == 0
  {
    hide PartsOf, KeptForEnte, Sum, Proportional, Owed;
    var parts, id := PartsOf(input).value, NamedReceiver(input).value;
    var opening := OpeningPositions(input.lessors, parts.shares, FlowLocador);
    OpeningSums(input.lessors, parts.shares, FlowLocador);
    HolderOfWith(opening, id);
    TookItAllSums(WithHolder(opening, id), HolderIndex(opening, id), input.amount, KeptForEnte(input, parts.payment));
  }

  /** Owed by the one who took the money to somebody else, for the whole of that one's share. */
  predicate IsDue(c: Compensation, positions: seq<Position>, k: nat, id: string) {
    c.fromLessorId == id && exists i :: 0 <= i < |positions| && i != k && IsShareOf(c, positions[i])
  }

  predicate IsShareOf(c: Compensation, p: Position) {
    c.toLessorId == p.personId && c.amount == p.share && p.share > 0
  }

  /**
    The compensations go from the one who took the money to the others, each for a positive share, and
    together they are exactly the positive shares of everybody else.
  */
  lemma {:induction false} CompensationsCoverTheOthers(positions: seq<Position>, k: nat, id: string)
    ensures Sum(CompensationAmounts(CompensationsFrom(positions, k, id))) == Sum(PositiveSharesBut(positions, k))
    ensures forall c :: c in CompensationsFrom(positions, k, id) ==> IsDue(c, positions, k, id)
  {
    hide Sum;
    if positions == [] {
      assert CompensationAmounts([]) == [] == PositiveSharesBut([], k);
    } else {
      var n := |positions| - 1;
      CompensationsCoverTheOthers(positions[..n], k, id);
      var shares, rest := PositiveSharesBut(positions[..n], k), CompensationsFrom(positions[..n], k, id);
      forall c | c in CompensationsFrom(positions, k, id) ensures IsDue(c, positions, k, id) {
        if c in rest {
          var i :| 0 <= i < n && i != k && IsShareOf(c, positions[..n][i]);
          assert IsShareOf(c, positions[i]);
        } else {
          assert IsShareOf(c, positions[n]);
        }
      }
      if n != k && positions[n].share > 0 {
        assert PositiveSharesBut(positions, k) == shares + [positions[n].share];
        SumSnoc(shares, positions[n].share);
        OneMoreCompensation(rest, Compensation(id, positions[n].personId, positions[n].share));
      } else {
        assert PositiveSharesBut(positions, k) == shares + [0];
        SumSnoc(shares, 0);
        assert rest + [] == rest;
      }
    }
  }

  lemma OneMoreCompensation(rest: seq<Compensation>, c: Compensation)
    ensures Sum(CompensationAmounts(rest + [c])) == Sum(CompensationAmounts(rest)) + c.amount
  {
    hide Sum;
    assert CompensationAmounts(rest + [c]) == CompensationAmounts(rest) + [c.amount];
    SumSnoc(CompensationAmounts(rest), c.amount);
  }

  function CompensationAmounts(cs: seq<Compensation>): seq<int> {
    seq(|cs|, i requires 0 <= i < |cs| => cs[i].amount)
  }

  function PositiveSharesBut(positions: seq<Position>, k: nat): seq<int> {
    seq(|positions|, i requires 0 <= i < |positions| =>
      if i != k && positions[i].share > 0 then positions[i].share else 0)
  }

  // ─── Partial payments ─────────────────────────────────

  /**
    What a payment is settled with besides the payment itself. It is read again at each one, so it can change
    between the payments of a liquidation: `SettlementChanges` says what that does. Here it stays the same.
  */
  datatype Terms = Terms(
    currency: string, lines: seq<Line>, commission: Option<Commission>, lessors: seq<Lessor>, mode: PartialAllocation)

  /** One partial payment: its amount, and everything that may differ from the one before it. */
  datatype Cut = Cut(
    amount: int, receivedBy: Receiver, inCustody: bool, receiverPersonId: Option<string>, owes: LessorDirectOwes)

  function InputOf(t: Terms, paidBefore: int, c: Cut): Input {
    Input(t.currency, t.lines, t.commission, t.lessors, paidBefore, c.amount, c.receivedBy, c.inCustody,
          c.receiverPersonId, Options(c.owes, t.mode))
  }

  function Amounts(cuts: seq<Cut>): seq<int> {
    seq(|cuts|, i requires 0 <= i < |cuts| => cuts[i].amount)
  }

  function Paid(cuts: seq<Cut>): int { Sum(Amounts(cuts)) }

  /** The payments of a liquidation one after another; the first that is refused stops the run. */
  function Run(t: Terms, cuts: seq<Cut>): (r: Result<seq<Settled>, SettlementError>)
    ensures r.Ok? ==> |r.value| == |cuts|
  {
    if cuts == [] then Ok([])
    else
      var n := |cuts| - 1;
      match Run(t, cuts[..n])
      case Err(e) => Err(e)
      case Ok(done) =>
        match Settle(InputOf(t, Paid(cuts[..n]), cuts[n]))
        case Err(e) => Err(e)
        case Ok(s) => Ok(done + [s])
  }

  function PaymentSum(done: seq<Settled>): Split {
    if done == [] then Split(0, 0, 0)
    else
      var n := |done| - 1;
      var rest := PaymentSum(done[..n]);
      Split(rest.agency + done[n].payment.agency, rest.ente + done[n].payment.ente,
            rest.lessors + done[n].payment.lessors)
  }

  function ShareOf(s: Settled, i: nat): int {
    if i < |s.positions| then s.positions[i].share else 0
  }

  function ShareSum(done: seq<Settled>, i: nat): int {
    Sum(seq(|done|, k requires 0 <= k < |done| => ShareOf(done[k], i)))
  }

  lemma PaidSnoc(cuts: seq<Cut>)
    requires cuts != []
    ensures Paid(cuts) == Paid(cuts[..|cuts| - 1]) + cuts[|cuts| - 1].amount
  {
    assert Amounts(cuts)[..|cuts| - 1] == Amounts(cuts[..|cuts| - 1]);
  }

  lemma SharesOfSettled(input: Input, i: nat)
    requires Settle(input).Ok? && i < |input.lessors|
    ensures PartsOf(input).Ok? && ShareOf(Settle(input).value, i) == PartsOf(input).value.shares[i]
    ensures Settle(input).value.payment == PartsOf(input).value.payment
  {
    hide PartsOf, Proportional;
  }

  lemma ShareSumSnoc(done: seq<Settled>, s: Settled, i: nat)
    ensures ShareSum(done + [s], i) == ShareSum(done, i) + ShareOf(s, i)
  {
    var all := done + [s];
    var shares := seq(|done|, k requires 0 <= k < |done| => ShareOf(done[k], i));
    assert seq(|all|, k requires 0 <= k < |all| => ShareOf(all[k], i)) == shares + [ShareOf(s, i)];
    SumSnoc(shares, ShareOf(s, i));
  }

  /** Every lessor has been given exactly its part of what the lessors have been given. */
  ghost predicate LessorsGotTheirSplit(t: Terms, done: seq<Settled>) {
    Proportional(PaymentSum(done).lessors, Weights(t.lessors)).Ok?
    && forall i: nat :: i < |t.lessors| ==>
         ShareSum(done, i) == Proportional(PaymentSum(done).lessors, Weights(t.lessors)).value[i]
  }

  /**
    However the payments are cut, whoever receives each of them and whatever each lessor owes for
    it, after a run the agency, the public bodies and every lessor have been given exactly the
    cumulative split of what has been paid.
  */
  lemma {:induction false} RunGivesTheCumulativeSplit(t: Terms, cuts: seq<Cut>, b: Buckets)
    requires SettlementBuckets(t.lines, t.commission, t.currency) == Ok(b)
    requires Run(t, cuts).Ok?
    ensures CoveredAt(Paid(cuts), b, t.mode) == Ok(PaymentSum(Run(t, cuts).value))
    ensures cuts != [] ==> 0 <= Paid(cuts) <= b.total
    ensures LessorsGotTheirSplit(t, Run(t, cuts).value)
  {
    hide SettlementBuckets, PartsOf, CoveredAt, Proportional, Settle, ShareSum, PaymentSum, Paid;
    if cuts == [] {
      NothingPaid(t, b);
    } else {
      var n := |cuts| - 1;
      RunGivesTheCumulativeSplit(t, cuts[..n], b);
      PaidSnoc(cuts);
      OneMorePayment(t, b, Paid(cuts[..n]), cuts[n], Run(t, cuts[..n]).value);
    }
  }

  lemma NothingPaid(t: Terms, b: Buckets)
    requires SettlementBuckets(t.lines, t.commission, t.currency) == Ok(b)
    ensures Paid([]) == 0 && CoveredAt(0, b, t.mode) == Ok(PaymentSum([]))
    ensures LessorsGotTheirSplit(t, [])
  {
    hide SettlementBuckets;
    BucketsAreWhole(t.lines, t.commission, t.currency);
  }

  lemma OneMorePayment(t: Terms, b: Buckets, paid: int, cut: Cut, done: seq<Settled>)
    requires SettlementBuckets(t.lines, t.commission, t.currency) == Ok(b)
    requires CoveredAt(paid, b, t.mode) == Ok(PaymentSum(done))
    requires LessorsGotTheirSplit(t, done)
    requires Settle(InputOf(t, paid, cut)).Ok?
    ensures var all := done + [Settle(InputOf(t, paid, cut)).value];
            && CoveredAt(paid + cut.amount, b, t.mode) == Ok(PaymentSum(all))
            && 0 <= paid + cut.amount <= b.total
            && LessorsGotTheirSplit(t, all)
  {
    hide SettlementBuckets, PartsOf, CoveredAt, Proportional, Settle, ShareSum;
    var input := InputOf(t, paid, cut);
    var s, ws := Settle(input).value, Weights(t.lessors);
    SettleIsChecked(input);
    SplitsExactlyTheChecked(input);
    SettlePayments(input);
    assert (done + [s])[..|done|] == done;
    forall i: nat | i < |t.lessors|
      ensures ShareSum(done + [s], i) == Proportional(PaymentSum(done + [s]).lessors, ws).value[i]
    {
      SharesOfSettled(input, i);
      ShareSumSnoc(done, s, i);
    }
  }

  lemma SettleIsChecked(input: Input)
    requires Settle(input).Ok?
    ensures PartsOf(input).Ok? && Checked(input)
  {
    hide PartsOf;
    SplitsExactlyTheChecked(input);
  }

  lemma SettlePayments(input: Input)
    requires Settle(input).Ok?
    ensures PartsOf(input).Ok? && Settle(input).value.payment == PartsOf(input).value.payment
  {
    hide PartsOf, Proportional;
  }

  /** Two ways of cutting the same amount give everybody the same. */
  lemma PathIndependence(t: Terms, cuts: seq<Cut>, cuts': seq<Cut>)
    requires SettlementBuckets(t.lines, t.commission, t.currency).Ok?
    requires Run(t, cuts).Ok? && Run(t, cuts').Ok? && Paid(cuts) == Paid(cuts')
    ensures PaymentSum(Run(t, cuts).value) == PaymentSum(Run(t, cuts').value)
    ensures forall i: nat :: i < |t.lessors| ==>
              ShareSum(Run(t, cuts).value, i) == ShareSum(Run(t, cuts').value, i)
  {
    hide SettlementBuckets, CoveredAt, Proportional, Run, ShareSum, PaymentSum;
    var b := SettlementBuckets(t.lines, t.commission, t.currency).value;
    RunGivesTheCumulativeSplit(t, cuts, b);
    RunGivesTheCumulativeSplit(t, cuts', b);
  }

  /** A run that reaches the total gives each destination its bucket, and each lessor its largest-remainder part. */
  lemma PaidInFull(t: Terms, cuts: seq<Cut>, b: Buckets)
    requires SettlementBuckets(t.lines, t.commission, t.currency) == Ok(b)
    requires Run(t, cuts).Ok? && Paid(cuts) == b.total
    ensures PaymentSum(Run(t, cuts).value) == Split(b.agency, b.ente, b.lessors)
    ensures b.lessors > 0 && cuts != [] ==> ValidWeights(Weights(t.lessors))
    ensures forall i: nat :: i < |t.lessors| && cuts != [] ==>
              ShareSum(Run(t, cuts).value, i)
              == if b.lessors > 0 then Allocate(b.lessors, Weights(t.lessors))[i] else 0
  {
    hide SettlementBuckets, Settle, Allocate;
    RunGivesTheCumulativeSplit(t, cuts, b);
    if cuts != [] {
      SettleIsChecked(InputOf(t, Paid(cuts[..|cuts| - 1]), cuts[|cuts| - 1]));
      BucketsAreWhole(t.lines, t.commission, t.currency);
      if b.lessors > 0 {
        AllocationOfValid(b.lessors, Weights(t.lessors));
      }
      assert PaymentSum(Run(t, cuts).value).lessors == b.lessors;
    }
  }

  /** A payment that can be received: a positive amount, and lessors who can split what they owe for it. */
  predicate CanBeReceived(t: Terms, b: Buckets, c: Cut) {
    && c.amount > 0
    && !(c.inCustody && c.receivedBy == ReceivedByLessor)
    && (c.receivedBy == ReceivedByLessor && (c.receiverPersonId == None || c.receiverPersonId == Some("")) ==>
          t.lessors != [] && (b.lessors > 0 || ValidWeights(Weights(t.lessors))))
  }

  /**
    A run of payments, whoever receives them, goes through exactly when each can be received, they do not
    exceed the total, and the lessors' percentages add up when something is theirs: the cutting itself is
    never a reason to refuse.
  */
  lemma {:induction false} AnyCutIsAccepted(t: Terms, cuts: seq<Cut>, b: Buckets)
    requires SettlementBuckets(t.lines, t.commission, t.currency) == Ok(b)
    ensures Run(t, cuts).Ok? <==>
              cuts == [] || (&& Paid(cuts) <= b.total
                             && (b.lessors > 0 ==> SharesAddUp(Weights(t.lessors)))
                             && forall i :: 0 <= i < |cuts| ==> CanBeReceived(t, b, cuts[i]))
  {
    hide SettlementBuckets, Settle, CanBeReceived, Paid;
    if cuts != [] {
      var n := |cuts| - 1;
      AnyCutIsAccepted(t, cuts[..n], b);
      PaidSnoc(cuts);
      assert forall i :: 0 <= i < n ==> cuts[..n][i] == cuts[i];
      if forall i :: 0 <= i < n ==> CanBeReceived(t, b, cuts[i]) {
        PaidIsNotNegative(t, cuts[..n], b);
        CutSettlesWhen(t, Paid(cuts[..n]), cuts[n], b);
      }
    }
  }

  lemma PaidIsNotNegative(t: Terms, cuts: seq<Cut>, b: Buckets)
    requires forall i :: 0 <= i < |cuts| ==> CanBeReceived(t, b, cuts[i])
    ensures Paid(cuts) >= 0
  {
    SumNonNegative(Amounts(cuts));
  }

  lemma CutSettlesWhen(t: Terms, paid: int, c: Cut, b: Buckets)
    requires SettlementBuckets(t.lines, t.commission, t.currency) == Ok(b) && paid >= 0
    ensures Settle(InputOf(t, paid, c)).Ok? <==>
              && paid + c.amount <= b.total && (b.lessors > 0 ==> SharesAddUp(Weights(t.lessors)))
              && CanBeReceived(t, b, c)
    ensures CanBeReceived(t, b, c) ==> c.amount > 0
  {
    hide SettlementBuckets, Settle, PartsOf;
    var input := InputOf(t, paid, c);
    BucketsAreWhole(t.lines, t.commission, t.currency);
    SplitsExactlyTheChecked(input);
    if Checked(input) {
      SettlesExactlyWhen(input);
      if b.lessors > 0 { SharesAreValid(Weights(t.lessors)); }
    }
    if Settle(input).Ok? { SettleIsChecked(input); }
  }
}
