/**
  The settlement of one payment: how much of it is the agency's, the public bodies' and each
  lessor's, in the three cash flows. Amounts are whole cents; percentages are in units of
  1/10000 % (100 % is 1 000 000).
*/
module Settlement {
  import opened Money
  import opened Rounding
  import opened Sums
  import opened Wrappers

  datatype Beneficiary = Inmobiliaria | Ente | Locador

  datatype LineType =
    | Alquiler | Ajuste | Extra | Descuento | Multa | Impuesto | Servicio | Cargo | Honorario | AjusteRetroactivo

  datatype Line = Line(
    amount: int, beneficiary: Beneficiary, commissionable: bool, kind: LineType, currency: Option<string>)

  /** A discount subtracts even when it is stored as a positive amount. */
  function SignedAmount(line: Line): int {
    if line.kind.Descuento? then (if line.amount >= 0 then -line.amount else line.amount) else line.amount
  }

  datatype SettlementError =
    | InvalidAmount | CurrencyMismatch | NegativeShare | ExceedsTotal | LessorShares | CustodyRequiresAgency
    | Allocation(cause: AllocationError)

  // ─── Commission ───────────────────────────────────────

  datatype CommissionType = FixedPercent | FixedAmount | Mixed

  datatype Commission = Commission(kind: CommissionType, percentage: int, fixedAmount: int, adminFee: int)

  datatype CommissionAmounts = CommissionAmounts(commission: int, adminFee: int)

  /** None when the percentage is outside 0..100 or an amount is negative. */
  function CalculateCommission(base: int, c: Commission): Option<CommissionAmounts> {
    if c.percentage < 0 || c.percentage > FULL_PCT then None
    else if base < 0 || c.fixedAmount < 0 || c.adminFee < 0 then None
    else
      var pct := RoundDiv(base * c.percentage, FULL_PCT);
      var amount := match c.kind
        case FixedPercent => pct
        case FixedAmount => c.fixedAmount
        case Mixed => c.fixedAmount + pct;
      Some(CommissionAmounts(amount, c.adminFee))
  }

  // ─── Buckets ──────────────────────────────────────────

  datatype Buckets = Buckets(
    total: int, commissionBase: int, commission: int, adminFee: int, agencyLines: int,
    agency: int, ente: int, lessors: int)

  /** Which lines a bucket adds up. */
  datatype Pick = Every | Commissionable | For(beneficiary: Beneficiary)

  predicate Picks(pick: Pick, line: Line) {
    match pick
    case Every => true
    case Commissionable => line.commissionable
    case For(b) => line.beneficiary == b
  }

  function Picked(lines: seq<Line>, pick: Pick): seq<int> {
    seq(|lines|, i requires 0 <= i < |lines| => if Picks(pick, lines[i]) then SignedAmount(lines[i]) else 0)
  }

  function SumPicked(lines: seq<Line>, pick: Pick): int {
    Sum(Picked(lines, pick))
  }

  /** What each destination gets of the whole liquidation. */
  function SettlementBuckets(lines: seq<Line>, commission: Option<Commission>, currency: string)
    : (r: Result<Buckets, SettlementError>)
    ensures r.Err? ==> r.error == CurrencyMismatch || r.error == NegativeShare
  {
    if exists i :: 0 <= i < |lines| && lines[i].currency.Some? && lines[i].currency.value != ""
                   && lines[i].currency.value != currency
    then Err(CurrencyMismatch)
    else
      var total := SumPicked(lines, Every);
      var base := SumPicked(lines, Commissionable);
      var agencyLines := SumPicked(lines, For(Inmobiliaria));
      var ente := SumPicked(lines, For(Ente));
      var lessorLines := SumPicked(lines, For(Locador));
      if commission.Some? && base < 0 then Err(NegativeShare)
      else
        var amounts := if commission.Some? then CalculateCommission(base, commission.value)
                       else Some(CommissionAmounts(0, 0));
        if amounts.None? then Err(NegativeShare)
        else
          var c, fee := amounts.value.commission, amounts.value.adminFee;
          var agency, lessors := c + fee + agencyLines, lessorLines - c - fee;
          if agency < 0 || ente < 0 || lessors < 0 then Err(NegativeShare)
          else Ok(Buckets(total, base, c, fee, agencyLines, agency, ente, lessors))
  }

  /** Every bucket is non-negative, and together they are the whole liquidation. */
  ghost predicate Whole(b: Buckets) {
    b.agency >= 0 && b.ente >= 0 && b.lessors >= 0 && b.agency + b.ente + b.lessors == b.total
  }

  lemma BucketsAreWhole(lines: seq<Line>, commission: Option<Commission>, currency: string)
    requires SettlementBuckets(lines, commission, currency).Ok?
    ensures Whole(SettlementBuckets(lines, commission, currency).value)
  {
    var a := Picked(lines, For(Inmobiliaria));
    var e := Picked(lines, For(Ente));
    var o := Picked(lines, For(Locador));
    var ae := seq(|lines|, i requires 0 <= i < |lines| => a[i] + e[i]);
    SumAdd(a, e, ae);
    SumAdd(ae, o, Picked(lines, Every));
  }

  // ─── Cumulative split ─────────────────────────────────

  datatype PartialAllocation = Proporcional | InmobiliariaPrimero

  datatype Split = Split(agency: int, ente: int, lessors: int)

  /** What is covered of each destination once `paid` of the liquidation has been collected. */
  function CoveredAt(paid: int, b: Buckets, mode: PartialAllocation): Result<Split, AllocationError> {
    if paid == b.total then Ok(Split(b.agency, b.ente, b.lessors))
    else if paid == 0 then Ok(Split(0, 0, 0))
    else match mode
      case InmobiliariaPrimero =>
        var agency := Min(paid, b.agency);
        var rest := paid - agency;
        if rest == 0 then Ok(Split(agency, 0, 0))
        else (match AllocationOf(rest, [b.ente, b.lessors])
              case Err(e) => Err(e)
              case Ok(p) => Ok(Split(agency, p[0], p[1])))
      case Proporcional =>
        (match AllocationOf(paid, [b.agency, b.ente, b.lessors])
         case Err(e) => Err(e)
         case Ok(p) => Ok(Split(p[0], p[1], p[2])))
  }

  function Zeros(n: nat): seq<int> { seq(n, _ => 0) }

  /** A split of zero asks nothing of the weights. */
  function Proportional(value: int, ws: seq<int>): (r: Result<seq<int>, AllocationError>)
    ensures r.Ok? ==> |r.value| == |ws|
  {
    if value == 0 then Ok(Zeros(|ws|)) else AllocationOf(value, ws)
  }

  /** Each lessor's part of a payment is the difference between two cumulative splits. */
  function LessorSplit(before: int, after: int, ws: seq<int>): (r: Result<seq<int>, AllocationError>)
    ensures r.Ok? ==> |r.value| == |ws|
  {
    var a := Proportional(after, ws);
    if a.Err? then a
    else
      var b := Proportional(before, ws);
      if b.Err? then b else Ok(Differences(a.value, b.value))
  }

  // ─── One payment ──────────────────────────────────────

  datatype Lessor = Lessor(personId: string, payoutPct: int)

  datatype Receiver = ReceivedByAgency | ReceivedByLessor

  datatype LessorDirectOwes = TodoLoAjeno | SoloInmobiliaria

  datatype Options = Options(lessorDirectOwes: LessorDirectOwes, partialAllocation: PartialAllocation)

  datatype Input = Input(
    currency: string, lines: seq<Line>, commission: Option<Commission>, lessors: seq<Lessor>,
    paidBefore: int, amount: int, receivedBy: Receiver, inCustody: bool,
    receiverPersonId: Option<string>, options: Options)

  datatype Flow = FlowInmobiliaria | FlowCustodia | FlowLocador

  datatype Position = Position(personId: string, share: int, received: int, custody: int, balance: int)

  datatype Compensation = Compensation(fromLessorId: string, toLessorId: string, amount: int)

  datatype Settled = Settled(
    flow: Flow, currency: string, buckets: Buckets, payment: Split, agencyCash: int, custodyTotal: int,
    enteHeldByAgency: bool, positions: seq<Position>, compensations: seq<Compensation>)

  function Weights(lessors: seq<Lessor>): seq<int> {
    seq(|lessors|, i requires 0 <= i < |lessors| => lessors[i].payoutPct)
  }

  predicate SharesAddUp(ws: seq<int>) {
    ws != [] && Sum(ws) == FULL_PCT && forall i :: 0 <= i < |ws| ==> ws[i] >= 0
  }

  function FlowOf(input: Input): Flow {
    if input.receivedBy == ReceivedByLessor then FlowLocador
    else if input.inCustody then FlowCustodia else FlowInmobiliaria
  }

  /** The lessor named as the one who took the money; an empty name is no name. */
  function NamedReceiver(input: Input): Option<string> {
    if input.receiverPersonId == Some("") then None else input.receiverPersonId
  }

  /** Payment part of each destination: what is covered after it, less what was covered before it. */
  function PaymentParts(before: Split, after: Split): Split {
    Split(after.agency - before.agency, after.ente - before.ente, after.lessors - before.lessors)
  }

  function OpeningPositions(lessors: seq<Lessor>, shares: seq<int>, flow: Flow): seq<Position>
    requires |shares| == |lessors|
  {
    seq(|lessors|, i requires 0 <= i < |lessors| =>
      Position(lessors[i].personId, shares[i], 0, if flow == FlowCustodia then shares[i] else 0, shares[i]))
  }

  /** Every lessor took its own part in hand: it owes its part of what is not the lessors'. */
  function TookOwnPart(positions: seq<Position>, owes: seq<int>, kept: seq<int>): seq<Position>
    requires |owes| == |kept| == |positions|
  {
    seq(|positions|, i requires 0 <= i < |positions| =>
      positions[i].(received := positions[i].share + owes[i] + kept[i], balance := -owes[i]))
  }

  function HolderIndex(positions: seq<Position>, id: string): (k: nat)
    ensures k <= |positions|
  {
    if positions == [] then 0
    else if positions[0].personId == id then 0
    else 1 + HolderIndex(positions[1..], id)
  }

  /** The positions with the receiver among them: it is appended when it is not a lessor of the contract. */
  function WithHolder(positions: seq<Position>, id: string): (r: seq<Position>)
    ensures HolderIndex(positions, id) < |r|
  {
    if HolderIndex(positions, id) < |positions| then positions
    else positions + [Position(id, 0, 0, 0, 0)]
  }

  /** One lessor took the whole payment: it answers for all of it but its share and what it pays the bodies. */
  function TookItAll(positions: seq<Position>, k: nat, amount: int, kept: int): seq<Position>
    requires k < |positions|
  {
    positions[k := positions[k].(received := amount, balance := positions[k].share + kept - amount)]
  }

  function CompensationsFrom(positions: seq<Position>, k: nat, id: string): seq<Compensation> {
    if positions == [] then []
    else
      var n := |positions| - 1;
      var p := positions[n];
      CompensationsFrom(positions[..n], k, id)
        + (if n != k && p.share > 0 then [Compensation(id, p.personId, p.share)] else [])
  }

  function Shares(positions: seq<Position>): seq<int> {
    seq(|positions|, i requires 0 <= i < |positions| => positions[i].share)
  }

  function Received(positions: seq<Position>): seq<int> {
    seq(|positions|, i requires 0 <= i < |positions| => positions[i].received)
  }

  function Custodies(positions: seq<Position>): seq<int> {
    seq(|positions|, i requires 0 <= i < |positions| => positions[i].custody)
  }

  function Balances(positions: seq<Position>): seq<int> {
    seq(|positions|, i requires 0 <= i < |positions| => positions[i].balance)
  }

  /** What a payment leaves decided before anyone's position is written. */
  datatype Parts = Parts(
    buckets: Buckets, payment: Split, lessorsBefore: int, lessorsAfter: int, shares: seq<int>)

  /** The checks and the split of a payment, up to the share of each lessor. */
  function PartsOf(input: Input): (r: Result<Parts, SettlementError>)
    ensures r.Ok? ==> |r.value.shares| == |input.lessors|
  {
    if input.amount <= 0 || input.paidBefore < 0 then Err(InvalidAmount)
    else
      match SettlementBuckets(input.lines, input.commission, input.currency)
      case Err(e) => Err(e)
      case Ok(b) =>
        var paidAfter := input.paidBefore + input.amount;
        if paidAfter > b.total then Err(ExceedsTotal)
        else if input.inCustody && input.receivedBy != ReceivedByAgency then Err(CustodyRequiresAgency)
        else
          var mode := input.options.partialAllocation;
          var before, after := CoveredAt(input.paidBefore, b, mode), CoveredAt(paidAfter, b, mode);
          if before.Err? then Err(Allocation(before.error))
          else if after.Err? then Err(Allocation(after.error))
          else
            var ws := Weights(input.lessors);
            if b.lessors > 0 && !SharesAddUp(ws) then Err(LessorShares)
            else
              var shares := if input.lessors == [] then Ok([])
                            else LessorSplit(before.value.lessors, after.value.lessors, ws);
              if shares.Err? then Err(Allocation(shares.error))
              else if FlowOf(input) == FlowLocador && NamedReceiver(input).None? && input.lessors == []
              then Err(LessorShares)
              else Ok(Parts(b, PaymentParts(before.value, after.value),
                            before.value.lessors, after.value.lessors, shares.value))
  }

  predicate EnteHeldByAgency(input: Input) {
    !(FlowOf(input) == FlowLocador && input.options.lessorDirectOwes == SoloInmobiliaria)
  }

  /** What the receiving lessor owes the agency for a direct payment, and what it keeps for the bodies. */
  function Owed(input: Input, payment: Split): int {
    if EnteHeldByAgency(input) then payment.agency + payment.ente else payment.agency
  }

  function KeptForEnte(input: Input, payment: Split): int {
    if EnteHeldByAgency(input) then 0 else payment.ente
  }

  function SettledWith(input: Input, parts: Parts, positions: seq<Position>,
      compensations: seq<Compensation>): Settled {
    var custodyTotal := Sum(Custodies(positions));
    Settled(
      FlowOf(input), input.currency, parts.buckets, parts.payment,
      if FlowOf(input) == FlowLocador then 0 else input.amount - custodyTotal,
      custodyTotal, EnteHeldByAgency(input), positions, compensations)
  }

  function Settle(input: Input): Result<Settled, SettlementError> {
    match PartsOf(input)
    case Err(e) => Err(e)
    case Ok(parts) =>
      var positions := OpeningPositions(input.lessors, parts.shares, FlowOf(input));
      if FlowOf(input) != FlowLocador then Ok(SettledWith(input, parts, positions, []))
      else
        var owed, kept := Owed(input, parts.payment), KeptForEnte(input, parts.payment);
        match NamedReceiver(input)
        case None =>
          var ws := Weights(input.lessors);
          var owes, ente := Proportional(owed, ws), Proportional(kept, ws);
          if owes.Err? then Err(Allocation(owes.error))
          else if ente.Err? then Err(Allocation(ente.error))
          else Ok(SettledWith(input, parts, TookOwnPart(positions, owes.value, ente.value), []))
        case Some(id) =>
          var all := WithHolder(positions, id);
          var k := HolderIndex(positions, id);
          Ok(SettledWith(input, parts, TookItAll(all, k, input.amount, kept), CompensationsFrom(all, k, id)))
  }

  // ─── The engine's loops ───────────────────────────────

  /** Without a named receiver: what each lessor took in hand and what it owes, one position at a time. */
  method WriteOwnParts(opening: seq<Position>, owes: seq<int>, kept: seq<int>) returns (positions: seq<Position>)
    requires |owes| == |kept| == |opening|
    ensures positions == TookOwnPart(opening, owes, kept)
  {
    positions := opening;
    for i := 0 to |positions|
      invariant |positions| == |opening|
      invariant forall j :: 0 <= j < |opening| ==>
        positions[j] == if j < i then TookOwnPart(opening, owes, kept)[j] else opening[j]
    {
      var p := positions[i];
      positions := positions[i := p.(received := p.share + owes[i] + kept[i], balance := -owes[i])];
    }
  }

  /** With a named receiver: it is found or added, charged with the payment, and compensates the others. */
  method WriteReceiver(opening: seq<Position>, id: string, amount: int, kept: int)
    returns (positions: seq<Position>, compensations: seq<Compensation>)
    ensures positions == TookItAll(WithHolder(opening, id), HolderIndex(opening, id), amount, kept)
    ensures compensations == CompensationsFrom(WithHolder(opening, id), HolderIndex(opening, id), id)
  {
    var k := HolderIndex(opening, id);
    positions := opening;
    if k == |positions| {
      positions := positions + [Position(id, 0, 0, 0, 0)];
    }
    ghost var all := positions;
    var holder := positions[k];
    positions := positions[k := holder.(received := amount, balance := holder.share + kept - amount)];
    compensations := [];
    for i := 0 to |positions|
      invariant compensations == CompensationsFrom(all[..i], k, id)
    {
      assert all[..i + 1][..i] == all[..i];
      if i != k && positions[i].share > 0 {
        compensations := compensations + [Compensation(id, positions[i].personId, positions[i].share)];
      }
    }
    assert all[..|all|] == all;
  }

  /** Settles a payment: splits it, and writes the positions and compensations of its flow. */
  method SettlePayment(input: Input) returns (r: Result<Settled, SettlementError>)
    ensures r == Settle(input)
  {
    hide PartsOf, Proportional, TookOwnPart, TookItAll, CompensationsFrom;
    var split := PartsOf(input);
    if split.Err? {
      return Err(split.error);
    }
    var parts := split.value;
    var flow := FlowOf(input);
    var positions := OpeningPositions(input.lessors, parts.shares, flow);
    var compensations: seq<Compensation> := [];
    if flow == FlowLocador {
      var owed, kept := Owed(input, parts.payment), KeptForEnte(input, parts.payment);
      var receiver := NamedReceiver(input);
      if receiver.None? {
        var ws := Weights(input.lessors);
        var owes, ente := Proportional(owed, ws), Proportional(kept, ws);
        if owes.Err? {
          return Err(Allocation(owes.error));
        }
        if ente.Err? {
          return Err(Allocation(ente.error));
        }
        positions := WriteOwnParts(positions, owes.value, ente.value);
      } else {
        positions, compensations := WriteReceiver(positions, receiver.value, input.amount, kept);
      }
    }
    var custodyTotal := SumOf(Custodies(positions));
    r := Ok(Settled(
      flow, input.currency, parts.buckets, parts.payment,
      if flow == FlowLocador then 0 else input.amount - custodyTotal,
      custodyTotal, EnteHeldByAgency(input), positions, compensations));
  }
}
