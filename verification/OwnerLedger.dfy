/**
  The ledger entries a payment leaves in each lessor's account, and the split of signed amounts
  among lessors. An entry is positive when the agency owes it to the lessor. Amounts are cents.
*/
module OwnerLedger {
  import opened Money
  import opened Rounding
  import opened Sums
  import opened Wrappers
  import S = Settlement

  datatype EntryType =
    | SaldoInicial | Alquiler | Punitorio | ReintegroImpuesto | Comision | Honorario | Cargo | PagoEnte
    | Transferencia | EntregaEfectivo | CobroDirecto | Compensacion | Custodia | Ajuste

  /** The account concept of a liquidation line in favour of the lessor. */
  function TypeOfLine(kind: S.LineType): EntryType {
    match kind
    case Alquiler => Alquiler
    case Ajuste => Alquiler
    case AjusteRetroactivo => Alquiler
    case Descuento => Alquiler
    case Multa => Punitorio
    case Impuesto => ReintegroImpuesto
    case Servicio => ReintegroImpuesto
    case Extra => Ajuste
    case Cargo => Ajuste
    case Honorario => Ajuste
  }

  const POSTING_ORDER: seq<EntryType> := [Alquiler, Punitorio, ReintegroImpuesto, Ajuste, Comision, Honorario]

  /** What the postings of a payment read of its settlement. */
  datatype PostingInput = PostingInput(
    flow: S.Flow, lines: seq<S.Line>, commission: int, adminFee: int, lessors: int, positions: seq<S.Position>)

  /** Only a direct payment says how much was received and kept for the public bodies. */
  datatype Posting = Posting(personId: string, kind: EntryType, amount: int, received: int, keptForEnte: int)

  // ─── Components ───────────────────────────────────────

  type Parts = map<EntryType, int>

  function Get(m: Parts, t: EntryType): int { if t in m then m[t] else 0 }

  function Add(m: Parts, t: EntryType, value: int): Parts { m[t := Get(m, t) + value] }

  /** Everything recorded under the six concepts a payment posts. */
  function Total(m: Parts): int {
    Get(m, Alquiler) + Get(m, Punitorio) + Get(m, ReintegroImpuesto) + Get(m, Ajuste) + Get(m, Comision)
    + Get(m, Honorario)
  }

  /** The lessors' lines by concept, each with the amount it is stored with (a discount is not negated here). */
  function Gross(lines: seq<S.Line>): Parts {
    if lines == [] then map[]
    else
      var n := |lines| - 1;
      var l := lines[n];
      if l.beneficiary == S.Locador then Add(Gross(lines[..n]), TypeOfLine(l.kind), l.amount)
      else Gross(lines[..n])
  }

  datatype Component = Component(kind: EntryType, value: int)

  function NonZero(all: seq<Component>): seq<Component> {
    if all == [] then []
    else NonZero(all[..|all| - 1]) + (if all[|all| - 1].value != 0 then [all[|all| - 1]] else [])
  }

  /** Credits by concept, then commission and administrative fees as negatives; concepts in zero are left out. */
  function Components(input: PostingInput): seq<Component> {
    var gross := Gross(input.lines);
    NonZero([
      Component(Alquiler, Get(gross, Alquiler)), Component(Punitorio, Get(gross, Punitorio)),
      Component(ReintegroImpuesto, Get(gross, ReintegroImpuesto)), Component(Ajuste, Get(gross, Ajuste)),
      Component(Comision, -input.commission), Component(Honorario, -input.adminFee)])
  }

  /** The concept that absorbs the rounding: the first credit, or an adjustment when there is none. */
  function ResidualTarget(components: seq<Component>): EntryType {
    if components == [] then Ajuste
    else if components[0].value > 0 then components[0].kind
    else ResidualTarget(components[1..])
  }

  // ─── One position ─────────────────────────────────────

  /** num / den to the cent, half away from zero, for any non-zero denominator. */
  function Quotient(num: int, den: int): int
    requires den != 0
  {
    if den > 0 then RoundDiv(num, den) else RoundDiv(-num, -den)
  }

  function Prorated(components: seq<Component>, share: int, net: int): Parts
    requires net != 0
  {
    if components == [] then map[]
    else
      var n := |components| - 1;
      Add(Prorated(components[..n], share, net), components[n].kind, Quotient(components[n].value * share, net))
  }

  function Residual(components: seq<Component>, share: int, net: int): int
    requires net != 0
  {
    share - Total(Prorated(components, share, net))
  }

  function PositionParts(components: seq<Component>, share: int, net: int): Parts {
    if share == 0 then map[]
    else if net == 0 then map[Ajuste := share]
    else
      var residual := Residual(components, share, net);
      if residual == 0 then Prorated(components, share, net)
      else Add(Prorated(components, share, net), ResidualTarget(components), residual)
  }

  function PartPostings(id: string, parts: Parts, order: seq<EntryType>): seq<Posting> {
    if order == [] then []
    else
      var n := |order| - 1;
      PartPostings(id, parts, order[..n])
        + (if Get(parts, order[n]) != 0 then [Posting(id, order[n], Get(parts, order[n]), 0, 0)] else [])
  }

  /** What the lessor already has in hand, less what it keeps for the public bodies. */
  function DirectPosting(flow: S.Flow, p: S.Position): seq<Posting> {
    var amount := p.balance - p.share;
    if flow == S.FlowLocador && amount != 0
    then [Posting(p.personId, CobroDirecto, amount, p.received, p.received + amount)]
    else []
  }

  function PositionPostings(input: PostingInput, p: S.Position): seq<Posting> {
    PartPostings(p.personId, PositionParts(Components(input), p.share, input.lessors), POSTING_ORDER)
      + DirectPosting(input.flow, p)
  }

  function PaymentPostings(input: PostingInput, positions: seq<S.Position>): seq<Posting> {
    if positions == [] then []
    else PaymentPostings(input, positions[..|positions| - 1]) + PositionPostings(input, positions[|positions| - 1])
  }

  /** The postings of a payment settled from these lines. */
  function InputOfSettled(lines: seq<S.Line>, s: S.Settled): PostingInput {
    PostingInput(s.flow, lines, s.buckets.commission, s.buckets.adminFee, s.buckets.lessors, s.positions)
  }

  // ─── The engine's loops ───────────────────────────────

  method GrossByType(lines: seq<S.Line>) returns (gross: Parts)
    ensures gross == Gross(lines)
  {
    gross := map[];
    for i := 0 to |lines|
      invariant gross == Gross(lines[..i])
    {
      assert lines[..i + 1][..i] == lines[..i];
      if lines[i].beneficiary == S.Locador {
        gross := Add(gross, TypeOfLine(lines[i].kind), lines[i].amount);
      }
    }
    assert lines[..|lines|] == lines;
  }

  method WriteParts(components: seq<Component>, share: int, net: int) returns (parts: Parts)
    ensures parts == PositionParts(components, share, net)
  {
    parts := map[];
    if share != 0 {
      if net == 0 {
        parts := Add(parts, Ajuste, share);
      } else {
        for i := 0 to |components|
          invariant parts == Prorated(components[..i], share, net)
        {
          assert components[..i + 1][..i] == components[..i];
          parts := Add(parts, components[i].kind, Quotient(components[i].value * share, net));
        }
        assert components[..|components|] == components;
        var residual := share - Total(parts);
        if residual != 0 {
          parts := Add(parts, ResidualTarget(components), residual);
        }
      }
    }
  }

  /** The entries of a lessor's parts, concept by concept, without those in zero. */
  method WritePartPostings(id: string, parts: Parts) returns (mine: seq<Posting>)
    ensures mine == PartPostings(id, parts, POSTING_ORDER)
  {
    mine := [];
    for k := 0 to |POSTING_ORDER|
      invariant mine == PartPostings(id, parts, POSTING_ORDER[..k])
    {
      assert POSTING_ORDER[..k + 1][..k] == POSTING_ORDER[..k];
      var t := POSTING_ORDER[k];
      if t in parts && parts[t] != 0 {
        mine := mine + [Posting(id, t, parts[t], 0, 0)];
      }
    }
    assert POSTING_ORDER[..|POSTING_ORDER|] == POSTING_ORDER;
  }

  /** The entries of every position, in order, pushed one after another. */
  method PostPayment(input: PostingInput) returns (out: seq<Posting>)
    ensures out == PaymentPostings(input, input.positions)
  {
    hide NonZero, Gross, PositionParts, PartPostings, DirectPosting;
    var gross := GrossByType(input.lines);
    var components := NonZero([
      Component(Alquiler, Get(gross, Alquiler)), Component(Punitorio, Get(gross, Punitorio)),
      Component(ReintegroImpuesto, Get(gross, ReintegroImpuesto)), Component(Ajuste, Get(gross, Ajuste)),
      Component(Comision, -input.commission), Component(Honorario, -input.adminFee)]);
    assert components == Components(input);
    out := [];
    for i := 0 to |input.positions|
      invariant out == PaymentPostings(input, input.positions[..i])
    {
      assert input.positions[..i + 1][..i] == input.positions[..i];
      var p := input.positions[i];
      var parts := WriteParts(components, p.share, input.lessors);
      var mine := WritePartPostings(p.personId, parts);
      out := out + (mine + DirectPosting(input.flow, p));
    }
    assert input.positions[..|input.positions|] == input.positions;
  }

  // ─── Signed splits ────────────────────────────────────

  function Ones(n: nat): seq<int> { seq(n, _ => 1) }

  function Abs(x: int): nat { if x >= 0 then x else -x }

  predicate UsableWeights(ws: seq<int>) {
    (exists i :: 0 <= i < |ws| && ws[i] > 0) && (forall i :: 0 <= i < |ws| ==> ws[i] >= 0)
  }

  lemma WeightsOfShares(ws: seq<int>)
    requires ws != []
    ensures ValidWeights(if UsableWeights(ws) then ws else Ones(|ws|))
  {
    if UsableWeights(ws) {
      SumNonNegative(ws);
    } else {
      SumOnes(|ws|);
    }
  }

  /** A signed amount among lessors by percentage, or in equal parts when there are no usable percentages. */
  function SplitByShare(amount: int, ws: seq<int>): (r: seq<int>)
    ensures |r| == |ws|
  {
    if ws == [] then []
    else
      WeightsOfShares(ws);
      var parts := Allocate(Abs(amount), if UsableWeights(ws) then ws else Ones(|ws|));
      if amount < 0 then seq(|ws|, i requires 0 <= i < |ws| => -parts[i]) else parts
  }
}
