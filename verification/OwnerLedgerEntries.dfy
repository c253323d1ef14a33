/**
  Which entries a settled payment leaves in the account of each person: concept by concept, with the rounding
  of each, the concept that absorbs the rest, and what a lessor has in hand.
*/
module OwnerLedgerEntries {
  import opened OwnerLedger
  import opened OwnerLedgerLaws
  import opened Rounding
  import opened Sums
  import opened Wrappers
  import S = Settlement
  import SM = SettlementMeaning

  // ─── Concepts ─────────────────────────────────────────

  const RENT_LINES := {S.Alquiler, S.Ajuste, S.AjusteRetroactivo, S.Descuento}
  const PENALTY_LINES := {S.Multa}
  const REFUND_LINES := {S.Impuesto, S.Servicio}
  const OTHER_LINES := {S.Extra, S.Cargo, S.Honorario}

  /** The lessors' lines of some kinds, with the amounts they are stored with. */
  function LinesAmong(lines: seq<S.Line>, kinds: set<S.LineType>): int {
    if lines == [] then 0
    else
      var l := lines[|lines| - 1];
      LinesAmong(lines[..|lines| - 1], kinds) + (if l.beneficiary == S.Locador && l.kind in kinds then l.amount else 0)
  }

  /** What a concept is worth in the whole liquidation, to the lessors. */
  function Worth(lines: seq<S.Line>, commission: int, fee: int, t: EntryType): int {
    if t == Alquiler then LinesAmong(lines, RENT_LINES)
    else if t == Punitorio then LinesAmong(lines, PENALTY_LINES)
    else if t == ReintegroImpuesto then LinesAmong(lines, REFUND_LINES)
    else if t == Ajuste then LinesAmong(lines, OTHER_LINES)
    else if t == Comision then -commission
    else if t == Honorario then -fee
    else 0
  }

  lemma {:induction false} GrossIsWorth(lines: seq<S.Line>, commission: int, fee: int)
    ensures Get(Gross(lines), Alquiler) == Worth(lines, commission, fee, Alquiler)
    ensures Get(Gross(lines), Punitorio) == Worth(lines, commission, fee, Punitorio)
    ensures Get(Gross(lines), ReintegroImpuesto) == Worth(lines, commission, fee, ReintegroImpuesto)
    ensures Get(Gross(lines), Ajuste) == Worth(lines, commission, fee, Ajuste)
  {
    if lines != [] { GrossIsWorth(lines[..|lines| - 1], commission, fee); }
  }

  /** The lines, the commission and the fee of the whole liquidation. */
  datatype Whole = Whole(lines: seq<S.Line>, commission: int, fee: int)

  function WorthOf(w: Whole, t: EntryType): int { Worth(w.lines, w.commission, w.fee, t) }

  function WholeOf(input: PostingInput): Whole { Whole(input.lines, input.commission, input.adminFee) }

  /** The six concepts, in the order they are entered, with what each is worth. */
  function SixWorths(w: Whole): (r: seq<Component>)
    ensures DifferentKinds(r)
  {
    [Component(Alquiler, WorthOf(w, Alquiler)), Component(Punitorio, WorthOf(w, Punitorio)),
     Component(ReintegroImpuesto, WorthOf(w, ReintegroImpuesto)), Component(Ajuste, WorthOf(w, Ajuste)),
     Component(Comision, WorthOf(w, Comision)), Component(Honorario, WorthOf(w, Honorario))]
  }

  ghost predicate DifferentKinds(all: seq<Component>) {
    forall i, j :: 0 <= i < j < |all| ==> all[i].kind != all[j].kind
  }

  const SIX: set<EntryType> := {Alquiler, Punitorio, ReintegroImpuesto, Ajuste, Comision, Honorario}

  lemma ComponentsAreTheWorths(input: PostingInput)
    ensures Components(input) == NonZero(SixWorths(WholeOf(input)))
  {
    hide Gross, LinesAmong, NonZero;
    GrossIsWorth(input.lines, input.commission, input.adminFee);
  }

  // ─── Each concept of a position ───────────────────────

  lemma QuotientIsRounded(num: int, den: int)
    requires den != 0
    ensures IsRounded(Quotient(num, den), num, den)
  {
    hide RoundDiv;
    var n, d := if den > 0 then num else -num, if den > 0 then den else -den;
    RoundDivHalfAway(n, d);
    RoundDivHalfAway(-n, d);
    assert d * -RoundDiv(n, d) == -(d * RoundDiv(n, d));
  }

  /** The first credit of some components; their number when there is none. */
  function FirstCredit(all: seq<Component>): (k: nat)
    ensures k <= |all| && (k < |all| ==> all[k].value > 0)
    ensures forall j :: 0 <= j < k ==> all[j].value <= 0
  {
    if all == [] then 0
    else
      var k := FirstCredit(all[..|all| - 1]);
      if k < |all| - 1 || all[|all| - 1].value > 0 then k else |all|
  }

  /** The concept that absorbs the rounding: the first credit, or an adjustment when there is none. */
  function Absorbs(all: seq<Component>): EntryType {
    if FirstCredit(all) < |all| then all[FirstCredit(all)].kind else Ajuste
  }

  lemma {:induction false} TargetSnoc(front: seq<Component>, c: Component)
    ensures ResidualTarget(front + [c])
         == if exists i :: 0 <= i < |front| && front[i].value > 0 then ResidualTarget(front)
            else if c.value > 0 then c.kind else Ajuste
  {
    if front == [] {
      assert front + [c] == [c];
    } else {
      TargetSnoc(front[1..], c);
      assert (front + [c])[1..] == front[1..] + [c];
    }
  }

  lemma {:induction false} TargetIsTheFirstCredit(all: seq<Component>)
    ensures ResidualTarget(NonZero(all)) == Absorbs(all)
    ensures (exists i :: 0 <= i < |NonZero(all)| && NonZero(all)[i].value > 0) <==> FirstCredit(all) < |all|
  {
    hide ResidualTarget;
    if all == [] {
      NoComponents();
    } else {
      var n := |all| - 1;
      var front := NonZero(all[..n]);
      TargetIsTheFirstCredit(all[..n]);
      TargetSnoc(front, all[n]);
      PositiveSnoc(front, all[n]);
      assert front + [] == front;
      if FirstCredit(all[..n]) == n { NoTarget(front); }
    }
  }

  lemma PositiveSnoc(front: seq<Component>, c: Component)
    ensures (exists i :: 0 <= i < |front + [c]| && (front + [c])[i].value > 0)
       <==> (c.value > 0 || exists i :: 0 <= i < |front| && front[i].value > 0)
  {
    var all := front + [c];
    if i :| 0 <= i < |front| && front[i].value > 0 { assert all[i].value > 0; }
    if c.value > 0 { assert all[|front|].value > 0; }
  }

  lemma NoComponents()
    ensures NonZero([]) == [] && ResidualTarget([]) == Ajuste
  {
  }

  lemma {:induction false} NoTarget(components: seq<Component>)
    requires forall i :: 0 <= i < |components| ==> components[i].value <= 0
    ensures ResidualTarget(components) == Ajuste
  {
    if components != [] { NoTarget(components[1..]); }
  }

  /** The value of the component of a concept, nothing when there is none. */
  function ValueOf(all: seq<Component>, t: EntryType): int {
    if all == [] then 0
    else if all[|all| - 1].kind == t then all[|all| - 1].value else ValueOf(all[..|all| - 1], t)
  }

  lemma {:induction false} NoneOfKind(all: seq<Component>, t: EntryType)
    requires forall i :: 0 <= i < |all| ==> all[i].kind != t
    ensures ValueOf(all, t) == 0
  {
    if all != [] { NoneOfKind(all[..|all| - 1], t); }
  }

  /** Each component is prorated by itself, and nothing under a concept that none has. */
  lemma {:induction false} ProratedByConcept(all: seq<Component>, share: int, net: int, t: EntryType)
    requires net != 0 && DifferentKinds(all)
    ensures Get(Prorated(NonZero(all), share, net), t) == Quotient(ValueOf(all, t) * share, net)
  {
    hide Quotient;
    NothingOf(share, net);
    if all != [] {
      var n := |all| - 1;
      var front, c := NonZero(all[..n]), all[n];
      ProratedByConcept(all[..n], share, net, t);
      if c.kind == t { NoneOfKind(all[..n], t); }
      if c.value == 0 {
        assert front + [] == front;
      } else {
        assert (front + [c])[..|front|] == front;
      }
    }
  }

  lemma NothingOf(share: int, net: int)
    requires net != 0
    ensures 0 * share == 0 && Quotient(0, net) == 0
  {
    if net > 0 { RoundDivExact(0, net); } else { RoundDivExact(0, -net); }
  }

  lemma WorthAt(w: Whole, t: EntryType)
    ensures ValueOf(SixWorths(w), t) == WorthOf(w, t)
  {
    hide LinesAmong;
    var all := SixWorths(w);
    assert all[..5][..4] == all[..4] && all[..4][..3] == all[..3] && all[..3][..2] == all[..2]
        && all[..2][..1] == all[..1] && all[..1][..0] == [];
    assert ValueOf(all[..1], t) == if t == Alquiler then all[0].value else 0;
    assert ValueOf(all[..2], t) == if t == Punitorio then all[1].value else ValueOf(all[..1], t);
    assert ValueOf(all[..3], t) == if t == ReintegroImpuesto then all[2].value else ValueOf(all[..2], t);
    assert ValueOf(all[..4], t) == if t == Ajuste then all[3].value else ValueOf(all[..3], t);
    assert ValueOf(all[..5], t) == if t == Comision then all[4].value else ValueOf(all[..4], t);
  }

  /** What a position is entered under a concept, before the entries are written. */
  lemma PartIs(input: PostingInput, share: int, t: EntryType)
    requires t in SIX
    ensures var x, net, w := Get(PositionParts(Components(input), share, input.lessors), t), input.lessors,
                WholeOf(input);
            && (share == 0 ==> x == 0)
            && (share != 0 && net == 0 ==> x == if t == Ajuste then share else 0)
            && (share != 0 && net != 0 && t != Absorbs(SixWorths(w)) ==> IsRounded(x, WorthOf(w, t) * share, net))
  {
    hide Quotient, WorthOf, IsRounded, Components, Prorated, Residual, ResidualTarget, Absorbs, SixWorths, NonZero;
    var net, w := input.lessors, WholeOf(input);
    if share != 0 && net != 0 {
      var all := SixWorths(w);
      ComponentsAreTheWorths(input);
      TargetIsTheFirstCredit(all);
      WorthAt(w, t);
      ProratedByConcept(all, share, net, t);
      QuotientIsRounded(WorthOf(w, t) * share, net);
    }
  }

  // ─── The entries ──────────────────────────────────────

  /** What some entries leave a person under a concept. */
  function AmountTo(ps: seq<Posting>, person: string, t: EntryType): int {
    if ps == [] then 0
    else
      var e := ps[|ps| - 1];
      AmountTo(ps[..|ps| - 1], person, t) + (if e.personId == person && e.kind == t then e.amount else 0)
  }

  lemma {:induction false} AmountToConcat(a: seq<Posting>, b: seq<Posting>, person: string, t: EntryType)
    ensures AmountTo(a + b, person, t) == AmountTo(a, person, t) + AmountTo(b, person, t)
  {
    if b == [] {
      assert a + b == a;
    } else {
      AmountToConcat(a, b[..|b| - 1], person, t);
      assert (a + b)[..|a + b| - 1] == a + b[..|b| - 1];
    }
  }

  lemma AmountToOne(e: Posting, person: string, t: EntryType)
    ensures AmountTo([e], person, t) == if e.personId == person && e.kind == t then e.amount else 0
  {
    assert [e][..0] == [] && AmountTo([e][..0], person, t) == 0;
  }

  /** Entries of one person, none in zero, none of a concept twice, and none with cash in hand. */
  ghost predicate Entered(es: seq<Posting>, person: string, kinds: seq<EntryType>) {
    && (forall i :: 0 <= i < |es| ==>
          es[i].personId == person && es[i].amount != 0 && es[i].kind in kinds
          && es[i].received == 0 && es[i].keptForEnte == 0)
    && (forall i, j :: 0 <= i < j < |es| ==> es[i].kind != es[j].kind)
  }

  ghost predicate Different(order: seq<EntryType>) { forall i, j :: 0 <= i < j < |order| ==> order[i] != order[j] }

  lemma OneMoreEntered(front: seq<Posting>, e: Posting, kinds: seq<EntryType>)
    requires Entered(front, e.personId, kinds) && e.kind !in kinds && e.amount != 0
    requires e.received == 0 && e.keptForEnte == 0
    ensures Entered(front + [e], e.personId, kinds + [e.kind])
  {
  }

  lemma MoreKinds(es: seq<Posting>, id: string, kinds: seq<EntryType>, t: EntryType)
    requires Entered(es, id, kinds)
    ensures Entered(es, id, kinds + [t])
  {
  }

  lemma {:induction false} PartsEntered(id: string, parts: Parts, order: seq<EntryType>)
    requires Different(order)
    ensures Entered(PartPostings(id, parts, order), id, order)
  {
    if order != [] {
      hide Entered;
      var n := |order| - 1;
      var front, e := PartPostings(id, parts, order[..n]), Posting(id, order[n], Get(parts, order[n]), 0, 0);
      PartsEntered(id, parts, order[..n]);
      assert order == order[..n] + [order[n]];
      if e.amount == 0 {
        assert front + [] == front;
        MoreKinds(front, id, order[..n], order[n]);
      } else {
        OneMoreEntered(front, e, order[..n]);
      }
    }
  }

  lemma {:induction false} PartAmounts(id: string, parts: Parts, order: seq<EntryType>, t: EntryType)
    requires Different(order)
    ensures AmountTo(PartPostings(id, parts, order), id, t) == if t in order then Get(parts, t) else 0
  {
    hide AmountTo, Get, Different;
    if order == [] {
      assert AmountTo([], id, t) == 0 by { NothingEntered(id, t); }
    } else {
      var n := |order| - 1;
      var front, e := PartPostings(id, parts, order[..n]), Posting(id, order[n], Get(parts, order[n]), 0, 0);
      LastIsNew(order);
      PartAmounts(id, parts, order[..n], t);
      if e.amount == 0 {
        assert front + [] == front;
      } else {
        AmountToConcat(front, [e], id, t);
        AmountToOne(e, id, t);
      }
    }
  }

  lemma NothingEntered(id: string, t: EntryType)
    ensures AmountTo([], id, t) == 0
  {
  }

  lemma LastIsNew(order: seq<EntryType>)
    requires Different(order) && order != []
    ensures var n := |order| - 1;
            Different(order[..n]) && order[n] !in order[..n]
            && forall t :: t in order <==> t in order[..n] || t == order[n]
  {
    assert order == order[..|order| - 1] + [order[|order| - 1]];
  }

  /** The place of each concept among the entries. */
  function Place(t: EntryType): nat {
    match t
    case Alquiler => 0
    case Punitorio => 1
    case ReintegroImpuesto => 2
    case Ajuste => 3
    case Comision => 4
    case Honorario => 5
    case _ => 6
  }

  lemma {:induction false} PartsInPlace(id: string, parts: Parts, order: seq<EntryType>)
    requires forall i, j :: 0 <= i < j < |order| ==> Place(order[i]) < Place(order[j])
    ensures forall i :: 0 <= i < |PartPostings(id, parts, order)| ==> PartPostings(id, parts, order)[i].kind in order
    ensures forall i, j :: 0 <= i < j < |PartPostings(id, parts, order)| ==>
              Place(PartPostings(id, parts, order)[i].kind) < Place(PartPostings(id, parts, order)[j].kind)
  {
    hide Place, Get;
    if order != [] {
      var n := |order| - 1;
      PartsInPlace(id, parts, order[..n]);
      assert forall t :: t in order[..n] ==> Place(t) < Place(order[n]);
    }
  }

  lemma PartEntries(id: string, parts: Parts, order: seq<EntryType>, t: EntryType)
    requires Different(order)
    ensures Entered(PartPostings(id, parts, order), id, order)
    ensures AmountTo(PartPostings(id, parts, order), id, t) == if t in order then Get(parts, t) else 0
  {
    hide Entered, AmountTo, PartPostings, Different;
    PartsEntered(id, parts, order);
    PartAmounts(id, parts, order, t);
  }

  /** What a settlement says of a liquidation as a whole. */
  function WholeOfSettled(lines: seq<S.Line>, s: S.Settled): Whole {
    Whole(lines, s.buckets.commission, s.buckets.adminFee)
  }

  function EntriesOf(lines: seq<S.Line>, s: S.Settled, p: S.Position): seq<Posting> {
    PositionPostings(InputOfSettled(lines, s), p)
  }

  /**
    What a position of a settled payment is entered under each concept: its share of what the concept is worth,
    to the cent, but for the one that absorbs the rest; what it has in hand under direct collection; and nothing
    else. Without a net, its whole share is an adjustment.
  */
  lemma ConceptOfPosition(lines: seq<S.Line>, s: S.Settled, p: S.Position, t: EntryType)
    ensures var x, net, w := AmountTo(EntriesOf(lines, s, p), p.personId, t), s.buckets.lessors,
                WholeOfSettled(lines, s);
            && (t in SIX && p.share == 0 ==> x == 0)
            && (t in SIX && p.share != 0 && net == 0 ==> x == if t == Ajuste then p.share else 0)
            && (t in SIX && p.share != 0 && net != 0 && t != Absorbs(SixWorths(w)) ==>
                  IsRounded(x, WorthOf(w, t) * p.share, net))
            && (t == CobroDirecto ==> x == if s.flow == S.FlowLocador then p.balance - p.share else 0)
            && (t !in SIX && t != CobroDirecto ==> x == 0)
  {
    hide Absorbs, SixWorths, WorthOf, IsRounded, PositionParts, Components, PartPostings, AmountTo;
    var input := InputOfSettled(lines, s);
    var parts := PositionParts(Components(input), p.share, s.buckets.lessors);
    var es := PartPostings(p.personId, parts, POSTING_ORDER);
    PartEntries(p.personId, parts, POSTING_ORDER, t);
    if t in SIX { PartIs(input, p.share, t); }
    AmountToConcat(es, DirectPosting(s.flow, p), p.personId, t);
    DirectEntry(s.flow, p, t);
  }

  lemma DirectEntry(flow: S.Flow, p: S.Position, t: EntryType)
    ensures AmountTo(DirectPosting(flow, p), p.personId, t)
         == if t == CobroDirecto && flow == S.FlowLocador then p.balance - p.share else 0
  {
    var direct := DirectPosting(flow, p);
    if direct != [] { AmountToOne(direct[0], p.personId, t); }
  }

  /** Together the six concepts are the share, whichever absorbs the rest. */
  lemma ConceptsAddUp(lines: seq<S.Line>, s: S.Settled, p: S.Position)
    ensures var x := (t: EntryType) => AmountTo(EntriesOf(lines, s, p), p.personId, t);
            x(Alquiler) + x(Punitorio) + x(ReintegroImpuesto) + x(Ajuste) + x(Comision) + x(Honorario) == p.share
  {
    hide PositionParts, PartPostings, AmountTo, NonZero, Gross;
    var input := InputOfSettled(lines, s);
    var parts := PositionParts(Components(input), p.share, s.buckets.lessors);
    forall t | t in SIX ensures AmountTo(EntriesOf(lines, s, p), p.personId, t) == Get(parts, t) {
      PartEntries(p.personId, parts, POSTING_ORDER, t);
      AmountToConcat(PartPostings(p.personId, parts, POSTING_ORDER), DirectPosting(s.flow, p), p.personId, t);
      DirectEntry(s.flow, p, t);
    }
    NonZeroPosted([
      Component(Alquiler, Get(Gross(lines), Alquiler)), Component(Punitorio, Get(Gross(lines), Punitorio)),
      Component(ReintegroImpuesto, Get(Gross(lines), ReintegroImpuesto)), Component(Ajuste, Get(Gross(lines), Ajuste)),
      Component(Comision, -s.buckets.commission), Component(Honorario, -s.buckets.adminFee)]);
    PositionPartsTotal(Components(input), p.share, s.buckets.lessors);
  }

  /** The entry of what a lessor has in hand comes last, with what was received and what is kept for the bodies. */
  ghost predicate DirectEntryOf(e: Posting, p: S.Position) {
    && e.personId == p.personId && e.kind == CobroDirecto && e.amount == p.balance - p.share != 0
    && e.received == p.received && e.keptForEnte == p.received + p.balance - p.share
  }

  /** The entries of a position: all its person's, none in zero, no concept twice. */
  lemma EntriesAreItsPersons(lines: seq<S.Line>, s: S.Settled, p: S.Position)
    ensures var es := EntriesOf(lines, s, p);
            var n := if s.flow == S.FlowLocador && p.balance != p.share then |es| - 1 else |es|;
            && n >= 0 && Entered(es[..n], p.personId, POSTING_ORDER)
            && (n < |es| ==> DirectEntryOf(es[n], p))
  {
    hide PositionParts, Components, PartPostings;
    var input := InputOfSettled(lines, s);
    var parts := PositionParts(Components(input), p.share, s.buckets.lessors);
    var own := PartPostings(p.personId, parts, POSTING_ORDER);
    PartEntries(p.personId, parts, POSTING_ORDER, Alquiler);
    assert EntriesOf(lines, s, p)[..|own|] == own;
  }

  /** They come by concept: rent, penalty, refunds, others, commission, fee; what is in hand is last. */
  lemma EntriesAreInOrder(lines: seq<S.Line>, s: S.Settled, p: S.Position, i: nat, j: nat)
    requires i < j < |EntriesOf(lines, s, p)|
    ensures Place(EntriesOf(lines, s, p)[i].kind) < Place(EntriesOf(lines, s, p)[j].kind)
  {
    hide PositionParts, Components, PartPostings;
    var input := InputOfSettled(lines, s);
    var parts := PositionParts(Components(input), p.share, s.buckets.lessors);
    PartsInPlace(p.personId, parts, POSTING_ORDER);
    var own := PartPostings(p.personId, parts, POSTING_ORDER);
    assert i < |own| ==> own[i].kind in POSTING_ORDER;
  }

  /** What the positions of a person are entered under a concept, added up. */
  function EnteredTo(lines: seq<S.Line>, s: S.Settled, ps: seq<S.Position>, person: string, t: EntryType): int {
    if ps == [] then 0
    else
      var p := ps[|ps| - 1];
      EnteredTo(lines, s, ps[..|ps| - 1], person, t)
        + (if p.personId == person then AmountTo(EntriesOf(lines, s, p), person, t) else 0)
  }

  /** A payment enters each person exactly what its own positions are entered. */
  lemma {:induction false} PaymentEnters(lines: seq<S.Line>, s: S.Settled, ps: seq<S.Position>, person: string,
      t: EntryType)
    ensures AmountTo(PaymentPostings(InputOfSettled(lines, s), ps), person, t) == EnteredTo(lines, s, ps, person, t)
  {
    if ps != [] {
      hide AmountTo, PositionPostings, InputOfSettled;
      var n := |ps| - 1;
      PaymentEnters(lines, s, ps[..n], person, t);
      var es := EntriesOf(lines, s, ps[n]);
      AmountToConcat(PaymentPostings(InputOfSettled(lines, s), ps[..n]), es, person, t);
      if ps[n].personId != person {
        EntriesArePersonal(lines, s, ps[n]);
        NoneForOthers(es, ps[n].personId, person, t);
      }
    } else {
      assert AmountTo([], person, t) == 0;
    }
  }

  lemma EntriesArePersonal(lines: seq<S.Line>, s: S.Settled, p: S.Position)
    ensures forall i :: 0 <= i < |EntriesOf(lines, s, p)| ==> EntriesOf(lines, s, p)[i].personId == p.personId
  {
    hide PositionPostings;
    EntriesAreItsPersons(lines, s, p);
    var es := EntriesOf(lines, s, p);
    var n := if s.flow == S.FlowLocador && p.balance != p.share then |es| - 1 else |es|;
    forall i | 0 <= i < |es| ensures es[i].personId == p.personId {
      if i < n { assert es[..n][i] == es[i]; }
    }
  }

  lemma {:induction false} NoneForOthers(es: seq<Posting>, own: string, person: string, t: EntryType)
    requires person != own && forall i :: 0 <= i < |es| ==> es[i].personId == own
    ensures AmountTo(es, person, t) == 0
  {
    if es != [] { NoneForOthers(es[..|es| - 1], own, person, t); }
  }

  /** What is kept for the bodies in hand is what the settlement lets each keep. */
  lemma KeptIsTheSettlements(input: S.Input, i: nat)
    requires S.Settle(input).Ok? && SM.Direct(input) && i < |S.Settle(input).value.positions|
    ensures var s := S.Settle(input).value;
            var p, kept := s.positions[i], SM.KeptForBodies(input, s.payment);
            if SM.Named(input)
            then p.balance != p.share && p.personId == input.receiverPersonId.value ==>
                   p.received + p.balance - p.share == kept
            else i < |input.lessors| && (kept != 0 ==> SM.ValidPercentages(input.lessors))
                 && p.received + p.balance - p.share == SM.PartOfLessor(kept, input.lessors, i)
  {
    hide S.Settle, SM.PartOfLessor;
    if SM.Named(input) {
      SM.OneTookItAll(input);
    } else {
      SM.SomebodyReceived(input);
      SM.EachTookItsPart(input, 0);
      SM.EachTookItsPart(input, i);
    }
  }
}
