/**
  A lessor's account statement: opening balance, credits, debits, payouts and closing balance of a
  set of entries, with the movements grouped by unit; and the month each entry belongs to.
*/
module Statement {
  import opened Calendar
  import opened OwnerLedger
  import opened Sorting
  import opened Sums
  import opened Wrappers

  /** propertyId "" is an entry of no unit; date 0 stands for an entry with no date. */
  datatype Entry = Entry(kind: EntryType, amount: int, date: nat, propertyId: string)

  predicate IsPayout(t: EntryType) { t == Transferencia || t == EntregaEfectivo || t == CobroDirecto }

  predicate IsOpening(t: EntryType) { t == SaldoInicial }

  datatype Group = Group(propertyId: string, credits: int, debits: int, payouts: int, net: int, entries: seq<Entry>)

  datatype Running = Running(
    initial: int, credits: int, debits: int, payouts: int, byType: map<EntryType, int>, groups: seq<Group>)

  datatype StatementResult = StatementResult(opening: int, closing: int, totals: Running)

  // ─── Order ────────────────────────────────────────────

  predicate NotLater(a: Entry, b: Entry) { a.date <= b.date }

  /** By date; entries of one date keep the order they came in. */
  function SortByDate(s: seq<Entry>): (r: seq<Entry>)
    ensures Sorted(r, NotLater) && multiset(r) == multiset(s)
  {
    SortIsSorted(s, NotLater);
    Sort(s, NotLater)
  }

  // ─── Running totals ───────────────────────────────────

  function CreditOf(e: Entry): int { if !IsOpening(e.kind) && !IsPayout(e.kind) && e.amount >= 0 then e.amount else 0 }
  function DebitOf(e: Entry): int { if !IsOpening(e.kind) && !IsPayout(e.kind) && e.amount < 0 then -e.amount else 0 }
  function PayoutOf(e: Entry): int { if IsPayout(e.kind) then -e.amount else 0 }
  function OpeningOf(e: Entry): int { if IsOpening(e.kind) then e.amount else 0 }

  function GroupIndex(groups: seq<Group>, id: string): (k: nat)
    ensures k <= |groups|
    ensures k < |groups| ==> groups[k].propertyId == id
    ensures forall j :: 0 <= j < k ==> groups[j].propertyId != id
  {
    if groups == [] then 0
    else if groups[0].propertyId == id then 0
    else 1 + GroupIndex(groups[1..], id)
  }

  function IntoGroup(g: Group, e: Entry): Group {
    Group(g.propertyId, g.credits + CreditOf(e), g.debits + DebitOf(e), g.payouts + PayoutOf(e),
          g.net + e.amount, g.entries + [e])
  }

  function IntoGroups(groups: seq<Group>, e: Entry): seq<Group> {
    var k := GroupIndex(groups, e.propertyId);
    if k < |groups| then groups[k := IntoGroup(groups[k], e)]
    else groups + [IntoGroup(Group(e.propertyId, 0, 0, 0, 0, []), e)]
  }

  function Post(r: Running, e: Entry): Running {
    Running(
      r.initial + OpeningOf(e), r.credits + CreditOf(e), r.debits + DebitOf(e), r.payouts + PayoutOf(e),
      r.byType[e.kind := (if e.kind in r.byType then r.byType[e.kind] else 0) + e.amount],
      if IsOpening(e.kind) then r.groups else IntoGroups(r.groups, e))
  }

  function PostAll(es: seq<Entry>): Running {
    if es == [] then Running(0, 0, 0, 0, map[], [])
    else Post(PostAll(es[..|es| - 1]), es[|es| - 1])
  }

  lemma PostNothing()
    ensures PostAll([]) == Running(0, 0, 0, 0, map[], [])
  {
  }

  lemma PostAllStep(es: seq<Entry>, i: nat)
    requires i < |es|
    ensures PostAll(es[..i + 1]) == Post(PostAll(es[..i]), es[i])
  {
    assert es[..i + 1][..i] == es[..i];
  }

  function StatementOf(previousClosing: int, entries: seq<Entry>): StatementResult {
    var r := PostAll(SortByDate(entries));
    var opening := previousClosing + r.initial;
    StatementResult(opening, opening + r.credits - r.debits - r.payouts, r)
  }

  /** Files a movement in the group of its unit, opening the group if it is the first. */
  method FileMovement(groups: seq<Group>, e: Entry) returns (r: seq<Group>)
    requires !IsOpening(e.kind)
    ensures r == IntoGroups(groups, e)
  {
    var k := GroupIndex(groups, e.propertyId);
    r := groups;
    if k == |r| {
      r := r + [Group(e.propertyId, 0, 0, 0, 0, [])];
    }
    var g := r[k];
    g := g.(entries := g.entries + [e], net := g.net + e.amount);
    if IsPayout(e.kind) {
      g := g.(payouts := g.payouts - e.amount);
    } else if e.amount < 0 {
      g := g.(debits := g.debits - e.amount);
    } else {
      g := g.(credits := g.credits + e.amount);
    }
    r := r[k := g];
  }

  /** One pass over the entries in date order. */
  method ComputeStatement(previousClosing: int, entries: seq<Entry>) returns (s: StatementResult)
    ensures s == StatementOf(previousClosing, entries)
  {
    hide IntoGroups, SortByDate, PostAll, Sorted;
    var sorted := SortByDate(entries);
    var initial, credits, debits, payouts := 0, 0, 0, 0;
    var byType: map<EntryType, int>, groups: seq<Group> := map[], [];
    assert sorted[..0] == [];
    PostNothing();
    for i := 0 to |sorted|
      invariant Running(initial, credits, debits, payouts, byType, groups) == PostAll(sorted[..i])
    {
      PostAllStep(sorted, i);
      var e := sorted[i];
      byType := byType[e.kind := (if e.kind in byType then byType[e.kind] else 0) + e.amount];
      if IsOpening(e.kind) {
        initial := initial + e.amount;
      } else {
        groups := FileMovement(groups, e);
        if IsPayout(e.kind) {
          payouts := payouts - e.amount;
        } else if e.amount < 0 {
          debits := debits - e.amount;
        } else {
          credits := credits + e.amount;
        }
      }
    }
    assert sorted[..|sorted|] == sorted;
    var opening := previousClosing + initial;
    s := StatementResult(opening, opening + credits - debits - payouts,
                         Running(initial, credits, debits, payouts, byType, groups));
  }

  // ─── Periods ──────────────────────────────────────────

  /** The month of the statement an entry of this date goes to; closing day 0 is the calendar month. */
  function StatementPeriodFor(date: nat, closeDay: nat): nat {
    if closeDay == 0 || DayOfMonth(date) <= closeDay then MonthOf(date) else MonthOf(date) + 1
  }

  /** First and last day of the statement of a month (the first month of the calendar has no month before it). */
  function StatementPeriodRange(k: nat, closeDay: nat): (int, int)
    requires closeDay > 0 ==> k > 0
  {
    if closeDay == 0 then (MonthStart(k), MonthStart(k + 1) - 1)
    else (MonthStart(k - 1) + closeDay, MonthStart(k) + closeDay - 1)
  }
}
