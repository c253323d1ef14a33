/**
  What a statement promises: its closing balance is the ledger, in whatever order the entries came
  and however the ledger is cut into months; its groups are its totals; and every date belongs to
  exactly one month.
*/
module StatementLaws {
  import opened Calendar
  import opened OwnerLedger
  import opened Sorting
  import opened Statement
  import opened Sums

  datatype Measure = Amount | Credit | Debit | Payout | Opening | OfType(kind: EntryType) | OfUnit(unit: string)

  function MeasureOf(m: Measure, e: Entry): int {
    match m
    case Amount => e.amount
    case Credit => CreditOf(e)
    case Debit => DebitOf(e)
    case Payout => PayoutOf(e)
    case Opening => OpeningOf(e)
    case OfType(t) => if e.kind == t then e.amount else 0
    case OfUnit(u) => if e.kind != SaldoInicial && e.propertyId == u then e.amount else 0
  }

  function SumOver(m: Measure, es: seq<Entry>): int {
    if es == [] then 0 else SumOver(m, es[..|es| - 1]) + MeasureOf(m, es[|es| - 1])
  }

  lemma {:induction false} SumOverConcat(m: Measure, a: seq<Entry>, b: seq<Entry>)
    ensures SumOver(m, a + b) == SumOver(m, a) + SumOver(m, b)
  {
    if b == [] {
      assert a + b == a;
    } else {
      SumOverConcat(m, a, b[..|b| - 1]);
      assert (a + b)[..|a + b| - 1] == a + b[..|b| - 1];
    }
  }

  /** A sum over entries depends on which entries there are, not on their order. */
  lemma {:induction false} SumOverPermutation(m: Measure, a: seq<Entry>, b: seq<Entry>)
    requires multiset(a) == multiset(b)
    ensures SumOver(m, a) == SumOver(m, b)
  {
    hide MeasureOf;
    if a == [] {
      assert |multiset(b)| == 0;
    } else {
      var k := LastOf(a, b);
      SumOverWithout(m, b, k);
      SumOverPermutation(m, a[..|a| - 1], b[..k] + b[k + 1..]);
    }
  }

  /** Where the last entry of a sits in a permutation of it, and that the rest still is one of the rest. */
  lemma LastOf<T>(a: seq<T>, b: seq<T>) returns (k: nat)
    requires a != [] && multiset(a) == multiset(b)
    ensures k < |b| && b[k] == a[|a| - 1]
    ensures multiset(a[..|a| - 1]) == multiset(b[..k] + b[k + 1..])
  {
    var n := |a| - 1;
    assert a[n] in multiset(b);
    k :| 0 <= k < |b| && b[k] == a[n];
    Without(a, n);
    assert a[..n] + a[n + 1..] == a[..n];
    Without(b, k);
  }

  lemma SumOverWithout(m: Measure, b: seq<Entry>, k: nat)
    requires k < |b|
    ensures var rest := b[..k] + b[k + 1..];
            multiset(b) == multiset(rest) + multiset{b[k]}
            && SumOver(m, b) == SumOver(m, rest) + MeasureOf(m, b[k])
  {
    assert b == b[..k] + [b[k]] + b[k + 1..];
    hide SumOver;
    SumOverConcat(m, b[..k] + [b[k]], b[k + 1..]);
    SumOverConcat(m, b[..k], b[k + 1..]);
    SumOverOne(m, b[..k], b[k]);
  }

  // ─── Totals ───────────────────────────────────────────

  function TypeTotal(r: Running, t: EntryType): int { if t in r.byType then r.byType[t] else 0 }

  lemma PostTypeTotal(r: Running, e: Entry, t: EntryType)
    ensures TypeTotal(Post(r, e), t) == TypeTotal(r, t) + MeasureOf(OfType(t), e)
  {
    hide IntoGroups;
  }

  lemma {:induction false} PostAllSums(es: seq<Entry>)
    ensures var r := PostAll(es);
            && r.initial == SumOver(Opening, es) && r.credits == SumOver(Credit, es)
            && r.debits == SumOver(Debit, es) && r.payouts == SumOver(Payout, es)
            && r.initial + r.credits - r.debits - r.payouts == SumOver(Amount, es)
            && (forall t :: TypeTotal(r, t) == SumOver(OfType(t), es))
  {
    hide IntoGroups;
    if es != [] {
      PostAllSums(es[..|es| - 1]);
      var r, e := PostAll(es[..|es| - 1]), es[|es| - 1];
      forall t ensures TypeTotal(Post(r, e), t) == TypeTotal(r, t) + MeasureOf(OfType(t), e) {
        PostTypeTotal(r, e, t);
      }
    }
  }

  /** The closing balance is the previous one plus every entry, and no total depends on the order of the entries. */
  lemma StatementTotals(previousClosing: int, entries: seq<Entry>)
    ensures var s := StatementOf(previousClosing, entries);
            && s.closing == previousClosing + SumOver(Amount, entries)
            && s.opening == previousClosing + SumOver(Opening, entries)
            && s.totals.credits == SumOver(Credit, entries)
            && s.totals.debits == SumOver(Debit, entries)
            && s.totals.payouts == SumOver(Payout, entries)
            && (forall t :: TypeTotal(s.totals, t) == SumOver(OfType(t), entries))
  {
    var sorted := SortByDate(entries);
    PostAllSums(sorted);
    forall m ensures SumOver(m, sorted) == SumOver(m, entries) { SumOverPermutation(m, sorted, entries); }
  }

  /** The types that are no movement of the month: what the account opens with, and what has reached the lessor. */
  const APART := {SaldoInicial, Transferencia, EntregaEfectivo, CobroDirecto}

  /** The movements in favour, and those against, of some entries. */
  function InFavour(es: seq<Entry>): int {
    if es == [] then 0
    else
      var e := es[|es| - 1];
      InFavour(es[..|es| - 1]) + (if e.kind !in APART && e.amount > 0 then e.amount else 0)
  }

  function Against(es: seq<Entry>): int {
    if es == [] then 0
    else
      var e := es[|es| - 1];
      Against(es[..|es| - 1]) + (if e.kind !in APART && e.amount < 0 then 0 - e.amount else 0)
  }

  /** What reached the lessor, by any of the three ways. */
  function Delivered(es: seq<Entry>): int {
    -(SumOver(OfType(Transferencia), es) + SumOver(OfType(EntregaEfectivo), es) + SumOver(OfType(CobroDirecto), es))
  }

  lemma {:induction false} MeasuresAre(es: seq<Entry>)
    ensures SumOver(Credit, es) == InFavour(es) && SumOver(Debit, es) == Against(es)
    ensures SumOver(Payout, es) == Delivered(es) && SumOver(Opening, es) == SumOver(OfType(SaldoInicial), es)
  {
    if es != [] { MeasuresAre(es[..|es| - 1]); }
  }

  /**
    What a statement says, from the types and signs of its entries: it opens with the previous balance and the
    opening entries; its credits and debits are the movements for and against; its payouts what was delivered.
  */
  lemma StatementSays(previousClosing: int, entries: seq<Entry>)
    ensures var s := StatementOf(previousClosing, entries);
            && s.opening == previousClosing + SumOver(OfType(SaldoInicial), entries)
            && s.totals.credits == InFavour(entries) && s.totals.debits == Against(entries)
            && s.totals.payouts == Delivered(entries)
            && s.closing == s.opening + s.totals.credits - s.totals.debits - s.totals.payouts
            && forall g :: g in s.totals.groups ==>
                 && g.credits == InFavour(g.entries) && g.debits == Against(g.entries)
                 && g.payouts == Delivered(g.entries) && g.net == SumOver(Amount, g.entries)
                 && forall e :: e in g.entries ==> e.propertyId == g.propertyId && e.kind != SaldoInicial
  {
    hide SumOver, InFavour, Against, Delivered, StatementOf;
    StatementTotals(previousClosing, entries);
    MeasuresAre(entries);
    GroupsAddUp(previousClosing, entries);
    var s := StatementOf(previousClosing, entries);
    assert s.closing == s.opening + s.totals.credits - s.totals.debits - s.totals.payouts by {
      ClosingOf(previousClosing, entries);
    }
    forall g | g in s.totals.groups
      ensures && g.credits == InFavour(g.entries) && g.debits == Against(g.entries)
              && g.payouts == Delivered(g.entries) && g.net == SumOver(Amount, g.entries)
              && forall e :: e in g.entries ==> e.propertyId == g.propertyId && e.kind != SaldoInicial
    {
      MeasuresAre(g.entries);
      MovementsAreOfTheUnit(SortByDate(entries), g.propertyId);
    }
  }

  lemma ClosingOf(previousClosing: int, entries: seq<Entry>)
    ensures var s := StatementOf(previousClosing, entries);
            s.closing == s.opening + s.totals.credits - s.totals.debits - s.totals.payouts
  {
    hide PostAll, SortByDate;
  }

  lemma {:induction false} MovementsAreOfTheUnit(es: seq<Entry>, id: string)
    ensures forall e :: e in MovementsOf(es, id) ==> e.propertyId == id && e.kind != SaldoInicial
  {
    if es != [] { MovementsAreOfTheUnit(es[..|es| - 1], id); }
  }

  /** The entries are taken by date, and those of one date in the order they came in. */
  lemma SortByDateIsStable(entries: seq<Entry>, date: nat)
    ensures forall i, j :: 0 <= i < j < |SortByDate(entries)| ==>
              SortByDate(entries)[i].date <= SortByDate(entries)[j].date
    ensures Filter(SortByDate(entries), (e: Entry) => e.date == date) == Filter(entries, (e: Entry) => e.date == date)
  {
    SortIsStable(entries, NotLater, (e: Entry) => e.date == date);
  }

  lemma ClosingIsTheSum(previousClosing: int, entries: seq<Entry>)
    ensures StatementOf(previousClosing, entries).closing == previousClosing + SumOver(Amount, entries)
  {
    StatementTotals(previousClosing, entries);
  }

  lemma OrderDoesNotMatter(previousClosing: int, a: seq<Entry>, b: seq<Entry>)
    requires multiset(a) == multiset(b)
    ensures var s, t := StatementOf(previousClosing, a), StatementOf(previousClosing, b);
            && s.opening == t.opening && s.closing == t.closing
            && s.totals.credits == t.totals.credits && s.totals.debits == t.totals.debits
            && s.totals.payouts == t.totals.payouts
            && (forall k :: TypeTotal(s.totals, k) == TypeTotal(t.totals, k))
  {
    StatementTotals(previousClosing, a);
    StatementTotals(previousClosing, b);
    forall m ensures SumOver(m, a) == SumOver(m, b) { SumOverPermutation(m, a, b); }
  }

  // ─── Groups ───────────────────────────────────────────

  function GroupCredits(gs: seq<Group>): seq<int> { seq(|gs|, i requires 0 <= i < |gs| => gs[i].credits) }
  function GroupDebits(gs: seq<Group>): seq<int> { seq(|gs|, i requires 0 <= i < |gs| => gs[i].debits) }
  function GroupPayouts(gs: seq<Group>): seq<int> { seq(|gs|, i requires 0 <= i < |gs| => gs[i].payouts) }

  function MovementsOf(es: seq<Entry>, id: string): seq<Entry> {
    if es == [] then []
    else
      var e := es[|es| - 1];
      MovementsOf(es[..|es| - 1], id) + (if !IsOpening(e.kind) && e.propertyId == id then [e] else [])
  }

  predicate OwnTotals(g: Group) {
    && g.credits == SumOver(Credit, g.entries) && g.debits == SumOver(Debit, g.entries)
    && g.payouts == SumOver(Payout, g.entries) && g.net == SumOver(Amount, g.entries)
    && g.net == g.credits - g.debits - g.payouts
  }

  ghost predicate HasGroup(gs: seq<Group>, id: string) {
    exists i :: 0 <= i < |gs| && gs[i].propertyId == id
  }

  /** The groups of a statement: one per unit with movements, each holding exactly its own, with its own totals. */
  ghost predicate GroupsOf(gs: seq<Group>, es: seq<Entry>) {
    && (forall i, j :: 0 <= i < j < |gs| ==> gs[i].propertyId != gs[j].propertyId)
    && (forall e :: e in es && !IsOpening(e.kind) ==> HasGroup(gs, e.propertyId))
    && (forall i :: 0 <= i < |gs| ==>
          gs[i].entries == MovementsOf(es, gs[i].propertyId) && gs[i].entries != [] && OwnTotals(gs[i]))
  }

  lemma SumOverOne(m: Measure, es: seq<Entry>, e: Entry)
    ensures SumOver(m, es + [e]) == SumOver(m, es) + MeasureOf(m, e)
  {
    assert (es + [e])[..|es|] == es;
  }

  lemma IntoGroupTotals(g: Group, e: Entry)
    requires !IsOpening(e.kind) && OwnTotals(g)
    ensures OwnTotals(IntoGroup(g, e))
  {
    hide SumOver;
    SumOverOne(Credit, g.entries, e);
    SumOverOne(Debit, g.entries, e);
    SumOverOne(Payout, g.entries, e);
    SumOverOne(Amount, g.entries, e);
  }

  lemma GroupsStep(gs: seq<Group>, es: seq<Entry>)
    requires es != [] && GroupsOf(gs, es[..|es| - 1])
    ensures GroupsOf(if IsOpening(es[|es| - 1].kind) then gs else IntoGroups(gs, es[|es| - 1]), es)
  {
    hide OwnTotals;
    var front, e := es[..|es| - 1], es[|es| - 1];
    assert es == front + [e];
    if IsOpening(e.kind) {
      forall id ensures MovementsOf(es, id) == MovementsOf(front, id) {}
    } else {
      var all := IntoGroups(gs, e);
      IntoGroupsKeepsIds(gs, e);
      forall i | 0 <= i < |all|
        ensures all[i].entries == MovementsOf(es, all[i].propertyId) && all[i].entries != [] && OwnTotals(all[i])
      {
        GroupStep(gs, front, e, i);
      }
    }
  }

  lemma IntoGroupsKeepsIds(gs: seq<Group>, e: Entry)
    ensures var all := IntoGroups(gs, e);
            && |gs| <= |all| && HasGroup(all, e.propertyId)
            && (forall id :: HasGroup(gs, id) ==> HasGroup(all, id))
            && (forall i :: 0 <= i < |gs| ==> all[i].propertyId == gs[i].propertyId)
  {
    var k, all := GroupIndex(gs, e.propertyId), IntoGroups(gs, e);
    assert all[k].propertyId == e.propertyId;
    forall id | HasGroup(gs, id) ensures HasGroup(all, id) {
      var i :| 0 <= i < |gs| && gs[i].propertyId == id;
      assert all[i].propertyId == id;
    }
  }

  lemma GroupStep(gs: seq<Group>, front: seq<Entry>, e: Entry, i: nat)
    requires GroupsOf(gs, front) && !IsOpening(e.kind) && i < |IntoGroups(gs, e)|
    ensures var g := IntoGroups(gs, e)[i];
            g.entries == MovementsOf(front + [e], g.propertyId) && g.entries != [] && OwnTotals(g)
  {
    hide OwnTotals;
    var k := GroupIndex(gs, e.propertyId);
    assert (front + [e])[..|front|] == front;
    if i == k {
      if k < |gs| {
        IntoGroupTotals(gs[k], e);
      } else {
        NoGroupNoMovements(gs, front, e.propertyId);
        NothingYet(e.propertyId);
        IntoGroupTotals(Group(e.propertyId, 0, 0, 0, 0, []), e);
      }
    } else {
      assert IntoGroups(gs, e)[i] == gs[i] && gs[i].propertyId != e.propertyId;
    }
  }

  lemma NothingYet(id: string)
    ensures OwnTotals(Group(id, 0, 0, 0, 0, []))
  {
  }

  lemma {:induction false} NoGroupNoMovements(gs: seq<Group>, es: seq<Entry>, id: string)
    requires forall e :: e in es && !IsOpening(e.kind) ==> HasGroup(gs, e.propertyId)
    requires forall i :: 0 <= i < |gs| ==> gs[i].propertyId != id
    ensures MovementsOf(es, id) == []
  {
    if es != [] {
      assert es[|es| - 1] in es;
      NoGroupNoMovements(gs, es[..|es| - 1], id);
    }
  }

  lemma {:induction false} PostAllGroups(es: seq<Entry>)
    ensures GroupsOf(PostAll(es).groups, es)
    ensures Sum(GroupCredits(PostAll(es).groups)) == PostAll(es).credits
    ensures Sum(GroupDebits(PostAll(es).groups)) == PostAll(es).debits
    ensures Sum(GroupPayouts(PostAll(es).groups)) == PostAll(es).payouts
  {
    hide GroupsOf, IntoGroups;
    if es == [] {
      NoGroups();
    } else {
      var r, e := PostAll(es[..|es| - 1]), es[|es| - 1];
      PostAllGroups(es[..|es| - 1]);
      GroupsStep(r.groups, es);
      if !IsOpening(e.kind) {
        GroupSumsStep(r.groups, e);
      }
    }
  }

  lemma NoGroups()
    ensures GroupsOf([], [])
  {
  }

  lemma GroupSumsStep(gs: seq<Group>, e: Entry)
    requires !IsOpening(e.kind)
    ensures var all := IntoGroups(gs, e);
            && Sum(GroupCredits(all)) == Sum(GroupCredits(gs)) + CreditOf(e)
            && Sum(GroupDebits(all)) == Sum(GroupDebits(gs)) + DebitOf(e)
            && Sum(GroupPayouts(all)) == Sum(GroupPayouts(gs)) + PayoutOf(e)
  {
    var k, all := GroupIndex(gs, e.propertyId), IntoGroups(gs, e);
    if k < |gs| {
      assert GroupCredits(all) == GroupCredits(gs)[k := all[k].credits];
      assert GroupDebits(all) == GroupDebits(gs)[k := all[k].debits];
      assert GroupPayouts(all) == GroupPayouts(gs)[k := all[k].payouts];
      SumUpdate(GroupCredits(gs), k, all[k].credits);
      SumUpdate(GroupDebits(gs), k, all[k].debits);
      SumUpdate(GroupPayouts(gs), k, all[k].payouts);
    } else {
      assert GroupCredits(all) == GroupCredits(gs) + [CreditOf(e)];
      assert GroupDebits(all) == GroupDebits(gs) + [DebitOf(e)];
      assert GroupPayouts(all) == GroupPayouts(gs) + [PayoutOf(e)];
      SumSnoc(GroupCredits(gs), CreditOf(e));
      SumSnoc(GroupDebits(gs), DebitOf(e));
      SumSnoc(GroupPayouts(gs), PayoutOf(e));
    }
  }

  /** The groups hold every movement once, and their totals add up to the totals of the statement. */
  lemma GroupsAddUp(previousClosing: int, entries: seq<Entry>)
    ensures var t := StatementOf(previousClosing, entries).totals;
            && GroupsOf(t.groups, SortByDate(entries))
            && Sum(GroupCredits(t.groups)) == t.credits
            && Sum(GroupDebits(t.groups)) == t.debits
            && Sum(GroupPayouts(t.groups)) == t.payouts
  {
    PostAllGroups(SortByDate(entries));
  }

  lemma {:induction false} MovementsSum(es: seq<Entry>, id: string)
    ensures SumOver(Amount, MovementsOf(es, id)) == SumOver(OfUnit(id), es)
  {
    if es != [] {
      var front, e := MovementsOf(es[..|es| - 1], id), es[|es| - 1];
      MovementsSum(es[..|es| - 1], id);
      SumOverOne(Amount, front, e);
      assert front + [] == front;
    }
  }

  /** The net of each unit's group is that of its movements, and a unit with no group has none. */
  lemma GroupOfEachUnit(previousClosing: int, entries: seq<Entry>, id: string)
    ensures var groups := StatementOf(previousClosing, entries).totals.groups;
            && (forall g :: g in groups && g.propertyId == id ==> g.net == SumOver(OfUnit(id), entries))
            && (!HasGroup(groups, id) ==> SumOver(OfUnit(id), entries) == 0)
  {
    hide StatementOf, SumOver, MovementsOf, OwnTotals;
    var groups, sorted := StatementOf(previousClosing, entries).totals.groups, SortByDate(entries);
    GroupsAddUp(previousClosing, entries);
    SumOverPermutation(OfUnit(id), sorted, entries);
    MovementsSum(sorted, id);
    forall g | g in groups && g.propertyId == id ensures g.net == SumOver(OfUnit(id), entries) {
      NetOf(g);
    }
    if !HasGroup(groups, id) {
      NoGroupNoMovements(groups, sorted, id);
      assert SumOver(Amount, []) == 0 by { NothingOver(); }
    }
  }

  lemma NetOf(g: Group)
    requires OwnTotals(g)
    ensures g.net == SumOver(Amount, g.entries)
  {
    hide SumOver;
  }

  lemma NothingOver()
    ensures SumOver(Amount, []) == 0
  {
  }

  // ─── Months ───────────────────────────────────────────

  /** With a closing day that every month has, a date is in the range of exactly one month: its own. */
  lemma PeriodIsTheOneThatContains(date: nat, closeDay: nat, k: nat)
    requires closeDay <= 28 && k > 0
    ensures var range := StatementPeriodRange(k, closeDay);
            StatementPeriodFor(date, closeDay) == k <==> range.0 <= date <= range.1
  {
    hide MonthOf, MonthStart, MonthDays;
    var m := MonthOf(date);
    NextMonthStart(k - 1);
    NextMonthStart(k);
    if m < k - 1 {
      MonthStartsApart(m + 1, k - 1);
    } else if m > k {
      MonthStartsApart(k + 1, m);
    }
  }

  /** The ranges follow one another with no gap and no overlap. */
  lemma RangesTile(k: nat, closeDay: nat)
    requires k > 0 && closeDay <= 28
    ensures StatementPeriodRange(k, closeDay).1 + 1 == StatementPeriodRange(k + 1, closeDay).0
    ensures StatementPeriodRange(k, closeDay).0 <= StatementPeriodRange(k, closeDay).1
  {
    hide MonthStart, MonthDays;
    NextMonthStart(k - 1);
    NextMonthStart(k);
  }

  /**
    The range of a date's own month contains it for every date exactly when no month is shorter than the
    closing day.
  */
  lemma ClosingDayMustFitEveryMonth(closeDay: nat)
    ensures closeDay <= 28 <==>
              forall date: nat {:trigger StatementPeriodFor(date, closeDay)} ::
                  StatementPeriodFor(date, closeDay) > 0 ==>
                var range := StatementPeriodRange(StatementPeriodFor(date, closeDay), closeDay);
                range.0 <= date <= range.1
  {
    if closeDay <= 28 {
      forall date: nat | StatementPeriodFor(date, closeDay) > 0
        ensures var range := StatementPeriodRange(StatementPeriodFor(date, closeDay), closeDay);
                range.0 <= date <= range.1
      {
        PeriodIsTheOneThatContains(date, closeDay, StatementPeriodFor(date, closeDay));
      }
    } else {
      // 1 March of year 1, a year whose February has 28 days
      var date := MonthStart(14);
      assert MonthStart(14) == MonthStart(13) + MonthDays(13) && MonthDays(13) == 28;
      assert MonthStart(15) == MonthStart(14) + MonthDays(14);
      MonthOfIs(date, 14);
      assert StatementPeriodFor(date, closeDay) == 14;
    }
  }

  function OfPeriod(es: seq<Entry>, k: nat, closeDay: nat): seq<Entry> {
    if es == [] then []
    else
      var e := es[|es| - 1];
      OfPeriod(es[..|es| - 1], k, closeDay) + (if StatementPeriodFor(e.date, closeDay) == k then [e] else [])
  }

  /** The statements of n months from month k on, each opening with the closing balance of the one before. */
  function ChainClosing(previousClosing: int, es: seq<Entry>, k: nat, n: nat, closeDay: nat): int {
    if n == 0 then previousClosing
    else StatementOf(ChainClosing(previousClosing, es, k, n - 1, closeDay), OfPeriod(es, k + n - 1, closeDay)).closing
  }

  function UpTo(es: seq<Entry>, k: nat, n: nat, closeDay: nat): int {
    if es == [] then 0
    else
      var e := es[|es| - 1];
      UpTo(es[..|es| - 1], k, n, closeDay)
        + (if k <= StatementPeriodFor(e.date, closeDay) < k + n then e.amount else 0)
  }

  lemma {:induction false} UpToStep(es: seq<Entry>, k: nat, n: nat, closeDay: nat)
    ensures UpTo(es, k, n + 1, closeDay) == UpTo(es, k, n, closeDay) + SumOver(Amount, OfPeriod(es, k + n, closeDay))
    ensures UpTo(es, k, 0, closeDay) == 0
  {
    if es != [] {
      var front, e := es[..|es| - 1], es[|es| - 1];
      UpToStep(front, k, n, closeDay);
      SumOverOne(Amount, OfPeriod(front, k + n, closeDay), e);
      assert OfPeriod(front, k + n, closeDay) + [] == OfPeriod(front, k + n, closeDay);
    }
  }

  lemma {:induction false} ChainIsTheSum(previousClosing: int, es: seq<Entry>, k: nat, n: nat, closeDay: nat)
    ensures ChainClosing(previousClosing, es, k, n, closeDay) == previousClosing + UpTo(es, k, n, closeDay)
  {
    hide StatementOf, StatementPeriodFor, UpTo, OfPeriod, SumOver;
    if n == 0 {
      UpToStep(es, k, 0, closeDay);
    } else {
      ChainIsTheSum(previousClosing, es, k, n - 1, closeDay);
      UpToStep(es, k, n - 1, closeDay);
      ClosingIsTheSum(ChainClosing(previousClosing, es, k, n - 1, closeDay), OfPeriod(es, k + n - 1, closeDay));
    }
  }

  lemma {:induction false} AllInTheMonths(es: seq<Entry>, k: nat, n: nat, closeDay: nat)
    requires forall i :: 0 <= i < |es| ==> k <= StatementPeriodFor(es[i].date, closeDay) < k + n
    ensures UpTo(es, k, n, closeDay) == SumOver(Amount, es)
  {
    if es != [] { AllInTheMonths(es[..|es| - 1], k, n, closeDay); }
  }

  /**
    Closing month after month, each statement opening where the one before closed, ends exactly where
    one statement over the whole ledger does.
  */
  lemma ChainingIsOneStatement(previousClosing: int, es: seq<Entry>, k: nat, n: nat, closeDay: nat)
    requires forall i :: 0 <= i < |es| ==> k <= StatementPeriodFor(es[i].date, closeDay) < k + n
    ensures ChainClosing(previousClosing, es, k, n, closeDay) == StatementOf(previousClosing, es).closing
  {
    hide StatementOf;
    ChainIsTheSum(previousClosing, es, k, n, closeDay);
    AllInTheMonths(es, k, n, closeDay);
    ClosingIsTheSum(previousClosing, es);
  }
}
