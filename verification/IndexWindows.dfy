/**
  The months of index values that each rent adjustment uses, with a publication lag. Dates carry no
  time of day: they are day numbers, and months are month indices.
*/
module IndexWindows {
  import opened Calendar

  /** startExclusive: `from` is the date of the previous adjustment, whose month it already used. */
  datatype Window = Window(from: nat, until: nat, startExclusive: bool)

  function ShiftWindowByLag(w: Window, lag: int): Window
    requires 0 <= lag <= MonthOf(w.until) && (w.startExclusive ==> lag <= MonthOf(w.from))
  {
    if lag == 0 then w
    else Window(if w.startExclusive then AddMonthsClamped(w.from, -lag) else w.from,
                AddMonthsClamped(w.until, -lag), w.startExclusive)
  }

  /** The months from `from` to before `to`. */
  function Months(from: nat, to: nat): seq<nat> {
    if from >= to then [] else Months(from, to - 1) + [to - 1]
  }

  /** The first month whose first day is inside the window. */
  function FirstMonth(w: Window): nat {
    if !w.startExclusive && MonthStart(MonthOf(w.from)) == w.from then MonthOf(w.from) else MonthOf(w.from) + 1
  }

  function MonthsOf(w: Window): seq<nat> { Months(FirstMonth(w), MonthOf(w.until) + 1) }

  predicate Inside(w: Window, k: nat) {
    MonthStart(k) <= w.until && (if w.startExclusive then w.from < MonthStart(k) else w.from <= MonthStart(k))
  }

  lemma MonthStartOrder(a: nat, b: nat)
    ensures a < b <==> MonthStart(a) < MonthStart(b)
  {
    if a < b { MonthStartsApart(a, b); } else { MonthStartsApart(b, a); }
  }

  lemma {:induction false} MonthsAre(from: nat, to: nat, k: nat)
    ensures k in Months(from, to) <==> from <= k < to
  {
    if from < to { MonthsAre(from, to - 1, k); }
  }

  lemma AfterMonthOf(day: nat, k: nat)
    ensures day < MonthStart(k) <==> MonthOf(day) + 1 <= k
  {
    hide MonthStart, MonthOf;
    MonthStartOrder(k, MonthOf(day) + 1);
    MonthStartOrder(MonthOf(day), k);
  }

  lemma BeforeFirstMonth(start: nat, k: nat)
    ensures MonthStart(k) < start <==> k < FirstMonth(Window(start, start, false))
  {
    hide MonthStart, MonthOf;
    MonthStartOrder(k, MonthOf(start));
    AfterMonthOf(start, k);
  }

  /** The window's months are exactly those whose first day falls inside it. */
  lemma MonthsOfAreInside(w: Window, k: nat)
    ensures k in MonthsOf(w) <==> Inside(w, k)
  {
    hide MonthStart, MonthOf, Months;
    MonthsAre(FirstMonth(w), MonthOf(w.until) + 1, k);
    AfterMonthOf(w.until, k);
    AfterMonthOf(w.from, k);
    BeforeFirstMonth(w.from, k);
  }

  /** Walks the calendar month by month from that of `from` until the window ends. */
  method ExpectedMonthlyPeriods(w: Window) returns (out: seq<nat>)
    ensures out == MonthsOf(w)
  {
    hide MonthStart, MonthOf;
    out := [];
    var year, month := MonthOf(w.from) / 12, MonthOf(w.from) % 12;
    while MonthStart(12 * year + month) <= w.until
      invariant year >= 0 && 0 <= month < 12
      invariant MonthOf(w.from) <= 12 * year + month
      invariant out == Months(FirstMonth(w), 12 * year + month)
      invariant 12 * year + month > MonthOf(w.from) ==> MonthStart(12 * year + month - 1) <= w.until
      decreases w.until - MonthStart(12 * year + month)
    {
      var k := 12 * year + month;
      var inside := if w.startExclusive then w.from < MonthStart(k) else w.from <= MonthStart(k);
      MonthStartOrder(MonthOf(w.from), k);
      MonthStartOrder(MonthOf(w.from) + 1, k);
      if inside {
        out := out + [k];
      }
      month := month + 1;
      if month > 11 {
        month := 0;
        year := year + 1;
      }
      assert 12 * year + month == k + 1;
      MonthStartOrder(k, k + 1);
    }
    var k := 12 * year + month;
    MonthStartOrder(MonthOf(w.until), k);
    if k > MonthOf(w.from) {
      MonthStartOrder(MonthOf(w.until) + 1, k - 1);
      MonthStartOrder(k - 1, MonthOf(w.until) + 1);
    } else {
      MonthStartOrder(MonthOf(w.until), MonthOf(w.from));
    }
  }

  // ─── Consecutive adjustments ──────────────────────────

  predicate Increasing(dates: seq<nat>) { forall i, j :: 0 <= i < j < |dates| ==> dates[i] < dates[j] }

  function ShiftBack(date: nat, lag: int): nat
    requires 0 <= lag <= MonthOf(date)
  {
    AddMonthsClamped(date, -lag)
  }

  lemma ShiftBackMonotone(a: nat, b: nat, lag: int)
    requires a <= b && 0 <= lag <= MonthOf(a) && lag <= MonthOf(b)
    ensures ShiftBack(a, lag) <= ShiftBack(b, lag)
  {
    AddMonthsMonotone(a, b, -lag);
  }

  lemma NoLagNoShift(date: nat)
    ensures ShiftBack(date, 0) == date
  {
  }

  predicate CanShift(dates: seq<nat>, lag: int) { dates != [] && Increasing(dates) && 0 <= lag <= MonthOf(dates[0]) }

  lemma AllShift(dates: seq<nat>, lag: int, i: nat)
    requires CanShift(dates, lag) && i < |dates|
    ensures lag <= MonthOf(dates[i])
  {
    MonthOfMonotone(dates[0], dates[i]);
  }

  /** The shifted window of the i-th adjustment of a rent that starts on `start`. */
  function WindowOf(start: nat, dates: seq<nat>, lag: int, i: nat): Window
    requires CanShift(dates, lag) && i < |dates|
  {
    AllShift(dates, lag, i);
    if i == 0 then ShiftWindowByLag(Window(start, dates[0], false), lag)
    else
      AllShift(dates, lag, i - 1);
      ShiftWindowByLag(Window(dates[i - 1], dates[i], true), lag)
  }

  /** Each shifted window goes from the shifted date of the adjustment before to its own. */
  lemma WindowIs(start: nat, dates: seq<nat>, lag: int, i: nat)
    requires CanShift(dates, lag) && i < |dates|
    ensures lag <= MonthOf(dates[i]) && WindowOf(start, dates, lag, i).until == ShiftBack(dates[i], lag)
    ensures i == 0 ==> WindowOf(start, dates, lag, i) == Window(start, ShiftBack(dates[0], lag), false)
    ensures i > 0 ==>
              lag <= MonthOf(dates[i - 1])
              && WindowOf(start, dates, lag, i) == Window(ShiftBack(dates[i - 1], lag), ShiftBack(dates[i], lag), true)
  {
    AllShift(dates, lag, i);
    NoLagNoShift(dates[i]);
    if i > 0 {
      AllShift(dates, lag, i - 1);
      NoLagNoShift(dates[i - 1]);
    }
  }

  /** No month is used by two adjustments, however the days are clipped. */
  lemma WindowsAreDisjoint(start: nat, dates: seq<nat>, lag: int, i: nat, j: nat, k: nat)
    requires CanShift(dates, lag) && i < j < |dates|
    ensures !(k in MonthsOf(WindowOf(start, dates, lag, i)) && k in MonthsOf(WindowOf(start, dates, lag, j)))
  {
    hide WindowOf, MonthsOf, MonthStart, MonthOf, AddMonthsClamped;
    AllShift(dates, lag, j - 1);
    WindowIs(start, dates, lag, i);
    WindowIs(start, dates, lag, j);
    ShiftBackMonotone(dates[i], dates[j - 1], lag);
    MonthsOfAreInside(WindowOf(start, dates, lag, i), k);
    MonthsOfAreInside(WindowOf(start, dates, lag, j), k);
  }

  /** The months of the first n adjustments, one window after another. */
  function Chained(start: nat, dates: seq<nat>, lag: int, n: nat): seq<nat>
    requires CanShift(dates, lag) && n <= |dates|
  {
    if n == 0 then [] else Chained(start, dates, lag, n - 1) + MonthsOf(WindowOf(start, dates, lag, n - 1))
  }

  lemma {:induction false} MonthsJoin(a: nat, b: nat, c: nat)
    requires a <= b <= c
    ensures Months(a, b) + Months(b, c) == Months(a, c)
  {
    if b == c {
      assert Months(a, b) + [] == Months(a, b);
    } else {
      MonthsJoin(a, b, c - 1);
      assert Months(a, b) + Months(b, c) == Months(a, b) + Months(b, c - 1) + [c - 1];
    }
  }

  /** The first month the chain could use: of the start of the rent, or of the first window's end when that is later. */
  function ChainFirst(start: nat, dates: seq<nat>, lag: int): nat
    requires CanShift(dates, lag)
  {
    var first, end := FirstMonth(Window(start, start, false)), MonthOf(ShiftBack(dates[0], lag)) + 1;
    if first <= end then first else end
  }

  lemma NoMonths(a: nat, b: nat)
    ensures a >= b ==> Months(a, b) == Months(b, b)
  {
  }

  /** The windows of the first n adjustments, chained, are one stretch of months with no gap. */
  lemma {:induction false} ChainIsOneStretch(start: nat, dates: seq<nat>, lag: int, n: nat)
    requires CanShift(dates, lag) && 0 < n <= |dates|
    ensures lag <= MonthOf(dates[n - 1])
    ensures Chained(start, dates, lag, n)
         == Months(ChainFirst(start, dates, lag), MonthOf(ShiftBack(dates[n - 1], lag)) + 1)
    ensures ChainFirst(start, dates, lag) <= MonthOf(ShiftBack(dates[n - 1], lag)) + 1
    decreases n
  {
    hide WindowOf, MonthStart, MonthOf, ShiftBack, Months;
    WindowIs(start, dates, lag, n - 1);
    if n == 1 {
      NoMonths(FirstMonth(Window(start, start, false)), MonthOf(ShiftBack(dates[0], lag)) + 1);
      assert Chained(start, dates, lag, 0) + MonthsOf(WindowOf(start, dates, lag, 0))
          == MonthsOf(WindowOf(start, dates, lag, 0));
    } else {
      ChainIsOneStretch(start, dates, lag, n - 1);
      ShiftBackMonotone(dates[n - 2], dates[n - 1], lag);
      MonthOfMonotone(ShiftBack(dates[n - 2], lag), ShiftBack(dates[n - 1], lag));
      MonthsJoin(ChainFirst(start, dates, lag), MonthOf(ShiftBack(dates[n - 2], lag)) + 1,
                 MonthOf(ShiftBack(dates[n - 1], lag)) + 1);
    }
  }

  /** The single window from the start of the rent to the last date less the lag. */
  function Whole(start: nat, dates: seq<nat>, lag: int): Window
    requires CanShift(dates, lag) && lag <= MonthOf(dates[|dates| - 1])
  {
    Window(start, ShiftBack(dates[|dates| - 1], lag), false)
  }

  /**
    The consecutive windows use exactly the months of one window over the whole time, when the first
    date less the lag is not before the start of the rent.
  */
  lemma ChainedIsWhole(start: nat, dates: seq<nat>, lag: int)
    requires CanShift(dates, lag) && start <= ShiftBack(dates[0], lag)
    ensures lag <= MonthOf(dates[|dates| - 1])
    ensures Chained(start, dates, lag, |dates|) == MonthsOf(Whole(start, dates, lag))
  {
    hide Chained;
    ChainIsOneStretch(start, dates, lag, |dates|);
    MonthOfMonotone(start, ShiftBack(dates[0], lag));
  }

  /**
    When it is before, they agree if and only if no month begins after the first date less the lag,
    before the start, and by the end of the last window.
  */
  lemma ChainedIsWholeIff(start: nat, dates: seq<nat>, lag: int)
    requires CanShift(dates, lag)
    ensures lag <= MonthOf(dates[|dates| - 1])
    ensures Chained(start, dates, lag, |dates|) == MonthsOf(Whole(start, dates, lag)) <==>
              !exists k :: ShiftBack(dates[0], lag) < MonthStart(k) < start
                  && MonthStart(k) <= ShiftBack(dates[|dates| - 1], lag)
  {
    hide Chained, ShiftBack;
    AllShift(dates, lag, |dates| - 1);
    var first, last := ShiftBack(dates[0], lag), ShiftBack(dates[|dates| - 1], lag);
    if start <= first {
      ChainedIsWhole(start, dates, lag);
    } else {
      ChainIsOneStretch(start, dates, lag, |dates|);
      BeforeTheStart(start, first, last);
    }
  }

  lemma BeforeTheStart(start: nat, first: nat, last: nat)
    requires first < start
    ensures var s, f, l := FirstMonth(Window(start, start, false)), MonthOf(first) + 1, MonthOf(last) + 1;
            Months(if s <= f then s else f, l) == Months(s, l) <==>
              !exists k :: first < MonthStart(k) < start && MonthStart(k) <= last
  {
    hide MonthStart, MonthOf, Months;
    var s, f, l := FirstMonth(Window(start, start, false)), MonthOf(first) + 1, MonthOf(last) + 1;
    BeforeFirstMonth(start, s);
    AfterMonthOf(first, s);
    forall k: nat ensures first < MonthStart(k) < start && MonthStart(k) <= last <==> f <= k < s && k < l {
      AfterMonthOf(first, k);
      AfterMonthOf(last, k);
      BeforeFirstMonth(start, k);
    }
    MonthsFrom(f, s, l);
    if f < s && f < l {
      assert first < MonthStart(f) < start && MonthStart(f) <= last;
    }
  }

  /** Two stretches that end together are the same exactly when they begin together or are both empty. */
  lemma MonthsFrom(f: nat, s: nat, l: nat)
    ensures Months(f, l) == Months(s, l) <==> f == s || (f >= l && s >= l)
  {
    if f < s && f < l {
      MonthsAre(f, l, f);
      MonthsAre(s, l, f);
    } else if s < f && s < l {
      MonthsAre(f, l, s);
      MonthsAre(s, l, s);
    }
  }
}
