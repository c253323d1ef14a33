/** Stable insertion sort by any comparison that is total and transitive. */
module Sorting {

  ghost predicate Ordering<T(!new)>(before: (T, T) -> bool) {
    && (forall a, b :: before(a, b) || before(b, a))
    && (forall a, b, c :: before(a, b) && before(b, c) ==> before(a, c))
  }

  predicate Sorted<T>(s: seq<T>, before: (T, T) -> bool) {
    forall i, j :: 0 <= i < j < |s| ==> before(s[i], s[j])
  }

  /** An element goes after all those it may follow. */
  function Insert<T>(s: seq<T>, x: T, before: (T, T) -> bool): seq<T> {
    if s == [] then [x]
    else if before(s[|s| - 1], x) then s + [x]
    else Insert(s[..|s| - 1], x, before) + [s[|s| - 1]]
  }

  function Sort<T>(s: seq<T>, before: (T, T) -> bool): seq<T> {
    if s == [] then [] else Insert(Sort(s[..|s| - 1], before), s[|s| - 1], before)
  }

  lemma LastStaysLast<T>(front: seq<T>, s: seq<T>, x: T, last: T, before: (T, T) -> bool)
    requires Sorted(front, before) && multiset(front) == multiset(s) + multiset{x}
    requires before(x, last) && forall i :: 0 <= i < |s| ==> before(s[i], last)
    ensures Sorted(front + [last], before)
  {
    forall i | 0 <= i < |front| ensures before(front[i], last) {
      assert front[i] in multiset(front);
      assert front[i] == x || front[i] in s;
    }
  }

  lemma {:induction false} InsertKeepsSorted<T(!new)>(s: seq<T>, x: T, before: (T, T) -> bool)
    requires Ordering(before) && Sorted(s, before)
    ensures Sorted(Insert(s, x, before), before) && multiset(Insert(s, x, before)) == multiset(s) + multiset{x}
  {
    if s != [] {
      var n := |s| - 1;
      assert s == s[..n] + [s[n]];
      if before(s[n], x) {
        FollowsAll(s, x, before);
      } else {
        InsertKeepsSorted(s[..n], x, before);
        LastStaysLast(Insert(s[..n], x, before), s[..n], x, s[n], before);
      }
    }
  }

  lemma FollowsAll<T(!new)>(s: seq<T>, x: T, before: (T, T) -> bool)
    requires Ordering(before) && Sorted(s, before) && s != [] && before(s[|s| - 1], x)
    ensures Sorted(s + [x], before)
  {
    forall i | 0 <= i < |s| ensures before(s[i], x) {
      assert i < |s| - 1 ==> before(s[i], s[|s| - 1]);
    }
  }

  /** The elements in order, each as often as before. */
  lemma {:induction false} SortIsSorted<T(!new)>(s: seq<T>, before: (T, T) -> bool)
    requires Ordering(before)
    ensures Sorted(Sort(s, before), before) && multiset(Sort(s, before)) == multiset(s)
  {
    hide Ordering, Sorted, Insert;
    if s == [] {
      NothingIsSorted(before);
    } else {
      var n := |s| - 1;
      assert s == s[..n] + [s[n]];
      SortIsSorted(s[..n], before);
      InsertKeepsSorted(Sort(s[..n], before), s[n], before);
    }
  }

  lemma NothingIsSorted<T>(before: (T, T) -> bool)
    ensures Sorted([], before)
  {
  }

  /** The elements but one. */
  lemma Without<T>(s: seq<T>, k: nat)
    requires k < |s|
    ensures multiset(s[..k] + s[k + 1..]) == multiset(s) - multiset{s[k]}
  {
    assert s == s[..k] + [s[k]] + s[k + 1..];
  }

  function Filter<T>(s: seq<T>, keep: T -> bool): seq<T> {
    if s == [] then [] else Filter(s[..|s| - 1], keep) + (if keep(s[|s| - 1]) then [s[|s| - 1]] else [])
  }

  lemma FilterSnoc<T>(s: seq<T>, x: T, keep: T -> bool)
    ensures Filter(s + [x], keep) == Filter(s, keep) + (if keep(x) then [x] else [])
  {
    assert (s + [x])[..|s|] == s;
  }

  lemma {:induction false} InsertIsStable<T(!new)>(s: seq<T>, x: T, before: (T, T) -> bool, keep: T -> bool)
    requires forall a, b :: keep(a) && keep(b) ==> before(a, b)
    ensures Filter(Insert(s, x, before), keep) == Filter(s + [x], keep)
  {
    if s == [] {
      assert [] + [x] == [x];
    } else if !before(s[|s| - 1], x) {
      hide Filter;
      var n := |s| - 1;
      assert s == s[..n] + [s[n]];
      InsertIsStable(s[..n], x, before, keep);
      FilterSnoc(Insert(s[..n], x, before), s[n], keep);
      FilterSnoc(s[..n], s[n], keep);
      FilterSnoc(s[..n], x, keep);
      FilterSnoc(s, x, keep);
      assert !(keep(s[n]) && keep(x));
      assert forall f: seq<T> :: f + [] == f;
    }
  }

  /** Elements that may stay in either order keep the one they came in. */
  lemma {:induction false} SortIsStable<T(!new)>(s: seq<T>, before: (T, T) -> bool, keep: T -> bool)
    requires forall a, b :: keep(a) && keep(b) ==> before(a, b)
    ensures Filter(Sort(s, before), keep) == Filter(s, keep)
  {
    if s != [] {
      var n := |s| - 1;
      hide Insert;
      SortIsStable(s[..n], before, keep);
      InsertIsStable(Sort(s[..n], before), s[n], before, keep);
      FilterSnoc(Sort(s[..n], before), s[n], keep);
    }
  }
}
