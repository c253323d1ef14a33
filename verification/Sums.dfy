/** Sums of sequences of integers (cents, weights, counts), folded left to right. */
module Sums {

  function Sum(s: seq<int>): int {
    if s == [] then 0 else Sum(s[..|s| - 1]) + s[|s| - 1]
  }

  lemma SumSnoc(s: seq<int>, x: int)
    ensures Sum(s + [x]) == Sum(s) + x
  {
    assert (s + [x])[..|s|] == s;
  }

  lemma SumPrefix(s: seq<int>, i: nat)
    requires i < |s|
    ensures Sum(s[..i + 1]) == Sum(s[..i]) + s[i]
  {
    assert s[..i + 1][..i] == s[..i];
  }

  lemma {:induction false} SumConcat(a: seq<int>, b: seq<int>)
    ensures Sum(a + b) == Sum(a) + Sum(b)
  {
    if b == [] {
      assert a + b == a;
    } else {
      var init := b[..|b| - 1];
      SumConcat(a, init);
      assert (a + b)[..|a + b| - 1] == a + init;
    }
  }

  lemma {:induction false} SumPointwise(a: seq<int>, b: seq<int>)
    requires |a| == |b|
    requires forall i :: 0 <= i < |a| ==> a[i] <= b[i]
    ensures Sum(a) <= Sum(b)
    ensures (exists i :: 0 <= i < |a| && a[i] < b[i]) ==> Sum(a) < Sum(b)
  {
    if a != [] {
      var n := |a| - 1;
      SumPointwise(a[..n], b[..n]);
      if i :| 0 <= i < |a| && a[i] < b[i] {
        assert i < n ==> a[..n][i] < b[..n][i];
      }
    }
  }

  lemma {:induction false} SumAdd(a: seq<int>, b: seq<int>, c: seq<int>)
    requires |a| == |b| == |c|
    requires forall i :: 0 <= i < |a| ==> c[i] == a[i] + b[i]
    ensures Sum(c) == Sum(a) + Sum(b)
  {
    if a != [] {
      var n := |a| - 1;
      SumAdd(a[..n], b[..n], c[..n]);
    }
  }

  lemma {:induction false} SumScale(a: seq<int>, k: int, c: seq<int>)
    requires |a| == |c|
    requires forall i :: 0 <= i < |a| ==> c[i] == k * a[i]
    ensures Sum(c) == k * Sum(a)
  {
    if a != [] {
      var n := |a| - 1;
      SumScale(a[..n], k, c[..n]);
    }
  }

  lemma SumZero(a: seq<int>)
    requires forall i :: 0 <= i < |a| ==> a[i] == 0
    ensures Sum(a) == 0
  {
    SumScale(a, 0, a);
  }

  lemma {:induction false} SumOnes(n: nat)
    ensures Sum(seq(n, _ => 1)) == n
  {
    if n > 0 {
      SumOnes(n - 1);
      assert seq(n, _ => 1)[..n - 1] == seq(n - 1, _ => 1);
    }
  }

  lemma SumOfTwo(s: seq<int>)
    requires |s| == 2
    ensures Sum(s) == s[0] + s[1]
  {
    SumPrefix(s, 0);
    SumPrefix(s, 1);
    assert s[..0] == [] && s[..2] == s;
  }

  lemma SumOfThree(s: seq<int>)
    requires |s| == 3
    ensures Sum(s) == s[0] + s[1] + s[2]
  {
    SumOfTwo(s[..2]);
    SumPrefix(s, 2);
    assert s[..3] == s;
  }

  lemma SumNonNegative(a: seq<int>)
    requires forall i :: 0 <= i < |a| ==> a[i] >= 0
    ensures Sum(a) >= 0
    ensures forall i :: 0 <= i < |a| ==> a[i] <= Sum(a)
  {
    var zeros := seq(|a|, _ => 0);
    SumZero(zeros);
    SumPointwise(zeros, a);
    forall i | 0 <= i < |a| ensures a[i] <= Sum(a) {
      var only := zeros[i := a[i]];
      SumUpdate(zeros, i, a[i]);
      SumPointwise(only, a);
    }
  }

  lemma {:induction false} SumUpdate(a: seq<int>, i: nat, x: int)
    requires i < |a|
    ensures Sum(a[i := x]) == Sum(a) - a[i] + x
  {
    var n := |a| - 1;
    if i < n {
      SumUpdate(a[..n], i, x);
      assert a[i := x][..n] == a[..n][i := x];
    } else {
      assert a[i := x][..n] == a[..n];
    }
  }

  function Differences(a: seq<int>, b: seq<int>): (r: seq<int>)
    requires |a| == |b|
    ensures |r| == |a|
  {
    seq(|a|, i requires 0 <= i < |a| => a[i] - b[i])
  }

  /** How many of the first `n` indices are in `chosen`, one per index. */
  function Marks(chosen: set<nat>, n: nat): seq<int> {
    seq(n, i => if i in chosen then 1 else 0)
  }

  lemma {:induction false} SumMarks(chosen: set<nat>, n: nat)
    requires forall i :: i in chosen ==> i < n
    ensures Sum(Marks(chosen, n)) == |chosen|
  {
    if n == 0 {
      assert chosen == {};
    } else {
      var rest := chosen - {n - 1};
      SumMarks(rest, n - 1);
      assert Marks(chosen, n)[..n - 1] == Marks(rest, n - 1);
      assert n - 1 in chosen ==> chosen == rest + {n - 1};
      assert n - 1 !in chosen ==> chosen == rest;
    }
  }
}
