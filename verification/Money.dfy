/**
  The largest-remainder split of whole cents, on which every other engine rests.
*/
module Money {
  import opened Rounding
  import opened Wrappers
  import opened Sums

  // ─── Largest remainder ────────────────────────────────

  datatype AllocationError = NegativeWeight | ZeroWeightSum

  predicate ValidWeights(ws: seq<int>) {
    (forall i :: 0 <= i < |ws| ==> ws[i] >= 0) && Sum(ws) > 0
  }

  /** Whole cents of the exact quota total * w / sum. */
  function QuotaFloor(total: int, w: int, sum: int): int
    requires sum > 0
  {
    total * w / sum
  }

  /** What is left of the quota, in units of 1 / sum of a cent. */
  function QuotaRest(total: int, w: int, sum: int): (r: int)
    requires sum > 0
    ensures 0 <= r < sum
    ensures total * w == QuotaFloor(total, w, sum) * sum + r
  {
    total * w % sum
  }

  function Floors(total: int, ws: seq<int>, sum: int): seq<int>
    requires sum > 0
  {
    seq(|ws|, i requires 0 <= i < |ws| => QuotaFloor(total, ws[i], sum))
  }

  function Rests(total: int, ws: seq<int>, sum: int): seq<int>
    requires sum > 0
  {
    seq(|ws|, i requires 0 <= i < |ws| => QuotaRest(total, ws[i], sum))
  }

  /** Index i takes a leftover cent before index j: larger remainder, or the same and earlier. */
  predicate Before(rests: seq<int>, i: nat, j: nat)
    requires i < |rests| && j < |rests|
  {
    rests[i] > rests[j] || (rests[i] == rests[j] && i < j)
  }

  predicate Indices(order: seq<nat>, n: nat) {
    (forall a :: 0 <= a < |order| ==> order[a] < n)
    && (forall a, b :: 0 <= a < b < |order| ==> order[a] != order[b])
  }

  predicate SortedByRest(rests: seq<int>, order: seq<nat>)
    requires Indices(order, |rests|)
  {
    forall a, b :: 0 <= a < b < |order| ==> Before(rests, order[a], order[b])
  }

  lemma HeadStaysFirst(rests: seq<int>, order: seq<nat>, x: nat, rest: seq<nat>)
    requires x < |rests| && Indices(order, |rests|) && order != [] && x !in order && SortedByRest(rests, order)
    requires !Before(rests, x, order[0]) && Indices(rest, |rests|) && SortedByRest(rests, rest)
    requires forall y :: y in rest <==> y == x || y in order[1..]
    ensures Indices([order[0]] + rest, |rests|) && SortedByRest(rests, [order[0]] + rest)
  {
    forall b | 0 <= b < |rest| ensures rest[b] != order[0] && Before(rests, order[0], rest[b]) {
      assert rest[b] in rest;
      assert rest[b] == x || rest[b] in order[1..];
    }
  }

  function InsertIndex(rests: seq<int>, order: seq<nat>, x: nat): (r: seq<nat>)
    requires x < |rests| && Indices(order, |rests|) && x !in order && SortedByRest(rests, order)
    ensures |r| == |order| + 1
    ensures forall y :: y in r <==> y == x || y in order
    ensures Indices(r, |rests|) && SortedByRest(rests, r)
  {
    if order == [] then [x]
    else if Before(rests, x, order[0]) then [x] + order
    else
      var rest := InsertIndex(rests, order[1..], x);
      HeadStaysFirst(rests, order, x, rest);
      [order[0]] + rest
  }

  /** The first n indices in the order in which they take leftover cents. */
  function OrderOf(rests: seq<int>, n: nat): (r: seq<nat>)
    requires n <= |rests|
    ensures |r| == n
    ensures Indices(r, |rests|) && SortedByRest(rests, r)
    ensures forall y: nat :: y in r <==> y < n
  {
    if n == 0 then [] else
      var shorter := OrderOf(rests, n - 1);
      assert forall y: nat :: y in shorter <==> y < n - 1;
      InsertIndex(rests, shorter, n - 1)
  }

  function Leftover(total: int, ws: seq<int>): int
    requires Sum(ws) > 0
  {
    total - Sum(Floors(total, ws, Sum(ws)))
  }

  function TakenBy(order: seq<nat>, k: int): set<nat> {
    if 0 <= k <= |order| then set a: nat | a in order[..k] else {}
  }

  /** The split: every part is its truncated quota, plus one cent for the first `Leftover` indices. */
  function Allocate(total: int, ws: seq<int>): (parts: seq<int>)
    requires ValidWeights(ws)
    ensures |parts| == |ws|
  {
    var floors := Floors(total, ws, Sum(ws));
    var taken := TakenBy(OrderOf(Rests(total, ws, Sum(ws)), |ws|), Leftover(total, ws));
    seq(|ws|, i requires 0 <= i < |ws| => floors[i] + (if i in taken then 1 else 0))
  }

  lemma RestsSum(total: int, ws: seq<int>)
    requires ValidWeights(ws)
    ensures Sum(Rests(total, ws, Sum(ws))) == Sum(ws) * Leftover(total, ws)
  {
    hide QuotaRest, QuotaFloor;
    var sum := Sum(ws);
    var fs, rs := Floors(total, ws, sum), Rests(total, ws, sum);
    var scaledFloors := seq(|ws|, i requires 0 <= i < |ws| => sum * fs[i]);
    var scaledWeights := seq(|ws|, i requires 0 <= i < |ws| => total * ws[i]);
    forall i | 0 <= i < |ws| ensures scaledWeights[i] == scaledFloors[i] + rs[i] {
      var r := QuotaRest(total, ws[i], sum);
    }
    SumAdd(scaledFloors, rs, scaledWeights);
    SumScale(fs, sum, scaledFloors);
    SumScale(ws, total, scaledWeights);
    assert sum * (total - Sum(fs)) == total * sum - sum * Sum(fs);
  }

  lemma MultipleBetween(sum: int, k: int, m: int)
    requires sum > 0 && 0 <= sum * k <= sum * m
    ensures 0 <= k <= m
  {
    if k < 0 {
      MulPositive(sum, -k);
    } else if k > m {
      MulPositive(sum, k - m);
    }
  }

  /** The leftover is never negative, and never more than the positive remainders there are. */
  lemma LeftoverRange(total: int, ws: seq<int>, positive: set<nat>)
    requires ValidWeights(ws)
    requires forall i: nat :: i in positive <==> i < |ws| && Rests(total, ws, Sum(ws))[i] > 0
    ensures 0 <= Leftover(total, ws) <= |positive| <= |ws|
  {
    hide Sum, Leftover, QuotaRest, QuotaFloor;
    var sum, k := Sum(ws), Leftover(total, ws);
    var rs := Rests(total, ws, sum);
    RestsSum(total, ws);
    SumNonNegative(rs);
    RestsUnderMarks(total, ws, positive);
    MultipleBetween(sum, k, |positive|);
    SumMarks(positive, |ws|);
    SumPointwise(Marks(positive, |ws|), seq(|ws|, _ => 1));
    SumOnes(|ws|);
  }

  /** The remainders are less than the weight sum each, so together at most one sum per positive one. */
  lemma RestsUnderMarks(total: int, ws: seq<int>, positive: set<nat>)
    requires ValidWeights(ws)
    requires forall i: nat :: i in positive <==> i < |ws| && Rests(total, ws, Sum(ws))[i] > 0
    ensures Sum(Rests(total, ws, Sum(ws))) <= Sum(ws) * |positive|
  {
    hide QuotaRest, QuotaFloor, Sum;
    var sum := Sum(ws);
    var rs, marks := Rests(total, ws, sum), Marks(positive, |ws|);
    SumMarks(positive, |ws|);
    var bound := seq(|ws|, i requires 0 <= i < |ws| => sum * marks[i]);
    SumScale(marks, sum, bound);
    forall i | 0 <= i < |ws| ensures rs[i] <= bound[i] {
      assert marks[i] == 0 || marks[i] == 1;
    }
    SumPointwise(rs, bound);
  }

  lemma InPrefix(order: seq<nat>, n: nat, k: nat, pos: nat)
    requires Indices(order, n) && k <= |order| && pos < |order|
    ensures order[pos] in order[..k] <==> pos < k
  {
    if pos < k { assert order[..k][pos] == order[pos]; }
  }

  lemma {:induction false} PrefixCount(order: seq<nat>, k: nat, n: nat)
    requires Indices(order, n) && k <= |order|
    ensures |TakenBy(order, k)| == k
  {
    hide Indices;
    if k > 0 {
      PrefixCount(order, k - 1, n);
      InPrefix(order, n, k - 1, k - 1);
      OneMoreTaken(order, k);
    }
  }

  lemma OneMoreTaken(order: seq<nat>, k: nat)
    requires 0 < k <= |order|
    ensures TakenBy(order, k) == TakenBy(order, k - 1) + {order[k - 1]}
    ensures order[k - 1] in TakenBy(order, k - 1) <==> order[k - 1] in order[..k - 1]
  {
    assert order[..k] == order[..k - 1] + [order[k - 1]];
  }

  lemma TakenComesFirst(rests: seq<int>, order: seq<nat>, k: nat, i: nat, j: nat)
    requires Indices(order, |rests|) && SortedByRest(rests, order) && k <= |order|
    requires i in TakenBy(order, k) && j in order && j !in TakenBy(order, k)
    ensures Before(rests, i, j)
  {
    var a :| 0 <= a < k && order[..k][a] == i;
    var b :| 0 <= b < |order| && order[b] == j;
    assert forall c :: 0 <= c < k ==> order[c] == order[..k][c];
  }

  /**
    What a largest-remainder split is, without saying how it is found: the parts add up to the
    total, each is the floor of its exact quota or one cent more, and nobody goes without the extra
    cent while somebody after it (smaller remainder, or equal and later) has one.
  */
  ghost predicate IsLargestRemainder(total: int, ws: seq<int>, parts: seq<int>)
    requires ValidWeights(ws)
  {
    var sum := Sum(ws);
    var rests := Rests(total, ws, sum);
    |parts| == |ws|
    && Sum(parts) == total
    && (forall i :: 0 <= i < |ws| ==>
          QuotaFloor(total, ws[i], sum) <= parts[i] <= QuotaFloor(total, ws[i], sum) + 1)
    && (forall i, j :: 0 <= i < |ws| && 0 <= j < |ws|
          && parts[i] > QuotaFloor(total, ws[i], sum) && parts[j] == QuotaFloor(total, ws[j], sum)
          ==> Before(rests, i, j))
  }

  lemma AllocateIsLargestRemainder(total: int, ws: seq<int>)
    requires ValidWeights(ws)
    ensures IsLargestRemainder(total, ws, Allocate(total, ws))
  {
    hide QuotaRest, QuotaFloor;
    var sum, k, n := Sum(ws), Leftover(total, ws), |ws|;
    var rests, floors := Rests(total, ws, sum), Floors(total, ws, sum);
    var order := OrderOf(rests, n);
    LeftoverRange(total, ws, set i: nat | i < n && rests[i] > 0);
    var taken := TakenBy(order, k);
    PrefixCount(order, k, n);
    SumMarks(taken, n);
    SumAdd(floors, Marks(taken, n), Allocate(total, ws));
    forall i: nat, j: nat | i < n && j < n && i in taken && j !in taken
      ensures Before(rests, i, j)
    {
      TakenComesFirst(rests, order, k, i, j);
    }
  }

  /** The description pins the split down: there is only one. */
  lemma LargestRemainderUnique(total: int, ws: seq<int>, p: seq<int>, q: seq<int>)
    requires ValidWeights(ws)
    requires IsLargestRemainder(total, ws, p) && IsLargestRemainder(total, ws, q)
    ensures p == q
  {
    hide QuotaRest, QuotaFloor;
    forall i | 0 <= i < |ws| ensures p[i] <= q[i] { NotMore(total, ws, p, q, i); }
    forall i | 0 <= i < |ws| ensures q[i] <= p[i] { NotMore(total, ws, q, p, i); }
  }

  lemma NotMore(total: int, ws: seq<int>, p: seq<int>, q: seq<int>, i: nat)
    requires ValidWeights(ws) && i < |ws|
    requires IsLargestRemainder(total, ws, p) && IsLargestRemainder(total, ws, q)
    ensures p[i] <= q[i]
  {
    hide QuotaRest, QuotaFloor;
    if p[i] > q[i] {
      if j :| 0 <= j < |ws| && p[j] < q[j] {
        assert false;
      } else {
        SumPointwise(q, p);
      }
    }
  }

  /** A part whose quota is a whole number of cents gets exactly its quota: no rounding cent. */
  lemma WholeQuotaIsExact(total: int, ws: seq<int>, i: nat)
    requires ValidWeights(ws) && i < |ws|
    requires QuotaRest(total, ws[i], Sum(ws)) == 0
    ensures Allocate(total, ws)[i] == QuotaFloor(total, ws[i], Sum(ws))
  {
    hide QuotaRest, QuotaFloor;
    var k, n := Leftover(total, ws), |ws|;
    var rests := Rests(total, ws, Sum(ws));
    var order := OrderOf(rests, n);
    var positive := set j: nat | j < n && rests[j] > 0;
    LeftoverRange(total, ws, positive);
    var taken := TakenBy(order, k);
    PrefixCount(order, k, n);
    if i in taken {
      forall j: nat | j in positive ensures j in taken {
        if j !in taken { TakenComesFirst(rests, order, k, i, j); }
      }
      SubsetSize(positive + {i}, taken);
    }
  }

  lemma {:induction false} SubsetSize<T>(a: set<T>, b: set<T>)
    requires a <= b
    ensures |a| <= |b|
  {
    if a != {} {
      var x :| x in a;
      SubsetSize(a - {x}, b - {x});
    }
  }

  /** A zero weight gets nothing, whatever the total. */
  lemma ZeroWeightGetsZero(total: int, ws: seq<int>, i: nat)
    requires ValidWeights(ws) && i < |ws| && ws[i] == 0
    ensures Allocate(total, ws)[i] == 0
  {
    DivUnique(total * ws[i], Sum(ws), 0, 0);
    WholeQuotaIsExact(total, ws, i);
  }

  lemma AllocateZero(ws: seq<int>)
    requires ValidWeights(ws)
    ensures Allocate(0, ws) == seq(|ws|, _ => 0)
  {
    forall i | 0 <= i < |ws| ensures Allocate(0, ws)[i] == 0 {
      DivUnique(0 * ws[i], Sum(ws), 0, 0);
      WholeQuotaIsExact(0, ws, i);
    }
  }

  /** Splitting the sum of the weights themselves gives back every weight. */
  lemma AllocateWhole(ws: seq<int>)
    requires ValidWeights(ws)
    ensures Allocate(Sum(ws), ws) == ws
  {
    forall i | 0 <= i < |ws| ensures Allocate(Sum(ws), ws)[i] == ws[i] {
      DivUnique(Sum(ws) * ws[i], Sum(ws), ws[i], 0);
      WholeQuotaIsExact(Sum(ws), ws, i);
    }
  }

  /** A larger numerator has a larger truncated quota, or the same one and a larger remainder. */
  lemma QuotaMonotone(t: int, w: int, t': int, w': int, sum: int)
    requires sum > 0 && t * w <= t' * w'
    ensures QuotaFloor(t, w, sum) <= QuotaFloor(t', w', sum)
    ensures QuotaFloor(t, w, sum) == QuotaFloor(t', w', sum) ==>
              QuotaRest(t', w', sum) - QuotaRest(t, w, sum) == t' * w' - t * w
  {
    DivMonotone(t * w, t' * w', sum);
    hide QuotaRest, QuotaFloor;
    var r, r' := QuotaRest(t, w, sum), QuotaRest(t', w', sum);
  }

  lemma NonNegativeParts(total: int, ws: seq<int>)
    requires ValidWeights(ws) && total >= 0
    ensures forall i :: 0 <= i < |ws| ==> Allocate(total, ws)[i] >= 0
  {
    forall i | 0 <= i < |ws| ensures QuotaFloor(total, ws[i], Sum(ws)) >= 0 {
      MulLe(0, total, ws[i]);
      DivMonotone(0, total * ws[i], Sum(ws));
    }
    hide QuotaRest, QuotaFloor;
    AllocateIsLargestRemainder(total, ws);
  }

  /** With a non-negative total, a larger weight never gets less. */
  lemma LargerWeightNeverLess(total: int, ws: seq<int>, i: nat, j: nat)
    requires ValidWeights(ws) && total >= 0 && i < |ws| && j < |ws|
    requires ws[i] > ws[j]
    ensures Allocate(total, ws)[i] >= Allocate(total, ws)[j]
  {
    hide QuotaRest, QuotaFloor, Allocate, Sum;
    var sum, parts := Sum(ws), Allocate(total, ws);
    if total == 0 {
      AllocateZero(ws);
    } else {
      AllocateIsLargestRemainder(total, ws);
      MulPositive(total, ws[i] - ws[j]);
      QuotaMonotone(total, ws[j], total, ws[i], sum);
    }
  }

  /** Raising the total lowers a part by at most one cent. */
  lemma RaisingTotalLosesAtMostACent(t: int, t': int, ws: seq<int>, i: nat)
    requires ValidWeights(ws) && t <= t' && i < |ws|
    ensures Allocate(t', ws)[i] >= Allocate(t, ws)[i] - 1
  {
    hide QuotaRest, QuotaFloor, Allocate, Sum;
    AllocateIsLargestRemainder(t, ws);
    AllocateIsLargestRemainder(t', ws);
    MulLe(t, t', ws[i]);
    QuotaMonotone(t, ws[i], t', ws[i], Sum(ws));
  }

  /** One more cent in the total raises no part by more than one cent. */
  lemma OneMoreCentRaisesByAtMostOne(t: int, ws: seq<int>, i: nat)
    requires ValidWeights(ws) && i < |ws|
    ensures Allocate(t + 1, ws)[i] <= Allocate(t, ws)[i] + 1
  {
    hide QuotaRest, QuotaFloor, Allocate;
    var sum, p, p' := Sum(ws), Allocate(t, ws), Allocate(t + 1, ws);
    AllocateIsLargestRemainder(t, ws);
    AllocateIsLargestRemainder(t + 1, ws);
    QuotaStep(t, ws[i], sum, ws);
    if p'[i] > p[i] + 1 {
      forall j | 0 <= j < |ws| ensures p[j] <= p'[j] {
        QuotaStep(t, ws[j], sum, ws);
      }
      SumUpdate(p, i, p[i] + 2);
      SumPointwise(p[i := p[i] + 2], p');
    }
  }

  lemma QuotaStep(t: int, w: int, sum: int, ws: seq<int>)
    requires ValidWeights(ws) && sum == Sum(ws) && w in ws
    ensures var f, f' := QuotaFloor(t, w, sum), QuotaFloor(t + 1, w, sum);
            var r, r' := QuotaRest(t, w, sum), QuotaRest(t + 1, w, sum);
            (f' == f && r' == r + w) || (f' == f + 1 && r' <= r)
  {
    SumNonNegative(ws);
    hide QuotaRest, QuotaFloor;
    var f, f' := QuotaFloor(t, w, sum), QuotaFloor(t + 1, w, sum);
    var r, r' := QuotaRest(t, w, sum), QuotaRest(t + 1, w, sum);
    assert (f' - f) * sum == w + r - r';
    LessByMultiple(-1, f' - f, sum);
    LessByMultiple(f' - f, 2, sum);
  }

  ghost predicate OnlyPositive(ws: seq<int>, a: nat, b: nat) {
    a < |ws| && b < |ws| && a != b
    && forall i: nat :: i < |ws| && i != a && i != b ==> ws[i] == 0
  }

  lemma TwoWeightsSum(ws: seq<int>, a: nat, b: nat)
    requires OnlyPositive(ws, a, b)
    ensures Sum(ws) == ws[a] + ws[b]
  {
    SumUpdate(ws, a, 0);
    SumUpdate(ws[a := 0], b, 0);
    SumZero(ws[a := 0][b := 0]);
  }

  /**
    With two positive weights, the two remainders add up to one cent (or both are zero), and that
    cent goes to one of the two.
  */
  lemma TwoWeightsShareOneCent(t: int, ws: seq<int>, a: nat, b: nat)
    requires ValidWeights(ws) && OnlyPositive(ws, a, b)
    ensures QuotaRest(t, ws[a], Sum(ws)) > 0 ==>
              && QuotaRest(t, ws[a], Sum(ws)) + QuotaRest(t, ws[b], Sum(ws)) == Sum(ws)
              && Allocate(t, ws)[a] - QuotaFloor(t, ws[a], Sum(ws))
                 + Allocate(t, ws)[b] - QuotaFloor(t, ws[b], Sum(ws)) == 1
  {
    hide QuotaRest, QuotaFloor;
    var sum, p := Sum(ws), Allocate(t, ws);
    TwoWeightsSum(ws, a, b);
    AllocateIsLargestRemainder(t, ws);
    forall i: nat | i < |ws| && i != a && i != b ensures p[i] == 0 { ZeroWeightGetsZero(t, ws, i); }
    TwoWeightsSum(p, a, b);
    var fa, fb := QuotaFloor(t, ws[a], sum), QuotaFloor(t, ws[b], sum);
    var ra, rb := QuotaRest(t, ws[a], sum), QuotaRest(t, ws[b], sum);
    TwoQuotas(t, ws[a], ws[b], sum, fa, fb, ra, rb);
  }

  lemma TwoQuotas(t: int, wa: int, wb: int, sum: int, fa: int, fb: int, ra: int, rb: int)
    requires sum > 0 && wa + wb == sum && 0 <= ra < sum && 0 <= rb < sum
    requires t * wa == fa * sum + ra && t * wb == fb * sum + rb
    ensures ra > 0 ==> ra + rb == sum && t == fa + fb + 1
  {
    if ra > 0 {
      var q := t - fa - fb;
      assert t * wa + t * wb == t * (wa + wb);
      assert ra + rb == q * sum;
      LessByMultiple(0, q, sum);
      LessByMultiple(q, 2, sum);
    }
  }

  /** With two positive weights, raising the total never lowers a part. */
  lemma TwoWeightsMonotone(t: int, t': int, ws: seq<int>, a: nat, b: nat)
    requires ValidWeights(ws) && t <= t' && OnlyPositive(ws, a, b)
    ensures Allocate(t, ws)[a] <= Allocate(t', ws)[a]
  {
    hide QuotaRest, QuotaFloor, Allocate;
    var sum := Sum(ws);
    if ws[a] == 0 {
      ZeroWeightGetsZero(t, ws, a);
      ZeroWeightGetsZero(t', ws, a);
    } else if t < t' {
      SecondCentFollows(t, t', ws, a, b);
    }
  }

  lemma SecondCentFollows(t: int, t': int, ws: seq<int>, a: nat, b: nat)
    requires ValidWeights(ws) && t < t' && OnlyPositive(ws, a, b) && ws[a] > 0
    ensures Allocate(t, ws)[a] <= Allocate(t', ws)[a]
  {
    hide QuotaRest, QuotaFloor, Allocate, Sum;
    var sum := Sum(ws);
    var f, f', r, r' := QuotaFloor(t, ws[a], sum), QuotaFloor(t', ws[a], sum), QuotaRest(t, ws[a], sum),
        QuotaRest(t', ws[a], sum);
    assert f <= f' && (f == f' ==> r < r') by {
      MulPositive(t' - t, ws[a]);
      QuotaMonotone(t, ws[a], t', ws[a], sum);
    }
    assert IsLargestRemainder(t, ws, Allocate(t, ws)) by { AllocateIsLargestRemainder(t, ws); }
    assert IsLargestRemainder(t', ws, Allocate(t', ws)) by { AllocateIsLargestRemainder(t', ws); }
    if r == 0 {
      WholeQuotaIsExact(t, ws, a);
    } else if f == f' {
      TwoWeightsShareOneCent(t, ws, a, b);
      TwoWeightsShareOneCent(t', ws, a, b);
    }
  }

  /** With three positive weights a part can really lose a cent when the total grows. */
  lemma RaisingTotalCanLowerAPart()
    ensures ValidWeights([6, 6, 2])
    ensures Allocate(10, [6, 6, 2]) == [4, 4, 2]
    ensures Allocate(11, [6, 6, 2]) == [5, 5, 1]
  {
    hide Sum, Allocate;
    SumOfThree([6, 6, 2]);
    SixSixTwo();
    hide QuotaFloor, QuotaRest;
    FourFourOne(10, [6, 6, 2]);
    FourFourOne(11, [6, 6, 2]);
  }

  lemma SixSixTwo()
    ensures QuotaFloor(10, 6, 14) == 4 && QuotaRest(10, 6, 14) == 4
    ensures QuotaFloor(10, 2, 14) == 1 && QuotaRest(10, 2, 14) == 6
    ensures QuotaFloor(11, 6, 14) == 4 && QuotaRest(11, 6, 14) == 10
    ensures QuotaFloor(11, 2, 14) == 1 && QuotaRest(11, 2, 14) == 8
  {
  }

  /** Quotas of four, four and one and something: one cent left goes to the third, two to the others. */
  lemma FourFourOne(total: int, ws: seq<int>)
    requires ValidWeights(ws) && |ws| == 3 && ws[0] == ws[1] && (total == 10 || total == 11)
    requires QuotaFloor(total, ws[0], Sum(ws)) == 4 && QuotaFloor(total, ws[2], Sum(ws)) == 1
    requires total == 10 ==> QuotaRest(total, ws[0], Sum(ws)) < QuotaRest(total, ws[2], Sum(ws))
    requires total == 11 ==> QuotaRest(total, ws[2], Sum(ws)) < QuotaRest(total, ws[0], Sum(ws))
    ensures Allocate(total, ws) == if total == 10 then [4, 4, 2] else [5, 5, 1]
  {
    hide QuotaRest, QuotaFloor, Sum, Allocate;
    var parts := if total == 10 then [4, 4, 2] else [5, 5, 1];
    SumOfThree(parts);
    assert IsLargestRemainder(total, ws, parts);
    AllocateIsLargestRemainder(total, ws);
    LargestRemainderUnique(total, ws, Allocate(total, ws), parts);
  }

  // ─── When a part loses a cent ─────────────────────────

  /** How many indices take a leftover cent before index i. */
  function Ahead(rests: seq<int>, i: nat): nat
    requires i < |rests|
  {
    |set j: nat | j < |rests| && Before(rests, j, i)|
  }

  /** The remainder of index i is among those that take a leftover cent. */
  predicate TakesACent(total: int, ws: seq<int>, i: nat)
    requires ValidWeights(ws) && i < |ws|
  {
    Ahead(Rests(total, ws, Sum(ws)), i) < Leftover(total, ws)
  }

  lemma RankIsPosition(rests: seq<int>, order: seq<nat>, pos: nat)
    requires Indices(order, |rests|) && SortedByRest(rests, order) && pos < |order|
    requires forall y: nat :: y in order <==> y < |rests|
    ensures Ahead(rests, order[pos]) == pos
  {
    PrefixCount(order, pos, |rests|);
    var ahead := set j: nat | j < |rests| && Before(rests, j, order[pos]);
    forall j: nat ensures j in ahead <==> j in TakenBy(order, pos) {
      if j < |rests| {
        assert j in order;
        var q :| 0 <= q < |order| && order[q] == j;
        InPrefix(order, |rests|, pos, q);
        if q < pos {
          assert Before(rests, order[q], order[pos]);
        } else if q > pos {
          assert Before(rests, order[pos], order[q]);
        }
      }
    }
    assert ahead == TakenBy(order, pos);
  }

  /** Each part on its own: its truncated quota, and a cent when its rank is below the leftover. */
  lemma PartByRank(total: int, ws: seq<int>, i: nat)
    requires ValidWeights(ws) && i < |ws|
    ensures Allocate(total, ws)[i] == QuotaFloor(total, ws[i], Sum(ws)) + (if TakesACent(total, ws, i) then 1 else 0)
  {
    hide QuotaRest, QuotaFloor, Sum;
    var rests, k := Rests(total, ws, Sum(ws)), Leftover(total, ws);
    var order := OrderOf(rests, |ws|);
    assert i in order;
    var pos :| 0 <= pos < |order| && order[pos] == i;
    RankIsPosition(rests, order, pos);
    LeftoverRange(total, ws, set j: nat | j < |ws| && rests[j] > 0);
    InPrefix(order, |ws|, k, pos);
  }

  /**
    When raising the total takes a cent from part i: its whole cents stay the same, and its remainder was
    among those that take a leftover cent before, and is not after.
  */
  predicate LosesACent(total: int, total': int, ws: seq<int>, i: nat)
    requires ValidWeights(ws) && i < |ws|
  {
    && QuotaFloor(total, ws[i], Sum(ws)) == QuotaFloor(total', ws[i], Sum(ws))
    && TakesACent(total, ws, i) && !TakesACent(total', ws, i)
  }

  lemma LosesACentExactlyWhen(total: int, total': int, ws: seq<int>, i: nat)
    requires ValidWeights(ws) && total <= total' && i < |ws|
    ensures Allocate(total', ws)[i] < Allocate(total, ws)[i] <==> LosesACent(total, total', ws, i)
  {
    hide QuotaRest, QuotaFloor, Allocate, TakesACent, Sum;
    PartByRank(total, ws, i);
    PartByRank(total', ws, i);
    MulLe(total, total', ws[i]);
    QuotaMonotone(total, ws[i], total', ws[i], Sum(ws));
  }

  /** At most the weights a and b (which may be the same one) are positive. */
  ghost predicate AtMostTwoPositive(ws: seq<int>, a: nat, b: nat) {
    a < |ws| && b < |ws| && forall i: nat :: i < |ws| && i != a && i != b ==> ws[i] == 0
  }

  /** With at most two positive weights no part ever loses a cent. */
  lemma AtMostTwoMonotone(total: int, total': int, ws: seq<int>, a: nat, b: nat, i: nat)
    requires ValidWeights(ws) && total <= total' && AtMostTwoPositive(ws, a, b) && i < |ws|
    ensures Allocate(total, ws)[i] <= Allocate(total', ws)[i]
  {
    hide Allocate, Sum;
    if i != a && i != b {
      ZeroWeightGetsZero(total, ws, i);
      ZeroWeightGetsZero(total', ws, i);
    } else if a != b {
      TwoWeightsMonotone(total, total', ws, i, a + b - i);
    } else {
      OnlyOneTakesAll(total, ws, i);
      OnlyOneTakesAll(total', ws, i);
    }
  }

  lemma OnlyOneTakesAll(total: int, ws: seq<int>, i: nat)
    requires ValidWeights(ws) && AtMostTwoPositive(ws, i, i)
    ensures Allocate(total, ws)[i] == total
  {
    hide Allocate, Sum;
    var p := Allocate(total, ws);
    AllocateIsLargestRemainder(total, ws);
    forall j: nat | j < |ws| && j != i ensures p[j] == 0 { ZeroWeightGetsZero(total, ws, j); }
    SumUpdate(p, i, 0);
    SumZero(p[i := 0]);
  }

  // ─── The engine's loop ────────────────────────────────

  function AllocationOf(total: int, ws: seq<int>): (r: Result<seq<int>, AllocationError>)
    ensures r.Ok? ==> |r.value| == |ws|
  {
    if ws == [] then Ok([])
    else if exists i :: 0 <= i < |ws| && ws[i] < 0 then Err(NegativeWeight)
    else if Sum(ws) == 0 then Err(ZeroWeightSum)
    else SumNonNegative(ws); Ok(Allocate(total, ws))
  }

  method SumOf(values: seq<int>) returns (acc: int)
    ensures acc == Sum(values)
  {
    acc := 0;
    for i := 0 to |values|
      invariant acc == Sum(values[..i])
    {
      SumPrefix(values, i);
      acc := acc + values[i];
    }
    assert values[..|values|] == values;
  }

  /** Truncates every quota and hands the leftover cents out in order of remainder, one each. */
  method AllocateLargestRemainder(total: int, weights: seq<int>) returns (r: Result<seq<int>, AllocationError>)
    ensures r == AllocationOf(total, weights)
  {
    if |weights| == 0 {
      return Ok([]);
    }
    if exists i :: 0 <= i < |weights| && weights[i] < 0 {
      return Err(NegativeWeight);
    }
    var weightSum := SumOf(weights);
    if weightSum == 0 {
      return Err(ZeroWeightSum);
    }
    SumNonNegative(weights);
    var floors, rests := Floors(total, weights, weightSum), Rests(total, weights, weightSum);
    var floorSum := SumOf(floors);
    LeftoverRange(total, weights, set i: nat | i < |weights| && rests[i] > 0);
    var order := OrderOf(rests, |weights|);
    var cents := HandOut(floors, order, total - floorSum);
    assert cents == Allocate(total, weights);
    r := Ok(cents);
  }

  /** One more cent for each of the first `count` indices, in place. */
  method HandOut(floors: seq<int>, order: seq<nat>, count: nat) returns (r: seq<int>)
    requires count <= |order| && Indices(order, |floors|)
    ensures |r| == |floors|
    ensures forall i: nat :: i < |r| ==> r[i] == floors[i] + (if i in TakenBy(order, count) then 1 else 0)
  {
    var cents := new int[|floors|](i requires 0 <= i < |floors| => floors[i]);
    var leftover, a := count, 0;
    while a < |order| && leftover > 0
      invariant 0 <= a <= |order|
      invariant leftover == count - a
      invariant forall i: nat :: i < |floors| ==> cents[i] == floors[i] + (if i in TakenBy(order, a) then 1 else 0)
    {
      assert order[..a + 1] == order[..a] + [order[a]];
      assert TakenBy(order, a + 1) == TakenBy(order, a) + {order[a]};
      assert order[a] !in TakenBy(order, a);
      cents[order[a]] := cents[order[a]] + 1;
      leftover := leftover - 1;
      a := a + 1;
    }
    r := cents[..];
  }
}
