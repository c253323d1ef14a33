/**
  The payout shares of a contract's lessors over time. Shares are in units of 1/10000 % (100 % is
  1 000 000) and instants are integers; the end of a share is exclusive.
*/
module LessorShares {
  import opened Rounding
  import opened Sums
  import opened Wrappers

  datatype Row = Row(units: int, validFrom: int, validTo: Option<int>)

  datatype InvalidDate = InvalidDate(date: int, sum: int)

  predicate IsActiveAt(row: Row, t: int) {
    row.validFrom <= t && (row.validTo.None? || row.validTo.value > t)
  }

  /** The shares in force at an instant, added up. */
  function ShareSum(rows: seq<Row>, t: int): int {
    if rows == [] then 0
    else ShareSum(rows[..|rows| - 1], t) + (if IsActiveAt(rows[|rows| - 1], t) then rows[|rows| - 1].units else 0)
  }

  predicate Ascending(s: seq<int>) { forall i, j :: 0 <= i < j < |s| ==> s[i] < s[j] }

  /** A set of instants kept in order. */
  function AddPoint(points: seq<int>, x: int): (r: seq<int>)
    requires Ascending(points)
    ensures Ascending(r)
    ensures forall p :: p in r <==> p == x || p in points
  {
    if points == [] then [x]
    else if x == points[0] then points
    else if x < points[0] then [x] + points
    else
      var rest := AddPoint(points[1..], x);
      assert forall p :: p in points <==> p == points[0] || p in points[1..];
      assert forall i :: 0 <= i < |rest| ==> rest[i] in rest;
      [points[0]] + rest
  }

  function AddEdge(points: seq<int>, x: int, from: int, to: int): (r: seq<int>)
    requires Ascending(points)
    ensures Ascending(r)
  {
    if from < x < to then AddPoint(points, x) else points
  }

  /** The start of the window and every instant inside it at which somebody enters or leaves. */
  function Points(rows: seq<Row>, from: int, to: int): (r: seq<int>)
    ensures Ascending(r)
  {
    if rows == [] then [from]
    else
      var row := rows[|rows| - 1];
      var entered := AddEdge(Points(rows[..|rows| - 1], from, to), row.validFrom, from, to);
      if row.validTo.Some? then AddEdge(entered, row.validTo.value, from, to) else entered
  }

  function InvalidAmong(rows: seq<Row>, points: seq<int>): seq<InvalidDate> {
    if points == [] then []
    else
      var p := points[|points| - 1];
      InvalidAmong(rows, points[..|points| - 1])
        + (if ShareSum(rows, p) != FULL_PCT then [InvalidDate(p, ShareSum(rows, p))] else [])
  }

  method SumAt(rows: seq<Row>, t: int) returns (sum: int)
    ensures sum == ShareSum(rows, t)
  {
    sum := 0;
    for i := 0 to |rows|
      invariant sum == ShareSum(rows[..i], t)
    {
      assert rows[..i + 1][..i] == rows[..i];
      if IsActiveAt(rows[i], t) {
        sum := sum + rows[i].units;
      }
    }
    assert rows[..|rows|] == rows;
  }

  /** Looks only at the start and at the instants when somebody enters or leaves. */
  method FindInvalidShareDates(rows: seq<Row>, from: int, to: int) returns (invalid: seq<InvalidDate>)
    ensures invalid == InvalidAmong(rows, Points(rows, from, to))
  {
    var points := [from];
    for i := 0 to |rows|
      invariant points == Points(rows[..i], from, to)
    {
      assert rows[..i + 1][..i] == rows[..i];
      points := AddEdge(points, rows[i].validFrom, from, to);
      if rows[i].validTo.Some? {
        points := AddEdge(points, rows[i].validTo.value, from, to);
      }
    }
    assert rows[..|rows|] == rows;
    invalid := [];
    for k := 0 to |points|
      invariant invalid == InvalidAmong(rows, points[..k])
    {
      assert points[..k + 1][..k] == points[..k];
      var sum := SumAt(rows, points[k]);
      if sum != FULL_PCT {
        invalid := invalid + [InvalidDate(points[k], sum)];
      }
    }
    assert points[..|points|] == points;
  }

  // ─── Laws ─────────────────────────────────────────────

  lemma {:induction false} InvalidAmongAre(rows: seq<Row>, points: seq<int>, d: InvalidDate)
    ensures d in InvalidAmong(rows, points) <==>
              d.date in points && d.sum == ShareSum(rows, d.date) && d.sum != FULL_PCT
  {
    if points != [] {
      var n := |points| - 1;
      InvalidAmongAre(rows, points[..n], d);
      assert forall p :: p in points <==> p == points[n] || p in points[..n];
    }
  }

  /** The start is always a point, every point is the start or inside the window, and so is every edge inside it. */
  lemma {:induction false} PointsAre(rows: seq<Row>, from: int, to: int)
    ensures from in Points(rows, from, to)
    ensures forall p :: p in Points(rows, from, to) ==> p == from || from < p < to
    ensures forall i :: 0 <= i < |rows| ==>
              && (from < rows[i].validFrom < to ==> rows[i].validFrom in Points(rows, from, to))
              && (rows[i].validTo.Some? && from < rows[i].validTo.value < to ==>
                  rows[i].validTo.value in Points(rows, from, to))
  {
    if rows != [] {
      var n := |rows| - 1;
      PointsAre(rows[..n], from, to);
      forall i | 0 <= i < n ensures rows[..n][i] == rows[i] {}
    }
  }

  /** The last point at or before an instant of the window. */
  lemma LastPoint(points: seq<int>, from: int, t: int) returns (p: int)
    requires from in points && from <= t
    ensures p in points && p <= t && forall q :: q in points && q <= t ==> q <= p
  {
    p := from;
    for i := 0 to |points|
      invariant p in points && p <= t
      invariant forall j :: 0 <= j < i && points[j] <= t ==> points[j] <= p
    {
      if p < points[i] <= t { p := points[i]; }
    }
  }

  /** Between two points nobody enters or leaves, so the sum stays the same. */
  lemma {:induction false} SameSumBetween(rows: seq<Row>, p: int, t: int)
    requires p <= t
    requires forall i :: 0 <= i < |rows| ==>
      !(p < rows[i].validFrom <= t) && (rows[i].validTo.Some? ==> !(p < rows[i].validTo.value <= t))
    ensures ShareSum(rows, p) == ShareSum(rows, t)
  {
    if rows != [] { SameSumBetween(rows[..|rows| - 1], p, t); }
  }

  /** Every instant of the window has a point at or before it with the same sum. */
  lemma PointFor(rows: seq<Row>, from: int, to: int, t: int) returns (p: int)
    requires from <= t < to
    ensures p in Points(rows, from, to) && p <= t && ShareSum(rows, p) == ShareSum(rows, t)
  {
    PointsAre(rows, from, to);
    p := LastPoint(Points(rows, from, to), from, t);
    SameSumBetween(rows, p, t);
  }

  /** Every instant at which the shares do not add up is reported, by a date at or before it with the same sum. */
  lemma EveryBadInstantIsReported(rows: seq<Row>, from: int, to: int, t: int)
    requires from <= t < to && ShareSum(rows, t) != FULL_PCT
    ensures exists d :: d in InvalidAmong(rows, Points(rows, from, to)) && d.date <= t && d.sum == ShareSum(rows, t)
  {
    var p := PointFor(rows, from, to, t);
    var d := InvalidDate(p, ShareSum(rows, p));
    InvalidAmongAre(rows, Points(rows, from, to), d);
  }

  /**
    Checking the points is checking every instant: nothing is reported if and only if the shares add up at
    all of them.
  */
  lemma PointsSuffice(rows: seq<Row>, from: int, to: int)
    requires from < to
    ensures InvalidAmong(rows, Points(rows, from, to)) == [] <==>
              forall t :: from <= t < to ==> ShareSum(rows, t) == FULL_PCT
  {
    var invalid := InvalidAmong(rows, Points(rows, from, to));
    forall t | from <= t < to && ShareSum(rows, t) != FULL_PCT ensures invalid != [] {
      EveryBadInstantIsReported(rows, from, to, t);
    }
    if invalid != [] {
      var d := invalid[0];
      InvalidAmongAre(rows, Points(rows, from, to), d);
      PointsAre(rows, from, to);
      assert from <= d.date < to && ShareSum(rows, d.date) != FULL_PCT;
    }
  }

  /** In an empty window the start is looked at all the same. */
  lemma EmptyWindowStillLooksAtTheStart(rows: seq<Row>, from: int, to: int)
    requires to <= from
    ensures InvalidAmong(rows, Points(rows, from, to)) == [] <==> ShareSum(rows, from) == FULL_PCT
  {
    var invalid := InvalidAmong(rows, Points(rows, from, to));
    PointsAre(rows, from, to);
    InvalidAmongAre(rows, Points(rows, from, to), InvalidDate(from, ShareSum(rows, from)));
    if invalid != [] { InvalidAmongAre(rows, Points(rows, from, to), invalid[0]); }
  }

  /** The reports come in the order of their dates, one for each. */
  lemma {:induction false} ReportsInOrder(rows: seq<Row>, points: seq<int>)
    requires Ascending(points)
    ensures forall i, j :: 0 <= i < j < |InvalidAmong(rows, points)| ==>
              InvalidAmong(rows, points)[i].date < InvalidAmong(rows, points)[j].date
  {
    if points != [] {
      var n := |points| - 1;
      var front := InvalidAmong(rows, points[..n]);
      ReportsInOrder(rows, points[..n]);
      forall i | 0 <= i < |front| ensures front[i].date < points[n] {
        InvalidAmongAre(rows, points[..n], front[i]);
        assert front[i].date in points[..n];
      }
    }
  }

  // ─── Equal shares ─────────────────────────────────────

  /** Equal parts of 100 %; the last one carries what rounding leaves. */
  method SplitEqualPct(count: nat) returns (parts: seq<int>)
    requires count >= 1
    ensures |parts| == count && Sum(parts) == FULL_PCT
    ensures forall i :: 0 <= i < count - 1 ==> parts[i] == RoundDiv(FULL_PCT, count)
    ensures 0 - count <= 2 * (parts[count - 1] - RoundDiv(FULL_PCT, count)) <= count
  {
    var each := RoundDiv(FULL_PCT, count);
    var same := seq(count, _ => each);
    parts := same[count - 1 := FULL_PCT - each * (count - 1)];
    SumUpdate(same, count - 1, FULL_PCT - each * (count - 1));
    SumScale(seq(count, _ => 1), each, same);
    SumOnes(count);
    RoundDivNearest(FULL_PCT, count);
    assert each * count == each * (count - 1) + each;
    assert count * each == each * count;
  }
}
