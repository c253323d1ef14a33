/**
  The business-time clock of the inbox: when a deadline of so many minutes falls, counting only the
  opening hours of business days. Instants are integer milliseconds; the local clock is a fixed
  offset from them, and day d starts at DayStart(d).
*/
module Sla {
  import opened Rounding

  const HOUR := 3_600_000
  const DAY := 86_400_000
  const MINUTE := 60_000
  const AR_OFFSET := -10_800_000
  const MAX_DAYS_SCANNED := 15

  /** Weekdays are 0 (Sunday) to 6. */
  datatype BusinessHours = BusinessHours(enabled: bool, days: set<int>, fromHour: nat, untilHour: nat)

  predicate WithinTheDay(h: BusinessHours) { h.fromHour <= 24 && h.untilHour <= 24 }

  function DayOf(t: int): int { (t + AR_OFFSET) / DAY }

  function DayStart(d: int): int { d * DAY - AR_OFFSET }

  /** Day 0 of the clock was a Thursday. */
  function Weekday(d: int): int { (d + 4) % 7 }

  function Opens(h: BusinessHours, d: int): int { DayStart(d) + h.fromHour * HOUR }

  function Closes(h: BusinessHours, d: int): int { DayStart(d) + h.untilHour * HOUR }

  /** The business time of a day that falls in [from, to). */
  function WorkedOn(h: BusinessHours, from: int, to: int, d: int): nat {
    if Weekday(d) in h.days then Max(0, Min(to, Closes(h, d)) - Max(from, Opens(h, d))) else 0
  }

  /** The business time of n days from day d that falls in [from, to). */
  function Worked(h: BusinessHours, from: int, to: int, d: int, n: nat): nat {
    if n == 0 then 0 else Worked(h, from, to, d, n - 1) + WorkedOn(h, from, to, d + n - 1)
  }

  /** The business time between two instants. */
  function BusinessTime(h: BusinessHours, from: int, to: int): nat
    requires from <= to
  {
    DayOfMonotone(from, to);
    Worked(h, from, to, DayOf(from), DayOf(to) - DayOf(from) + 1)
  }

  lemma DayOfMonotone(a: int, b: int)
    requires a <= b
    ensures DayOf(a) <= DayOf(b)
  {
    DivMonotone(a + AR_OFFSET, b + AR_OFFSET, DAY);
  }

  /** The business time left in a day from an instant on. */
  function Available(h: BusinessHours, from: int, d: int): nat {
    if Weekday(d) in h.days then Max(0, Closes(h, d) - Max(from, Opens(h, d))) else 0
  }

  /** The business time left in the k-th day from that of `from`. */
  function AvailableNth(h: BusinessHours, from: int, k: nat): nat { Available(h, from, DayOf(from) + k) }

  /** The business time left in the n days from that of `from`. */
  function Capacity(h: BusinessHours, from: int, n: nat): nat {
    if n == 0 then 0 else Capacity(h, from, n - 1) + AvailableNth(h, from, n - 1)
  }

  predicate SomeTime(h: BusinessHours, from: int, n: nat) {
    exists k: nat :: k < n && AvailableNth(h, from, k) > 0
  }

  /** The deadline falls on the n-th day scanned: what was left after the days before fits in it. */
  predicate DueOn(h: BusinessHours, from: int, total: nat, due: int, n: nat) {
    var d := DayOf(from) + n;
    var start := Max(from, Opens(h, d));
    && Available(h, from, d) > 0
    && Capacity(h, from, n) <= total <= Capacity(h, from, n + 1)
    && due == start + (total - Capacity(h, from, n))
    && (total > 0 ==> Capacity(h, from, n) < total)
  }

  predicate Due(h: BusinessHours, from: int, total: nat, due: int) {
    exists n :: 0 <= n < MAX_DAYS_SCANNED && DueOn(h, from, total, due, n)
  }

  lemma DayBounds(t: int)
    ensures DayStart(DayOf(t)) <= t < DayStart(DayOf(t) + 1)
  {
    DivBounds(t + AR_OFFSET, DAY);
  }

  lemma DayOfStart(d: int)
    ensures DayOf(DayStart(d)) == d
  {
    DivUnique(DayStart(d) + AR_OFFSET, DAY, d, 0);
  }

  lemma {:induction false} CapacityGrows(h: BusinessHours, from: int, m: nat, n: nat)
    requires m <= n
    ensures Capacity(h, from, m) <= Capacity(h, from, n)
  {
    if m < n { CapacityGrows(h, from, m, n - 1); }
  }

  /**
    Scans day by day. The deadline is found exactly when there is some business time in the days
    scanned and it is enough; otherwise the clock falls back to wall time.
  */
  method ComputeSlaDueAt(from: int, minutes: nat, h: BusinessHours) returns (due: int, found: bool)
    requires WithinTheDay(h)
    ensures found <==> h.enabled && SomeTime(h, from, MAX_DAYS_SCANNED)
                       && minutes * MINUTE <= Capacity(h, from, MAX_DAYS_SCANNED)
    ensures found ==> Due(h, from, minutes * MINUTE, due)
    ensures !found ==> due == from + minutes * MINUTE
  {
    hide DayOf, Weekday, Closes;
    due, found := from + minutes * MINUTE, false;
    if !h.enabled {
      return;
    }
    var cursor, remaining := from, minutes * MINUTE;
    ghost var first := DayOf(from);
    DayBounds(from);
    for i := 0 to MAX_DAYS_SCANNED
      invariant cursor == if i == 0 then from else DayStart(first + i)
      invariant remaining == minutes * MINUTE - Capacity(h, from, i)
      invariant remaining >= 0
      invariant SomeTime(h, from, i) ==> remaining > 0
      invariant minutes > 0 ==> remaining > 0
    {
      DayOfStart(first + i);
      var day := DayOf(cursor);
      assert day == first + i;
      if Weekday(day) in h.days {
        var opens, closes := Opens(h, day), Closes(h, day);
        var start := Max(cursor, opens);
        assert start == Max(from, opens);
        if start < closes {
          var available := closes - start;
          assert available == Available(h, from, day);
          assert AvailableNth(h, from, i) > 0;
          if remaining <= available {
            CapacityGrows(h, from, i + 1, MAX_DAYS_SCANNED);
            assert DueOn(h, from, minutes * MINUTE, start + remaining, i);
            return start + remaining, true;
          }
          remaining := remaining - available;
        }
      }
      cursor := DayStart(day + 1);
    }
  }
}
