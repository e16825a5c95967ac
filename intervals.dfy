/** The overlap predicate and the conflict checker built on it. */
module Intervals {
  import opened Wrappers
  import opened Records

  /** [aStart, aEnd) and [bStart, bEnd) overlap: `start < other.end && end > other.start`. */
  predicate Overlaps(aStart: int, aEnd: int, bStart: int, bEnd: int) {
    aStart < bEnd && aEnd > bStart
  }

  /** Minute `x` lies in the half-open interval [s, e). */
  predicate Covers(s: int, e: int, x: int) {
    s <= x < e
  }

  /** Overlap does not depend on which interval is the stored one. */
  lemma OverlapsSymmetric(aStart: int, aEnd: int, bStart: int, bEnd: int)
    ensures Overlaps(aStart, aEnd, bStart, bEnd) == Overlaps(bStart, bEnd, aStart, aEnd)
  {
  }

  /**
   * For non-empty intervals, overlapping means sharing a minute; in
   * particular an interval ending where another begins shares none.
   */
  lemma OverlapsIffSharedMinute(aStart: int, aEnd: int, bStart: int, bEnd: int)
    requires aStart < aEnd && bStart < bEnd
    ensures Overlaps(aStart, aEnd, bStart, bEnd) <==>
            exists x :: Covers(aStart, aEnd, x) && Covers(bStart, bEnd, x)
  {
    if Overlaps(aStart, aEnd, bStart, bEnd) {
      var x := if aStart < bStart then bStart else aStart;
      assert Covers(aStart, aEnd, x) && Covers(bStart, bEnd, x);
    }
  }

  /** Back-to-back intervals never overlap, in either order. */
  lemma TouchingIntervalsDoNotOverlap(s: int, m: int, e: int)
    ensures !Overlaps(s, m, m, e) && !Overlaps(m, e, s, m)
  {
  }

  predicate OrderOverlaps(o: Order, start: Minute, end: Minute) {
    Overlaps(o.start, o.end, start, end)
  }

  /** Some stored order, whatever its status, overlaps [start, end). */
  predicate HasConflict(orders: seq<Order>, start: Minute, end: Minute) {
    exists i :: 0 <= i < |orders| && OrderOverlaps(orders[i], start, end)
  }

  /** The first stored order, in store order, that overlaps [start, end). */
  function FirstConflict(orders: seq<Order>, start: Minute, end: Minute): (r: Option<nat>)
    ensures r.None? <==> !HasConflict(orders, start, end)
    ensures r.Some? ==> r.value < |orders| && OrderOverlaps(orders[r.value], start, end)
    ensures r.Some? ==> forall j :: 0 <= j < r.value ==> !OrderOverlaps(orders[j], start, end)
  {
    FirstConflictFrom(orders, start, end, 0)
  }

  function FirstConflictFrom(orders: seq<Order>, start: Minute, end: Minute, i: nat): (r: Option<nat>)
    requires i <= |orders|
    ensures r.None? <==> forall j :: i <= j < |orders| ==> !OrderOverlaps(orders[j], start, end)
    ensures r.Some? ==> i <= r.value < |orders| && OrderOverlaps(orders[r.value], start, end)
    ensures r.Some? ==> forall j :: i <= j < r.value ==> !OrderOverlaps(orders[j], start, end)
    decreases |orders| - i
  {
    if i == |orders| then None
    else if OrderOverlaps(orders[i], start, end) then Some(i)
    else FirstConflictFrom(orders, start, end, i + 1)
  }

  /** No two stored orders overlap. */
  predicate Disjoint(orders: seq<Order>) {
    forall i, j :: 0 <= i < j < |orders| ==> !OrderOverlaps(orders[i], orders[j].start, orders[j].end)
  }

  /** Appending an order that the conflict check let through keeps the store free of overlaps. */
  lemma AppendKeepsDisjoint(orders: seq<Order>, o: Order)
    requires Disjoint(orders)
    requires !HasConflict(orders, o.start, o.end)
    ensures Disjoint(orders + [o])
  {
  }

  /** A cancelled or completed order still blocks its interval: no status is filtered out. */
  lemma EveryStatusBlocks(orders: seq<Order>, i: nat, start: Minute, end: Minute)
    requires i < |orders| && orders[i].start < end && start < orders[i].end
    ensures HasConflict(orders, start, end)
    ensures FirstConflict(orders, start, end).Some?
  {
    assert OrderOverlaps(orders[i], start, end);
  }
}
