/**
 * The slot generator's specification. A candidate start is a minute of the
 * day (09:00 is 540); the scan starts at 09:00, advances 30 minutes at a
 * time while the hour is below 20, stops at the first candidate whose end
 * time-of-day is past 20:00, and keeps each candidate that overlaps no busy
 * interval. The busy intervals are those of the orders starting on the day.
 */
module Slots {
  import opened Records
  import opened Intervals

  const WorkStartHour := 9
  const WorkEndHour := 20
  const SlotStep := 30

  /** The projection of an order used only for overlap testing. */
  datatype Busy = Busy(start: Minute, end: Minute)

  /** 00:00 UTC of the day with index `day`. */
  function DayStart(day: int): Minute {
    day * 1440
  }

  /** Minute of the day of an absolute minute (the `hour` and `minute` of a datetime). */
  function TimeOfDay(m: Minute): (tod: nat)
    ensures tod < 1440
  {
    m % 1440
  }

  lemma TimeOfDayShift(day: int, x: int)
    requires 0 <= x < 1440
    ensures TimeOfDay(DayStart(day) + x) == x
  {
  }

  function HourOf(tod: nat): (h: nat)
    ensures h * 60 <= tod < h * 60 + 60
  {
    tod / 60
  }

  function MinuteOf(tod: nat): (m: nat)
    ensures tod == HourOf(tod) * 60 + m
  {
    tod % 60
  }

  /** The end-of-day test as written: end hour past 20, or hour 20 with a non-zero minute. */
  function EndsAfterClosing(endTod: nat): (r: bool)
    ensures r <==> endTod > 1200
  {
    HourOf(endTod) > WorkEndHour || (HourOf(endTod) == WorkEndHour && MinuteOf(endTod) > 0)
  }

  predicate StartsOn(o: Order, day: int) {
    DayStart(day) <= o.start < DayStart(day + 1)
  }

  /** The busy intervals of the orders whose start lies in [day 00:00, next day 00:00), in store order. */
  function BusyOn(orders: seq<Order>, day: int): (busy: seq<Busy>)
    ensures |busy| <= |orders|
    ensures forall i :: 0 <= i < |orders| && StartsOn(orders[i], day) ==>
              Busy(orders[i].start, orders[i].end) in busy
    ensures forall b :: b in busy ==>
              exists i :: 0 <= i < |orders| && StartsOn(orders[i], day) && b == Busy(orders[i].start, orders[i].end)
  {
    if orders == [] then []
    else
      var rest := BusyOn(orders[1..], day);
      assert forall i :: 1 <= i < |orders| ==> orders[i] == orders[1..][i - 1];
      if StartsOn(orders[0], day) then [Busy(orders[0].start, orders[0].end)] + rest else rest
  }

  /** The candidate starting at minute `t` of day `day` overlaps no busy interval. */
  predicate IsFree(day: int, t: int, duration: int, busy: seq<Busy>) {
    forall k :: 0 <= k < |busy| ==>
      !Overlaps(DayStart(day) + t, DayStart(day) + t + duration, busy[k].start, busy[k].end)
  }

  /** The scan stops at candidate `t`: its end time-of-day is past 20:00. */
  predicate StopsAt(day: int, t: int, duration: int) {
    EndsAfterClosing(TimeOfDay(DayStart(day) + t + duration))
  }

  function ScanFrom(day: int, duration: int, busy: seq<Busy>, t: nat): seq<int>
    decreases 1200 - t
  {
    if HourOf(t) >= WorkEndHour then []
    else if StopsAt(day, t, duration) then []
    else (if IsFree(day, t, duration, busy) then [t] else []) + ScanFrom(day, duration, busy, t + SlotStep)
  }

  /** One step of the scan: it ends at 20:00 or at a stopping candidate, else keeps `t` if free and moves on. */
  lemma ScanStep(day: int, duration: int, busy: seq<Busy>, t: nat)
    ensures HourOf(t) >= WorkEndHour || StopsAt(day, t, duration) ==> ScanFrom(day, duration, busy, t) == []
    ensures HourOf(t) < WorkEndHour && !StopsAt(day, t, duration) ==>
              ScanFrom(day, duration, busy, t) ==
              (if IsFree(day, t, duration, busy) then [t] else []) + ScanFrom(day, duration, busy, t + SlotStep)
  {
  }

  /** The slots offered for `day` and `duration`, as minutes of the day, as the code computes them. */
  function OfferedSlots(day: int, duration: int, busy: seq<Busy>): seq<int> {
    ScanFrom(day, duration, busy, 540)
  }

  /** `t` is one of the candidate starts 09:00, 09:30, ..., 19:30. */
  predicate IsCandidate(t: int) {
    540 <= t < 1200 && (t - 540) % 30 == 0
  }

  predicate StrictlyIncreasing(s: seq<int>) {
    forall i, j :: 0 <= i < j < |s| ==> s[i] < s[j]
  }

  /** Each slot the scan from `t` keeps is a candidate at or after `t` that does not stop the scan and is free. */
  predicate KeptFrom(day: int, duration: int, busy: seq<Busy>, t: int, s: seq<int>) {
    forall i :: 0 <= i < |s| ==>
      t <= s[i] && IsCandidate(s[i]) && !StopsAt(day, s[i], duration) && IsFree(day, s[i], duration, busy)
  }

  lemma {:induction false} ScanFromShape(day: int, duration: int, busy: seq<Busy>, t: nat)
    requires IsCandidate(t) || t == 1200
    ensures KeptFrom(day, duration, busy, t, ScanFrom(day, duration, busy, t))
    ensures StrictlyIncreasing(ScanFrom(day, duration, busy, t))
    decreases 1200 - t
  {
    if HourOf(t) < WorkEndHour && !StopsAt(day, t, duration) {
      var rest := ScanFrom(day, duration, busy, t + SlotStep);
      ScanFromShape(day, duration, busy, t + SlotStep);
      var head: seq<int> := if IsFree(day, t, duration, busy) then [t] else [];
      assert ScanFrom(day, duration, busy, t) == head + rest;
      assert KeptFrom(day, duration, busy, t, head);
    }
  }

  /**
   * Every offered slot is a candidate 09:00 + 30k before 20:00 whose end
   * time-of-day is at or before 20:00 and which overlaps no busy interval;
   * slots come out strictly increasing.
   */
  lemma SlotsWellFormed(day: int, duration: int, busy: seq<Busy>)
    ensures var s := OfferedSlots(day, duration, busy);
            forall i :: 0 <= i < |s| ==>
              IsCandidate(s[i]) && TimeOfDay(DayStart(day) + s[i] + duration) <= 1200 &&
              IsFree(day, s[i], duration, busy)
    ensures StrictlyIncreasing(OfferedSlots(day, duration, busy))
  {
    ScanFromShape(day, duration, busy, 540);
  }

  /** The scan reaches candidate `c`: no candidate up to and including `c` stops it. */
  predicate Reached(day: int, duration: int, c: int) {
    forall u :: 540 <= u <= c && IsCandidate(u) ==> !StopsAt(day, u, duration)
  }

  /** Distinct candidates are at least one step apart. */
  lemma CandidateGap(t: int, u: int)
    requires IsCandidate(t) && IsCandidate(u) && t < u
    ensures t + SlotStep <= u
  {
  }

  lemma {:induction false} ScanFromMembership(day: int, duration: int, busy: seq<Busy>, t: nat, c: int)
    requires IsCandidate(t) && IsCandidate(c) && t <= c
    ensures c in ScanFrom(day, duration, busy, t) <==>
            (forall u :: t <= u <= c && IsCandidate(u) ==> !StopsAt(day, u, duration)) &&
            IsFree(day, c, duration, busy)
    decreases 1200 - t
  {
    assert HourOf(t) < WorkEndHour;
    if StopsAt(day, t, duration) {
      assert ScanFrom(day, duration, busy, t) == [];
    } else {
      var head: seq<int> := if IsFree(day, t, duration, busy) then [t] else [];
      var rest := ScanFrom(day, duration, busy, t + SlotStep);
      assert ScanFrom(day, duration, busy, t) == head + rest;
      if t == c {
        ScanFromShape(day, duration, busy, t + SlotStep);
        assert c !in rest;
      } else {
        CandidateGap(t, c);
        ScanFromMembership(day, duration, busy, t + SlotStep, c);
        forall u | t <= u <= c && IsCandidate(u) && u != t
          ensures t + SlotStep <= u
        {
          CandidateGap(t, u);
        }
      }
    }
  }

  /**
   * A candidate appears among the slots iff the scan reaches it and it
   * overlaps none of the busy intervals.
   */
  lemma SlotsMembership(day: int, duration: int, busy: seq<Busy>, c: int)
    requires IsCandidate(c)
    ensures c in OfferedSlots(day, duration, busy) <==> Reached(day, duration, c) && IsFree(day, c, duration, busy)
  {
    ScanFromMembership(day, duration, busy, 540, c);
  }

  /** The candidates from `t` on that end by 20:00, as minutes of the day. */
  function Range(t: nat, duration: int): (r: seq<int>)
    ensures forall i :: 0 <= i < |r| ==> r[i] == t + 30 * i && r[i] < 1200 && r[i] + duration <= 1200
    ensures t < 1200 && t + duration <= 1200 ==> |r| > 0
    ensures |r| > 0 ==> r[|r| - 1] + 30 >= 1200 || r[|r| - 1] + 30 + duration > 1200
    decreases 1200 - t
  {
    if t >= 1200 || t + duration > 1200 then []
    else
      var rest := Range(t + 30, duration);
      assert forall i :: 1 <= i < |rest| + 1 ==> ([t] + rest)[i] == rest[i - 1];
      [t] + rest
  }

  lemma {:induction false} EmptyScan(day: int, duration: int, t: nat)
    requires 0 <= t + duration < 1440 && t + duration <= 1230
    ensures ScanFrom(day, duration, [], t) == Range(t, duration)
    decreases 1200 - t
  {
    TimeOfDayShift(day, t + duration);
    if HourOf(t) < WorkEndHour && t + duration <= 1200 {
      EmptyScan(day, duration, t + SlotStep);
    }
  }

  /**
   * On a day without bookings, every candidate up to the last one ending by
   * 20:00 is offered, for every duration whose 09:00 job ends before midnight.
   */
  lemma EmptyDaySlots(day: int, duration: int)
    requires -540 <= duration < 900
    ensures OfferedSlots(day, duration, []) == Range(540, duration)
  {
    if duration <= 690 {
      EmptyScan(day, duration, 540);
    } else {
      TimeOfDayShift(day, 540 + duration);
    }
  }

  /** With no bookings and a 60-minute duration the slots are 09:00, 09:30, ..., 19:00 (21 of them). */
  lemma EmptyDaySixtyMinutes(day: int)
    ensures var s := OfferedSlots(day, 60, []);
            |s| == 21 && forall i :: 0 <= i < 21 ==> s[i] == 540 + 30 * i
  {
    EmptyDaySlots(day, 60);
  }

  /** A 90-minute duration ends its last slot at 18:30; 19:00 is not offered. */
  lemma NinetyMinutesLastSlot(day: int)
    ensures var s := OfferedSlots(day, 90, []);
            |s| == 20 && s[19] == 1110 && 1140 !in s
  {
    EmptyDaySlots(day, 90);
  }

  /** An order [10:00, 10:30) does not block the 10:30 slot of a 30-minute job, and blocks 10:00. */
  lemma TouchingOrderDoesNotBlock(day: int, o: Order)
    requires o.start == DayStart(day) + 600 && o.end == DayStart(day) + 630
    ensures 630 in OfferedSlots(day, 30, BusyOn([o], day))
    ensures 600 !in OfferedSlots(day, 30, BusyOn([o], day))
  {
    var busy := BusyOn([o], day);
    assert busy == [Busy(o.start, o.end)];
    assert Reached(day, 30, 630) by {
      forall u | 540 <= u <= 630 && IsCandidate(u)
        ensures !StopsAt(day, u, 30)
      {
        TimeOfDayShift(day, u + 30);
      }
    }
    SlotsMembership(day, 30, busy, 630);
    SlotsMembership(day, 30, busy, 600);
  }

  /**
   * An order that starts the day before is not a busy interval, even when
   * it runs into the day: 23:00 to 11:00 does not block the 09:00 slot.
   */
  lemma PreviousDayOrderIgnored(day: int, o: Order)
    requires o.start == DayStart(day) - 60 && o.end == DayStart(day) + 660
    ensures Overlaps(DayStart(day) + 540, DayStart(day) + 600, o.start, o.end)
    ensures 540 in OfferedSlots(day, 60, BusyOn([o], day))
  {
  }

  // ---- The end-of-day test as evidently intended ----

  /** The candidate at `t` ends after 20:00 of its own day, measured on the absolute clock. */
  predicate EndsAfterClosingCorrected(t: int, duration: int) {
    t + duration > 1200
  }

  function ScanFromCorrected(day: int, duration: int, busy: seq<Busy>, t: nat): seq<int>
    decreases 1200 - t
  {
    if HourOf(t) >= WorkEndHour then []
    else if EndsAfterClosingCorrected(t, duration) then []
    else (if IsFree(day, t, duration, busy) then [t] else []) + ScanFromCorrected(day, duration, busy, t + SlotStep)
  }

  /** The slots with the end-of-day test done on the absolute end time. */
  function SlotsCorrected(day: int, duration: int, busy: seq<Busy>): seq<int> {
    ScanFromCorrected(day, duration, busy, 540)
  }

  /** Every element of `s` starts at or after `t`, before 20:00, and ends by 20:00. */
  predicate WithinHoursFrom(t: int, duration: int, s: seq<int>) {
    forall i :: 0 <= i < |s| ==> t <= s[i] < 1200 && s[i] + duration <= 1200
  }

  lemma {:induction false} ScanFromCorrectedWithinHours(day: int, duration: int, busy: seq<Busy>, t: nat)
    ensures WithinHoursFrom(t, duration, ScanFromCorrected(day, duration, busy, t))
    decreases 1200 - t
  {
    if HourOf(t) < WorkEndHour && !EndsAfterClosingCorrected(t, duration) {
      var rest := ScanFromCorrected(day, duration, busy, t + SlotStep);
      ScanFromCorrectedWithinHours(day, duration, busy, t + SlotStep);
      var head: seq<int> := if IsFree(day, t, duration, busy) then [t] else [];
      assert ScanFromCorrected(day, duration, busy, t) == head + rest;
      assert WithinHoursFrom(t, duration, head);
    }
  }

  /** Every corrected slot starts before 20:00 and ends by 20:00 of the requested day. */
  lemma SlotsCorrectedWithinHours(day: int, duration: int, busy: seq<Busy>)
    ensures var s := SlotsCorrected(day, duration, busy);
            forall i :: 0 <= i < |s| ==> 540 <= s[i] < 1200 && s[i] + duration <= 1200
  {
    ScanFromCorrectedWithinHours(day, duration, busy, 540);
  }

  lemma {:induction false} ScanFromAgree(day: int, duration: int, busy: seq<Busy>, t: nat)
    requires 0 <= t + duration < 1440 && t + duration <= 1230
    ensures ScanFrom(day, duration, busy, t) == ScanFromCorrected(day, duration, busy, t)
    decreases 1200 - t
  {
    TimeOfDayShift(day, t + duration);
    if HourOf(t) < WorkEndHour && !EndsAfterClosingCorrected(t, duration) {
      ScanFromAgree(day, duration, busy, t + SlotStep);
    }
  }

  /**
   * The code and the corrected test agree whenever a job starting at 09:00
   * ends before the next midnight.
   */
  lemma SlotsAgreeWithoutWrap(day: int, duration: int, busy: seq<Busy>)
    requires -540 <= duration < 900
    ensures OfferedSlots(day, duration, busy) == SlotsCorrected(day, duration, busy)
  {
    if 540 + duration <= 1230 {
      ScanFromAgree(day, duration, busy, 540);
    } else {
      TimeOfDayShift(day, 540 + duration);
    }
  }

  /**
   * As written, a 900-minute job is offered at 09:00 on an empty day: it
   * ends at 00:00 of the next day, whose time of day is not past 20:00.
   */
  lemma WrappedEndIsOffered(day: int)
    ensures 540 in OfferedSlots(day, 900, [])
    ensures 540 + 900 > 1200
    ensures SlotsCorrected(day, 900, []) == []
  {
  }
}
