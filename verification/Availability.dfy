/** The per-slot availability report, which computes occupancy from the day's list of bookings, and
    its agreement with the sum over the whole table that admission uses. */
module Availability {
  import opened BookingDomain
  import opened BookingRules
  import opened BookingSafety
  import opened BookingAnswers

  datatype SlotCapacity = SlotCapacity(
    start: int, end: int, capacity: int, active: int, remaining: int, available: bool)

  datatype Report = Report(slots: seq<SlotCapacity>, peak: int, minRemaining: int)

  const OPEN := 8 * HOUR
  const CLOSE := 22 * HOUR
  const SLOT := 60 * MINUTE

  // ---- the day's list ----

  predicate OnDay(b: Booking, r: ResourceId, dayStart: int) {
    b.resource == r && !b.status.Canceled? && b.Overlaps(dayStart, dayStart + DAY)
  }

  function DayRows(bs: seq<Booking>, r: ResourceId, dayStart: int): seq<Booking> {
    if bs == [] then []
    else DayRows(bs[..|bs| - 1], r, dayStart) + if OnDay(bs[|bs| - 1], r, dayStart) then [bs[|bs| - 1]] else []
  }

  /** An answer to the day query: its rows ordered by start, ties in any order. */
  ghost predicate IsDayList(bs: seq<Booking>, r: ResourceId, dayStart: int, booked: seq<Booking>) {
    && multiset(booked) == multiset(DayRows(bs, r, dayStart))
    && forall i, k :: 0 <= i < k < |booked| ==> booked[i].start <= booked[k].start
  }

  /** What the slot loop adds up: every listed booking that is active, not waitlisted, and meets the slot. */
  function InSlot(s: int, e: int): Booking -> int {
    (b: Booking) => if b.status.IsActive() && !b.status.Waitlisted? && b.start < e && b.end > s then b.party else 0
  }

  /** Where the last row of `a` stands in a permutation of it. */
  lemma Counterpart(a: seq<Booking>, b: seq<Booking>) returns (k: nat)
    requires multiset(a) == multiset(b) && a != []
    ensures k < |b| && b[k] == a[|a| - 1]
    ensures multiset(a[..|a| - 1]) == multiset(b[..k] + b[k + 1..])
  {
    var n := |a| - 1;
    assert a == a[..n] + [a[n]];
    assert a[n] in multiset(b);
    k :| 0 <= k < |b| && b[k] == a[n];
    assert b == b[..k] + [b[k]] + b[k + 1..];
    assert multiset(a) == multiset(a[..n]) + multiset{a[n]};
    assert multiset(b) == multiset(b[..k] + b[k + 1..]) + multiset{b[k]};
    assert multiset(a[..n]) == multiset(a) - multiset{a[n]};
    assert multiset(b[..k] + b[k + 1..]) == multiset(b) - multiset{b[k]};
  }

  lemma {:induction false} TotalOfPermutation(a: seq<Booking>, b: seq<Booking>, weight: Booking -> int)
    requires multiset(a) == multiset(b)
    ensures Total(a, weight) == Total(b, weight)
  {
    if a == [] {
      assert |multiset(b)| == 0;
    } else {
      var k := Counterpart(a, b);
      TotalOfPermutation(a[..|a| - 1], b[..k] + b[k + 1..], weight);
      TotalWithout(b, k, weight);
    }
  }

  lemma {:induction false} TotalWithout(b: seq<Booking>, k: nat, weight: Booking -> int)
    requires k < |b|
    ensures Total(b, weight) == Total(b[..k] + b[k + 1..], weight) + weight(b[k])
  {
    var n := |b| - 1;
    if k == n {
      assert b[..k] + b[k + 1..] == b[..n];
    } else {
      TotalWithout(b[..n], k, weight);
      assert (b[..k] + b[k + 1..])[..n - 1] == b[..n][..k] + b[..n][k + 1..];
    }
  }

  lemma {:induction false} DayRowsTotal(bs: seq<Booking>, r: ResourceId, dayStart: int, s: int, e: int)
    requires dayStart <= s && e <= dayStart + DAY
    ensures Total(DayRows(bs, r, dayStart), InSlot(s, e)) == Total(bs, InWindow(r, s, e))
  {
    if bs != [] {
      var init, b := bs[..|bs| - 1], bs[|bs| - 1];
      DayRowsTotal(init, r, dayStart, s, e);
      if OnDay(b, r, dayStart) {
        TotalAppend(DayRows(init, r, dayStart), b, InSlot(s, e));
      } else {
        assert DayRows(bs, r, dayStart) == DayRows(init, r, dayStart);
      }
    }
  }

  /** A slot's occupancy from the day's list is the sum over the whole table. */
  lemma SlotAgreesWithTable(bs: seq<Booking>, r: ResourceId, dayStart: int, booked: seq<Booking>, s: int, e: int)
    requires IsDayList(bs, r, dayStart, booked) && dayStart <= s && e <= dayStart + DAY
    ensures Total(booked, InSlot(s, e)) == Total(bs, InWindow(r, s, e))
  {
    TotalOfPermutation(booked, DayRows(bs, r, dayStart), InSlot(s, e));
    DayRowsTotal(bs, r, dayStart, s, e);
  }

  // ---- the slot table ----

  ghost predicate SlotRow(sl: SlotCapacity, capacity: int, booked: seq<Booking>) {
    && sl.capacity == capacity && sl.active == Total(booked, InSlot(sl.start, sl.end))
    && sl.remaining == (if capacity - sl.active < 0 then 0 else capacity - sl.active)
    && (sl.available <==> sl.remaining > 0)
  }

  /** Slots of the given width from `open` on, each starting where the one before ends, the last
      one cut at `upTo` when that is nearer. */
  ghost predicate Tiles(slots: seq<SlotCapacity>, open: int, upTo: int, width: int) {
    && (forall i :: 0 <= i < |slots| ==> slots[i].start < slots[i].end <= upTo)
    && (forall i :: 0 <= i < |slots| - 1 ==> slots[i].end == slots[i].start + width)
    && (forall i :: 0 < i < |slots| ==> slots[i].start == slots[i - 1].end)
    && (|slots| > 0 ==> slots[0].start == open && slots[|slots| - 1].end - slots[|slots| - 1].start <= width)
  }

  /** The inner loop: the parties of the bookings that meet the slot. */
  method ActiveParty(cur: int, end: int, booked: seq<Booking>) returns (active: int)
    ensures active == Total(booked, InSlot(cur, end))
  {
    active := 0;
    assert booked[..0] == [];
    for k := 0 to |booked|
      invariant active == Total(booked[..k], InSlot(cur, end))
    {
      var b := booked[k];
      assert booked[..k + 1][..k] == booked[..k];
      if !b.status.IsActive() {
        continue;
      }
      if b.status.Waitlisted? {
        continue;
      }
      if !(b.start < end) || !(b.end > cur) {
        continue;
      }
      active := active + b.party;
    }
    assert booked[..|booked|] == booked;
  }

  /** The slots so far, ending at `cur` or cut at `upTo`. */
  ghost predicate TilesUpTo(slots: seq<SlotCapacity>, open: int, upTo: int, width: int, cur: int) {
    && Tiles(slots, open, upTo, width)
    && (|slots| == 0 ==> cur == open)
    && (|slots| > 0 ==> slots[|slots| - 1].end == (if cur < upTo then cur else upTo)
                        && cur == slots[|slots| - 1].start + width)
  }

  lemma NextSlot(slots: seq<SlotCapacity>, open: int, upTo: int, width: int, cur: int, sl: SlotCapacity)
    requires TilesUpTo(slots, open, upTo, width, cur) && width > 0 && cur < upTo
    requires sl.start == cur && sl.end == if cur + width > upTo then upTo else cur + width
    ensures TilesUpTo(slots + [sl], open, upTo, width, cur + width)
  {
  }

  method ComputeSlotCapacities(open: int, close: int, width: int, capacity: int, booked: seq<Booking>)
    returns (out: seq<SlotCapacity>)
    ensures close <= open || width <= 0 || capacity < 0 ==> out == []
    ensures close > open && width > 0 && capacity >= 0 ==>
              && Tiles(out, open, close, width) && |out| > 0 && out[|out| - 1].end == close
              && (|out| - 1) * width < close - open <= |out| * width
              && forall i :: 0 <= i < |out| ==> SlotRow(out[i], capacity, booked)
  {
    out := [];
    if close <= open || width <= 0 || capacity < 0 {
      return;
    }
    var cur := open;
    while cur < close
      invariant TilesUpTo(out, open, close, width, cur)
      invariant forall i :: 0 <= i < |out| ==> SlotRow(out[i], capacity, booked)
      decreases close - cur
    {
      var end := cur + width;
      if end > close {
        end := close;
      }
      var active := ActiveParty(cur, end, booked);
      var remaining := capacity - active;
      if remaining < 0 {
        remaining := 0;
      }
      var sl := SlotCapacity(cur, end, capacity, active, remaining, remaining > 0);
      NextSlot(out, open, close, width, cur, sl);
      out := out + [sl];
      cur := cur + width;
    }
    SlotNumber(out, open, close, width);
  }

  /** Slot i starts i widths after opening. */
  lemma {:induction false} SlotNumber(slots: seq<SlotCapacity>, open: int, upTo: int, width: int)
    requires Tiles(slots, open, upTo, width) && |slots| > 0
    ensures slots[|slots| - 1].start == open + (|slots| - 1) * width
    ensures |slots| * width == (|slots| - 1) * width + width
  {
    var n := |slots| - 1;
    if n > 0 {
      assert slots[n - 1].end == slots[n - 1].start + width;
      SlotNumber(slots[..n], open, upTo, width);
    }
  }

  /** Every instant of the opening hours falls in exactly one slot. */
  lemma {:induction false} EachInstantHasOneSlot(slots: seq<SlotCapacity>, open: int, upTo: int, width: int, t: int) returns (i: nat)
    requires Tiles(slots, open, upTo, width) && |slots| > 0 && open <= t < slots[|slots| - 1].end
    ensures i < |slots| && slots[i].start <= t < slots[i].end
    ensures forall k :: 0 <= k < |slots| && slots[k].start <= t < slots[k].end ==> k == i
  {
    var n := |slots| - 1;
    SlotsAreOrdered(slots, open, upTo, width);
    if slots[n].start <= t {
      i := n;
    } else {
      i := EachInstantHasOneSlot(slots[..n], open, upTo, width, t);
    }
  }

  lemma {:induction false} SlotsAreOrdered(slots: seq<SlotCapacity>, open: int, upTo: int, width: int)
    requires Tiles(slots, open, upTo, width)
    ensures forall i, k :: 0 <= i < k < |slots| ==> slots[i].end <= slots[k].start
  {
    if |slots| > 1 {
      SlotsAreOrdered(slots[..|slots| - 1], open, upTo, width);
    }
  }

  // ---- the report and admission ----

  /** The report of one day. Its smallest remainder is what the busiest slot leaves, and every slot's
      occupancy is the table's. */
  method DayReport(db: Db, r: ResourceId, dayStart: int, booked: seq<Booking>) returns (a: Report)
    requires Inv(db) && r in db.capacity && IsDayList(db.bookings, r, dayStart, booked)
    ensures Tiles(a.slots, dayStart + OPEN, dayStart + CLOSE, SLOT) && |a.slots| == 14
    ensures forall i :: 0 <= i < |a.slots| ==> HourSlot(a.slots[i], db, r, dayStart + (8 + i) * 3_600_000_000_000)
    ensures forall i :: 0 <= i < |a.slots| ==> a.slots[i].active <= a.peak
    ensures exists i :: 0 <= i < |a.slots| && a.slots[i].active == a.peak
    ensures a.minRemaining == if db.capacity[r] - a.peak < 0 then 0 else db.capacity[r] - a.peak
  {
    var capacity := db.capacity[r];
    var slots := ComputeSlotCapacities(dayStart + OPEN, dayStart + CLOSE, SLOT, capacity, booked);
    forall i | 0 <= i < |slots| ensures HourSlot(slots[i], db, r, dayStart + (8 + i) * 3_600_000_000_000) {
      SlotIsHour(db, r, dayStart, booked, slots, i);
    }
    var peak, minRemaining := Fold(slots, capacity);
    a := Report(slots, peak, minRemaining);
  }

  /** The hour from `start` on, with the seats that the table has taken and left. */
  ghost predicate HourSlot(sl: SlotCapacity, db: Db, r: ResourceId, start: int)
    requires r in db.capacity
  {
    && sl.start == start && sl.end == start + 3_600_000_000_000 && sl.capacity == db.capacity[r]
    && 0 <= sl.active == SeatsTaken(db.bookings, r, sl.start, sl.end)
    && sl.remaining == RemainingSeats(db, r, sl.start, sl.end)
    && sl.remaining == (if db.capacity[r] - sl.active < 0 then 0 else db.capacity[r] - sl.active)
    && (sl.available <==> sl.active < db.capacity[r])
  }

  lemma SlotIsHour(db: Db, r: ResourceId, dayStart: int, booked: seq<Booking>, slots: seq<SlotCapacity>, i: nat)
    requires Inv(db) && r in db.capacity && IsDayList(db.bookings, r, dayStart, booked) && i < |slots|
    requires Tiles(slots, dayStart + OPEN, dayStart + CLOSE, SLOT) && slots[|slots| - 1].end == dayStart + CLOSE && |slots| == 14
    requires SlotRow(slots[i], db.capacity[r], booked)
    ensures HourSlot(slots[i], db, r, dayStart + (8 + i) * 3_600_000_000_000)
  {
    var s, e := slots[i].start, slots[i].end;
    SlotStart(slots, dayStart + OPEN, dayStart + CLOSE, SLOT, i);
    SlotStartsInDay(slots, dayStart + OPEN, dayStart + CLOSE, SLOT, i);
    SlotStart(slots, dayStart + OPEN, dayStart + CLOSE, SLOT, 13);
    SlotAgreesWithTable(db.bookings, r, dayStart, booked, s, e);
    WindowSumNonNegative(db, r, s, e);
    WindowSumIsSeatsTaken(db.bookings, r, s, e);
  }

  /** The busiest slot, and the fewest seats that any leaves. */
  method Fold(slots: seq<SlotCapacity>, capacity: int) returns (peak: int, minRemaining: int)
    requires forall i :: 0 <= i < |slots| ==>
               && slots[i].active >= 0 && capacity >= 0
               && slots[i].remaining == if capacity - slots[i].active < 0 then 0 else capacity - slots[i].active
    ensures forall i :: 0 <= i < |slots| ==> slots[i].active <= peak
    ensures |slots| > 0 ==> exists i :: 0 <= i < |slots| && slots[i].active == peak
    ensures |slots| > 0 ==> minRemaining == if capacity - peak < 0 then 0 else capacity - peak
    ensures |slots| == 0 ==> peak == 0 && minRemaining == capacity
  {
    peak, minRemaining := 0, capacity;
    for i := 0 to |slots|
      invariant 0 <= peak && (forall k :: 0 <= k < i ==> slots[k].active <= peak)
      invariant i > 0 ==> exists k :: 0 <= k < i && slots[k].active == peak
      invariant i == 0 ==> peak == 0
      invariant i == 0 ==> minRemaining == capacity
      invariant i > 0 ==> minRemaining == if capacity - peak < 0 then 0 else capacity - peak
    {
      if slots[i].active > peak {
        peak := slots[i].active;
      }
      if slots[i].remaining < minRemaining {
        minRemaining := slots[i].remaining;
      }
    }
  }

  lemma {:induction false} SlotStart(slots: seq<SlotCapacity>, open: int, upTo: int, width: int, i: nat)
    requires Tiles(slots, open, upTo, width) && i < |slots|
    ensures slots[i].start == open + i * width
  {
    if i > 0 {
      SlotStart(slots, open, upTo, width, i - 1);
      assert slots[i - 1].end == slots[i - 1].start + width;
    }
  }

  lemma SlotStartsInDay(slots: seq<SlotCapacity>, open: int, upTo: int, width: int, i: nat)
    requires Tiles(slots, open, upTo, width) && i < |slots|
    ensures open <= slots[i].start && slots[i].end <= upTo
  {
    SlotsAreOrdered(slots, open, upTo, width);
  }

  lemma WindowSumNonNegative(db: Db, r: ResourceId, s: int, e: int)
    requires Inv(db)
    ensures Total(db.bookings, InWindow(r, s, e)) >= 0
  {
    var zero := (b: Booking) => 0;
    forall b | b in db.bookings ensures zero(b) <= InWindow(r, s, e)(b) {
      assert RowInv(db, b);
    }
    TotalMonotone(db.bookings, zero, InWindow(r, s, e));
    TotalOfNone(db.bookings, zero);
  }

  function RemainingSeats(db: Db, r: ResourceId, s: int, e: int): int
    requires r in db.capacity
  {
    var left := SeatsLeft(db, r, s, e);
    if left < 0 then 0 else left
  }

  /** A request for a slot's window that passes the gates is confirmed exactly when its party fits
      the seats the day's table quotes for that slot, and waitlisted otherwise. */
  lemma QuoteDecidesAdmission(db: Db, dayStart: int, booked: seq<Booking>, sl: SlotCapacity,
                              id: BookingId, input: CreateInput, now: int)
    requires IsDayList(db.bookings, input.resource, dayStart, booked)
    requires Admit(db, id, input, now).Ok? && SlotRow(sl, db.capacity[input.resource], booked)
    requires dayStart <= sl.start == input.start && sl.end == input.end <= dayStart + DAY
    ensures var b := Admit(db, id, input, now).value;
            && (b.status.Pending? <==> Party(input) <= sl.remaining)
            && (b.status.Waitlisted? <==> Party(input) > sl.remaining)
            && sl.remaining == RemainingSeats(db, input.resource, input.start, input.end)
            && sl.active == SeatsTaken(db.bookings, input.resource, input.start, input.end)
  {
    WindowSumIsSeatsTaken(db.bookings, input.resource, input.start, input.end);
    SlotAgreesWithTable(db.bookings, input.resource, dayStart, booked, sl.start, sl.end);
  }
}
