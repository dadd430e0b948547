/** Bookings, their state machine, and the queries that admission and availability rest on. Times
    are nanoseconds since the epoch, in UTC. */
module BookingDomain {
  type UserId = nat
  type ResourceId = nat
  type BookingId = nat

  const SECOND := 1_000_000_000
  const MINUTE := 60 * SECOND
  const HOUR := 60 * MINUTE
  const DAY := 24 * HOUR
  const MIN_LEAD_TIME := 2 * HOUR
  const CHANGE_CUTOFF := 10 * MINUTE
  const MAX_ACTIVE_PER_DAY := 3

  datatype Status = Pending | Waitlisted | CheckedIn | Completed | Canceled {
    predicate IsActive() { Pending? || Waitlisted? || CheckedIn? }

    predicate IsTerminal() { Completed? || Canceled? }

    /** The statuses that take seats. */
    predicate Occupies() { Pending? || CheckedIn? }
  }

  predicate CanTransition(from: Status, to: Status) {
    match from
    case Pending => to.Waitlisted? || to.CheckedIn? || to.Canceled?
    case Waitlisted => to.Pending? || to.Canceled?
    case CheckedIn => to.Completed? || to.Canceled?
    case Completed => false
    case Canceled => false
  }

  datatype Booking = Booking(
    id: BookingId, user: UserId, resource: ResourceId, party: int, start: int, end: int, status: Status)
  {
    predicate Overlaps(s: int, e: int) { start < e && end > s }

    predicate Covers(t: int) { start <= t < end }
  }

  function DayOf(t: int): int { t / DAY }

  // ---- sums over the table ----

  function Total(bs: seq<Booking>, weight: Booking -> int): int {
    if bs == [] then 0 else Total(bs[..|bs| - 1], weight) + weight(bs[|bs| - 1])
  }

  /** SumActivePartySizesInWindow counts these. */
  function InWindow(r: ResourceId, s: int, e: int): Booking -> int {
    (b: Booking) => if b.resource == r && b.status.Occupies() && b.Overlaps(s, e) then b.party else 0
  }

  /** The seats taken at one instant. */
  function AtInstant(r: ResourceId, t: int): Booking -> int {
    (b: Booking) => if b.resource == r && b.status.Occupies() && b.Covers(t) then b.party else 0
  }

  /** CountActiveByUserOnDate counts these. */
  function ActiveOn(u: UserId, day: int): Booking -> int {
    (b: Booking) => if b.user == u && b.status.IsActive() && DayOf(b.start) == day then 1 else 0
  }

  lemma TotalAppend(bs: seq<Booking>, b: Booking, weight: Booking -> int)
    ensures Total(bs + [b], weight) == Total(bs, weight) + weight(b)
  {
    assert (bs + [b])[..|bs + [b]| - 1] == bs;
  }

  lemma {:induction false} TotalUpdate(bs: seq<Booking>, i: nat, b: Booking, weight: Booking -> int)
    requires i < |bs|
    ensures Total(bs[i := b], weight) == Total(bs, weight) - weight(bs[i]) + weight(b)
  {
    var n := |bs| - 1;
    if i < n {
      assert bs[i := b][..n] == bs[..n][i := b];
      TotalUpdate(bs[..n], i, b, weight);
    } else {
      assert bs[i := b][..n] == bs[..n];
    }
  }

  lemma {:induction false} TotalMonotone(bs: seq<Booking>, lo: Booking -> int, hi: Booking -> int)
    requires forall b :: b in bs ==> lo(b) <= hi(b)
    ensures Total(bs, lo) <= Total(bs, hi)
  {
    if bs != [] {
      assert bs[|bs| - 1] in bs;
      TotalMonotone(bs[..|bs| - 1], lo, hi);
    }
  }

  /** A sum to which only one row adds anything. */
  lemma {:induction false} TotalOfOne(bs: seq<Booking>, i: nat, weight: Booking -> int)
    requires i < |bs| && forall k :: 0 <= k < |bs| && k != i ==> weight(bs[k]) == 0
    ensures Total(bs, weight) == weight(bs[i])
  {
    var n := |bs| - 1;
    if i < n {
      TotalOfOne(bs[..n], i, weight);
    } else {
      TotalOfNone(bs[..n], weight);
    }
  }

  lemma {:induction false} TotalOfNone(bs: seq<Booking>, weight: Booking -> int)
    requires forall k :: 0 <= k < |bs| ==> weight(bs[k]) == 0
    ensures Total(bs, weight) == 0
  {
    if bs != [] {
      TotalOfNone(bs[..|bs| - 1], weight);
    }
  }

  // ---- deletion with the user ----

  function WithoutUser(bs: seq<Booking>, u: UserId): seq<Booking> {
    if bs == [] then []
    else WithoutUser(bs[..|bs| - 1], u) + if bs[|bs| - 1].user == u then [] else [bs[|bs| - 1]]
  }

  lemma {:induction false} WithoutUserTotal(bs: seq<Booking>, u: UserId, weight: Booking -> int)
    requires forall b :: b in bs ==> weight(b) >= 0
    ensures Total(WithoutUser(bs, u), weight) <= Total(bs, weight)
  {
    if bs != [] {
      var init, b := bs[..|bs| - 1], bs[|bs| - 1];
      assert b in bs;
      WithoutUserTotal(init, u, weight);
      if b.user != u {
        TotalAppend(WithoutUser(init, u), b, weight);
      } else {
        assert WithoutUser(bs, u) == WithoutUser(init, u);
      }
    }
  }

  lemma {:induction false} WithoutUserRows(bs: seq<Booking>, u: UserId)
    ensures forall b :: b in WithoutUser(bs, u) <==> b in bs && b.user != u
  {
    if bs != [] {
      WithoutUserRows(bs[..|bs| - 1], u);
      assert bs == bs[..|bs| - 1] + [bs[|bs| - 1]];
    }
  }
}
