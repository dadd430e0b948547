/** What the booking service answers, over the columns of its tables. */
module BookingAnswers {
  import opened Wrappers
  import opened BookingDomain
  import opened BookingRules
  import opened BookingSafety

  // ---- seats, counted row by row ----

  ghost predicate TakesSeats(b: Booking, r: ResourceId, s: int, e: int) {
    b.resource == r && (b.status == Pending || b.status == CheckedIn) && b.start < e && s < b.end
  }

  /** The parties of the pending and checked-in bookings of a resource that meet a window. */
  ghost function SeatsTaken(bs: seq<Booking>, r: ResourceId, s: int, e: int): int {
    if bs == [] then 0
    else (if TakesSeats(bs[0], r, s, e) then bs[0].party else 0) + SeatsTaken(bs[1..], r, s, e)
  }

  lemma {:induction false} TotalFromFront(bs: seq<Booking>, weight: Booking -> int)
    requires bs != []
    ensures Total(bs, weight) == weight(bs[0]) + Total(bs[1..], weight)
  {
    if |bs| > 1 {
      TotalFromFront(bs[..|bs| - 1], weight);
      assert bs[..|bs| - 1][1..] == bs[1..][..|bs| - 2];
    } else {
      assert bs[1..] == [] && bs[..0] == [];
      assert Total(bs[..0], weight) == 0;
    }
  }

  lemma {:induction false} WindowSumIsSeatsTaken(bs: seq<Booking>, r: ResourceId, s: int, e: int)
    ensures Total(bs, InWindow(r, s, e)) == SeatsTaken(bs, r, s, e)
  {
    if bs != [] {
      TotalFromFront(bs, InWindow(r, s, e));
      WindowSumIsSeatsTaken(bs[1..], r, s, e);
    }
  }

  lemma {:induction false} InstantSumIsSeatsTaken(bs: seq<Booking>, r: ResourceId, t: int)
    ensures Total(bs, AtInstant(r, t)) == SeatsTaken(bs, r, t, t + 1)
  {
    if bs != [] {
      TotalFromFront(bs, AtInstant(r, t));
      InstantSumIsSeatsTaken(bs[1..], r, t);
    }
  }

  /** In every serial run, at every instant, the seats taken on a resource are at most its capacity. */
  lemma {:induction false} NeverOverbooked(es: seq<Event>, r: ResourceId, t: int)
    requires r in Run(Init(), es).capacity
    ensures SeatsTaken(Run(Init(), es).bookings, r, t, t + 1) <= Run(Init(), es).capacity[r]
  {
    SeatSafety(es, r, t);
    InstantSumIsSeatsTaken(Run(Init(), es).bookings, r, t);
  }

  // ---- active bookings of a day, counted one by one ----

  /** An active booking of the user that starts on the UTC day of `start`. */
  ghost predicate ActiveThatDay(b: Booking, u: UserId, start: int) {
    && b.user == u && (b.status == Pending || b.status == Waitlisted || b.status == CheckedIn)
    && b.start / 86_400_000_000_000 == start / 86_400_000_000_000
  }

  /** `picked` are places of such bookings, in order. */
  ghost predicate Picks(bs: seq<Booking>, u: UserId, start: int, picked: seq<int>) {
    && (forall i :: 0 <= i < |picked| ==> 0 <= picked[i] < |bs| && ActiveThatDay(bs[picked[i]], u, start))
    && (forall i, k :: 0 <= i < k < |picked| ==> picked[i] < picked[k])
  }

  lemma {:induction false} PickFrom(bs: seq<Booking>, u: UserId, start: int, n: nat) returns (picked: seq<int>)
    requires n <= Total(bs, ActiveOn(u, DayOf(start)))
    ensures |picked| == n && Picks(bs, u, start, picked)
  {
    if n == 0 {
      picked := [];
    } else {
      var last := |bs| - 1;
      if ActiveThatDay(bs[last], u, start) {
        picked := PickFrom(bs[..last], u, start, n - 1);
        picked := picked + [last];
      } else {
        picked := PickFrom(bs[..last], u, start, n);
      }
    }
  }

  lemma {:induction false} CountIsNatural(bs: seq<Booking>, u: UserId, day: int)
    ensures Total(bs, ActiveOn(u, day)) >= 0
  {
    if bs != [] {
      CountIsNatural(bs[..|bs| - 1], u, day);
    }
  }

  lemma {:induction false} PicksAreCounted(bs: seq<Booking>, u: UserId, start: int, picked: seq<int>)
    requires Picks(bs, u, start, picked)
    ensures |picked| <= Total(bs, ActiveOn(u, DayOf(start)))
  {
    if picked == [] {
      CountIsNatural(bs, u, DayOf(start));
    } else {
      var last := |bs| - 1;
      if picked[|picked| - 1] == last {
        PicksAreCounted(bs[..last], u, start, picked[..|picked| - 1]);
      } else {
        forall i | 0 <= i < |picked| ensures picked[i] < last {
          assert picked[i] <= picked[|picked| - 1];
        }
        PicksAreCounted(bs[..last], u, start, picked);
      }
    }
  }

  ghost predicate ThreeThatDay(bs: seq<Booking>, u: UserId, start: int) {
    exists picked :: |picked| == 3 && Picks(bs, u, start, picked)
  }

  lemma CountIsThree(bs: seq<Booking>, u: UserId, start: int)
    ensures Total(bs, ActiveOn(u, DayOf(start))) >= 3 <==> ThreeThatDay(bs, u, start)
  {
    if Total(bs, ActiveOn(u, DayOf(start))) >= 3 {
      var picked := PickFrom(bs, u, start, 3);
    }
    if ThreeThatDay(bs, u, start) {
      var picked :| |picked| == 3 && Picks(bs, u, start, picked);
      PicksAreCounted(bs, u, start, picked);
    }
  }

  /** In every serial run no four active bookings of one user start on one day. */
  lemma {:induction false} NeverFourThatDay(es: seq<Event>, u: UserId, start: int, picked: seq<int>)
    requires Picks(Run(Init(), es).bookings, u, start, picked)
    ensures |picked| <= 3
  {
    UserLimits(es);
    PicksAreCounted(Run(Init(), es).bookings, u, start, picked);
  }

  // ---- creation ----

  ghost predicate OwnOverlap(bs: seq<Booking>, u: UserId, s: int, e: int) {
    exists b :: b in bs && b.user == u && b.status != Canceled && b.start < e && s < b.end
  }

  /** What a request is answered: the first gate that it fails, or a booking as asked for. */
  ghost predicate CreateAnswers(db: Db, id: BookingId, input: CreateInput, now: int, r: Result<Booking, Error>) {
    var party := if input.party <= 0 then 1 else input.party;
    var known := input.user in db.users;
    var welcome := known && !db.users[input.user];
    var placed := welcome && input.resource in db.capacity;
    var timed := placed && input.start < input.end;
    var sized := timed && party <= db.capacity[input.resource];
    var early := sized && now + 7_200_000_000_000 <= input.start;
    var few := early && !ThreeThatDay(db.bookings, input.user, input.start);
    var apart := few && !OwnOverlap(db.bookings, input.user, input.start, input.end);
    var unused := forall b :: b in db.bookings ==> b.id != id;
    && (r == Err(NotFound) <==> !known || (welcome && !placed))
    && (r == Err(Blacklisted) <==> known && !welcome)
    && (r == Err(InvalidInput) <==> placed && input.end <= input.start)
    && (r == Err(CapacityExceeded) <==> timed && party > db.capacity[input.resource])
    && (r == Err(LeadTime) <==> sized && input.start < now + 7_200_000_000_000)
    && (r == Err(DailyLimit) <==> early && ThreeThatDay(db.bookings, input.user, input.start))
    && (r == Err(Overlap) <==> few && OwnOverlap(db.bookings, input.user, input.start, input.end))
    && (r == Err(NotesNotSealed) <==> apart && !input.sealed)
    && (r == Err(DuplicateId) <==> apart && input.sealed && !unused)
    && (r.Ok? <==> apart && input.sealed && unused)
    && (r.Ok? ==>
          var left := db.capacity[input.resource] - SeatsTaken(db.bookings, input.resource, input.start, input.end);
          r.value == Booking(id, input.user, input.resource, party, input.start, input.end,
                             if party <= left then Pending else Waitlisted))
  }

  lemma OverlapIsOwn(bs: seq<Booking>, u: UserId, s: int, e: int)
    ensures UserOverlap(bs, u, s, e) <==> OwnOverlap(bs, u, s, e)
  {
  }

  lemma {:induction false} AdmitAnswers(db: Db, id: BookingId, input: CreateInput, now: int)
    ensures CreateAnswers(db, id, input, now, Admit(db, id, input, now))
  {
    CountIsThree(db.bookings, input.user, input.start);
    OverlapIsOwn(db.bookings, input.user, input.start, input.end);
    WindowSumIsSeatsTaken(db.bookings, input.resource, input.start, input.end);
  }

  /** A booking that a step adds belongs to a user who was known and not blacklisted at that step,
      and starts at least two hours later. */
  lemma {:induction false} NewBookingsPassedTheGates(es: seq<Event>, e: Event, b: Booking)
    requires b in Run(Init(), es + [e]).bookings && forall o :: o in Run(Init(), es).bookings ==> o.id != b.id
    ensures var db := Run(Init(), es);
            && b.user in db.users && !db.users[b.user]
            && b.resource in db.capacity && 1 <= b.party <= db.capacity[b.resource] && b.start < b.end
            && e.Create? && e.id == b.id && e.now + 7_200_000_000_000 <= b.start
            && !ThreeThatDay(db.bookings, b.user, b.start) && !OwnOverlap(db.bookings, b.user, b.start, b.end)
  {
    var db := Run(Init(), es);
    assert (es + [e])[..|es + [e]| - 1] == es;
    NewRowIsCreated(db, e, b);
    AdmitAnswers(db, e.id, e.input, e.now);
  }

  lemma NewRowIsCreated(db: Db, e: Event, b: Booking)
    requires b in Step(db, e).bookings && forall o :: o in db.bookings ==> o.id != b.id
    ensures e.Create? && Admit(db, e.id, e.input, e.now) == Ok(b)
  {
    if e.DeleteUser? {
      WithoutUserRows(db.bookings, e.user);
    }
  }

  // ---- transitions ----

  /** The moves of the transition table. */
  const MOVES: set<(Status, Status)> := {
    (Pending, Waitlisted), (Pending, CheckedIn), (Pending, Canceled),
    (Waitlisted, Pending), (Waitlisted, Canceled),
    (CheckedIn, Completed), (CheckedIn, Canceled)}

  ghost predicate Occupied(bs: seq<Booking>, b: Booking) {
    exists o :: o in bs && o.id != b.id && TakesSeats(o, b.resource, b.start, b.end)
  }

  /** What a transition of `b` is answered: the first gate that it fails, or success. */
  ghost predicate TransitionAnswers(bs: seq<Booking>, b: Booking, actor: UserId, target: Status, now: int, error: Option<Error>) {
    var own := b.user == actor;
    var allowed := own && (b.status, target) in MOVES;
    var frozen := 0 < b.start - now < 600_000_000_000 && target in {Canceled, Waitlisted, Pending};
    var busy := b.status == Waitlisted && target == Pending && Occupied(bs, b);
    && (error == Some(Forbidden) <==> !own)
    && (error == Some(InvalidTransition) <==> own && (b.status, target) !in MOVES)
    && (error == Some(Cutoff) <==> allowed && frozen)
    && (error == Some(Conflict) <==> allowed && !frozen && busy)
    && (error == None <==> allowed && !frozen && !busy)
  }

  lemma TableIsMoves(from: Status, to: Status)
    ensures CanTransition(from, to) <==> (from, to) in MOVES
  {
  }

  lemma OverlapIsOccupied(bs: seq<Booking>, b: Booking)
    ensures ResourceOverlap(bs, b.resource, b.start, b.end, b.id) <==> Occupied(bs, b)
  {
  }

  lemma {:induction false} CheckAnswers(db: Db, b: Booking, actor: UserId, target: Status, now: int)
    ensures TransitionAnswers(db.bookings, b, actor, target, now, Check(db, b, actor, target, now))
  {
    TableIsMoves(b.status, target);
    OverlapIsOccupied(db.bookings, b);
  }
}
