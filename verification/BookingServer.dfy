/** The booking service over its tables, changed in place. */
module BookingServer {
  import opened Wrappers
  import opened BookingDomain
  import opened BookingRules
  import opened BookingSafety
  import opened BookingAnswers

  class Server {
    var capacity: map<ResourceId, int>
    var users: map<UserId, bool>
    var bookings: seq<Booking>

    ghost function View(): Db
      reads this
    {
      Db(capacity, users, bookings)
    }

    constructor ()
      ensures View() == Init()
    {
      capacity, users, bookings := map[], map[], [];
    }

    /** The gates of the service in order; only the last, for seats, waitlists instead of refusing. */
    method Create(id: BookingId, input: CreateInput, now: int) returns (r: Result<Booking, Error>)
      modifies this`bookings
      ensures r == Admit(old(View()), id, input, now)
      ensures View() == Step(old(View()), BookingRules.Create(id, input, now))
      ensures old(Inv(View())) ==> Inv(View())
      ensures CreateAnswers(old(View()), id, input, now, r)
      ensures bookings == if r.Ok? then old(bookings) + [r.value] else old(bookings)
    {
      AdmitAnswers(View(), id, input, now);
      StepKeepsInv(View(), BookingRules.Create(id, input, now));
      if input.user !in users {
        return Err(NotFound);
      }
      if users[input.user] {
        return Err(Blacklisted);
      }
      if input.resource !in capacity {
        return Err(NotFound);
      }
      if input.end <= input.start {
        return Err(InvalidInput);
      }
      var party := input.party;
      if party <= 0 {
        party := 1;
      }
      if party > capacity[input.resource] {
        return Err(CapacityExceeded);
      }
      if input.start < now + MIN_LEAD_TIME {
        return Err(LeadTime);
      }
      var count := Total(bookings, ActiveOn(input.user, DayOf(input.start)));
      if count >= MAX_ACTIVE_PER_DAY {
        return Err(DailyLimit);
      }
      if UserOverlap(bookings, input.user, input.start, input.end) {
        return Err(Overlap);
      }
      var remaining := capacity[input.resource] - Total(bookings, InWindow(input.resource, input.start, input.end));
      var status := Pending;
      if party > remaining {
        status := Waitlisted;
      }
      if !input.sealed {
        return Err(NotesNotSealed);
      }
      if exists b | b in bookings :: b.id == id {
        return Err(DuplicateId);
      }
      var b := Booking(id, input.user, input.resource, party, input.start, input.end, status);
      bookings := bookings + [b];
      return Ok(b);
    }

    method Transition(actor: UserId, id: BookingId, target: Status, now: int) returns (r: Result<Booking, Error>)
      modifies this`bookings
      ensures View() == Step(old(View()), BookingRules.Transition(actor, id, target, now))
      ensures r == match Find(old(bookings), id)
                   case None => Err(NotFound)
                   case Some(i) =>
                     match Check(old(View()), old(bookings)[i], actor, target, now)
                     case Some(e) => Err(e)
                     case None => Ok(old(bookings)[i].(status := target))
      ensures r == Err(NotFound) <==> forall b :: b in old(bookings) ==> b.id != id
      ensures r != Err(NotFound) ==>
                exists i :: 0 <= i < |bookings| && old(bookings)[i].id == id
                  && TransitionAnswers(old(bookings), old(bookings)[i], actor, target, now, if r.Err? then Some(r.error) else None)
                  && bookings == if r.Ok? then old(bookings)[i := old(bookings)[i].(status := target)] else old(bookings)
      ensures r.Ok? ==> r.value in bookings && r.value.id == id && r.value.user == actor && r.value.status == target
      ensures old(Inv(View())) ==> Inv(View())
    {
      StepKeepsInv(View(), BookingRules.Transition(actor, id, target, now));
      var found := Find(bookings, id);
      if found.None? {
        return Err(NotFound);
      }
      var b := bookings[found.value];
      CheckAnswers(View(), b, actor, target, now);
      if b.user != actor {
        return Err(Forbidden);
      }
      if !CanTransition(b.status, target) {
        return Err(InvalidTransition);
      }
      var timeToStart := b.start - now;
      var cutoffActive := timeToStart > 0 && timeToStart < CHANGE_CUTOFF;
      if cutoffActive && (target == Canceled || target == Waitlisted || target == Pending) {
        return Err(Cutoff);
      }
      if b.status == Waitlisted && target == Pending {
        if ResourceOverlap(bookings, b.resource, b.start, b.end, b.id) {
          return Err(Conflict);
        }
      }
      b := b.(status := target);
      bookings := bookings[found.value := b];
      assert bookings[found.value] == b;
      return Ok(b);
    }

    method DeleteUser(u: UserId)
      modifies this`users, this`bookings
      ensures View() == Step(old(View()), BookingRules.DeleteUser(u))
      ensures old(Inv(View())) ==> Inv(View())
      ensures forall b :: b in bookings <==> b in old(bookings) && b.user != u
    {
      StepKeepsInv(View(), BookingRules.DeleteUser(u));
      WithoutUserRows(bookings, u);
      users := users - {u};
      bookings := WithoutUser(bookings, u);
    }
  }

  lemma StepKeepsInv(db: Db, e: Event)
    ensures Inv(db) ==> Inv(Step(db, e))
  {
    if Inv(db) {
      StepKeeps(db, e);
    }
  }
}
