/** The booking service: admission, transitions and the removal of a user, each one atomic step. */
module BookingRules {
  import opened Wrappers
  import opened BookingDomain

  /** `capacity` are the resources, `users` the users with their blacklist flag. */
  datatype Db = Db(capacity: map<ResourceId, int>, users: map<UserId, bool>, bookings: seq<Booking>)

  datatype Error =
    | NotFound | Blacklisted | InvalidInput | CapacityExceeded | LeadTime | DailyLimit | Overlap
    | NotesNotSealed | DuplicateId | Forbidden | InvalidTransition | Cutoff | Conflict

  /** `sealed` says whether the secure notes, if there are any, could be encrypted. */
  datatype CreateInput = CreateInput(
    user: UserId, resource: ResourceId, party: int, start: int, end: int, sealed: bool)

  datatype Event =
    | AddUser(user: UserId)
    | SetBlacklist(user: UserId, on: bool)
    | DeleteUser(user: UserId)
    | AddResource(resource: ResourceId, seats: int)
    | Create(id: BookingId, input: CreateInput, now: int)
    | Transition(actor: UserId, id: BookingId, target: Status, now: int)

  function Init(): Db { Db(map[], map[], []) }

  function UserOverlap(bs: seq<Booking>, u: UserId, s: int, e: int): bool {
    exists b | b in bs :: b.user == u && !b.status.Canceled? && b.Overlaps(s, e)
  }

  function ResourceOverlap(bs: seq<Booking>, r: ResourceId, s: int, e: int, exclude: BookingId): bool {
    exists b | b in bs :: b.resource == r && b.status.Occupies() && b.Overlaps(s, e) && b.id != exclude
  }

  function Party(input: CreateInput): int { if input.party <= 0 then 1 else input.party }

  /** The seats the window has left, which may be negative or zero. */
  function SeatsLeft(db: Db, r: ResourceId, s: int, e: int): int
    requires r in db.capacity
  {
    db.capacity[r] - Total(db.bookings, InWindow(r, s, e))
  }

  /** The gates of Create, in order; the booking they let through is pending or waitlisted. */
  function Admit(db: Db, id: BookingId, input: CreateInput, now: int): Result<Booking, Error> {
    if input.user !in db.users then Err(NotFound)
    else if db.users[input.user] then Err(Blacklisted)
    else if input.resource !in db.capacity then Err(NotFound)
    else if !(input.end > input.start) then Err(InvalidInput)
    else if Party(input) > db.capacity[input.resource] then Err(CapacityExceeded)
    else if input.start < now + MIN_LEAD_TIME then Err(LeadTime)
    else if Total(db.bookings, ActiveOn(input.user, DayOf(input.start))) >= MAX_ACTIVE_PER_DAY then Err(DailyLimit)
    else if UserOverlap(db.bookings, input.user, input.start, input.end) then Err(Overlap)
    else if !input.sealed then Err(NotesNotSealed)
    else if exists b | b in db.bookings :: b.id == id then Err(DuplicateId)
    else
      var left := SeatsLeft(db, input.resource, input.start, input.end);
      Ok(Booking(id, input.user, input.resource, Party(input), input.start, input.end,
                 if Party(input) > left then Waitlisted else Pending))
  }

  function Find(bs: seq<Booking>, id: BookingId): (r: Option<nat>)
    ensures r.Some? ==> r.value < |bs| && bs[r.value].id == id
    ensures r.None? ==> forall b :: b in bs ==> b.id != id
  {
    if bs == [] then None
    else if bs[|bs| - 1].id == id then Some(|bs| - 1)
    else Find(bs[..|bs| - 1], id)
  }

  predicate InCutoff(b: Booking, now: int) { 0 < b.start - now < CHANGE_CUTOFF }

  function Check(db: Db, b: Booking, actor: UserId, target: Status, now: int): Option<Error> {
    if b.user != actor then Some(Forbidden)
    else if !CanTransition(b.status, target) then Some(InvalidTransition)
    else if InCutoff(b, now) && (target.Canceled? || target.Waitlisted? || target.Pending?) then Some(Cutoff)
    else if b.status.Waitlisted? && target.Pending? && ResourceOverlap(db.bookings, b.resource, b.start, b.end, b.id)
    then Some(Conflict)
    else None
  }

  function Step(db: Db, e: Event): Db {
    match e
    case AddUser(u) => if u in db.users then db else db.(users := db.users[u := false])
    case SetBlacklist(u, on) => if u in db.users then db.(users := db.users[u := on]) else db
    case DeleteUser(u) => db.(users := db.users - {u}, bookings := WithoutUser(db.bookings, u))
    case AddResource(r, seats) =>
      if r in db.capacity then db else db.(capacity := db.capacity[r := if seats <= 0 then 1 else seats])
    case Create(id, input, now) =>
      (match Admit(db, id, input, now)
       case Ok(b) => db.(bookings := db.bookings + [b])
       case Err(_) => db)
    case Transition(actor, id, target, now) =>
      (match Find(db.bookings, id)
       case None => db
       case Some(i) =>
         if Check(db, db.bookings[i], actor, target, now).Some? then db
         else db.(bookings := db.bookings[i := db.bookings[i].(status := target)]))
  }

  function Run(db: Db, es: seq<Event>): Db {
    if es == [] then db else Step(Run(db, es[..|es| - 1]), es[|es| - 1])
  }
}
