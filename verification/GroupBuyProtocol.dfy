/** Group-buy joins, the deadline sweep and user deletion as one state machine whose steps are
    the SQL statements and transactions of the repository. Any interleaving of sessions is a
    sequence of events; an event that is not enabled leaves the world unchanged. */
module GroupBuyProtocol {
  import opened Wrappers
  import opened GroupBuyDomain

  type JoinerId = nat
  type ResourceId = nat

  const MAX_RETRIES := 3

  datatype Participant = Participant(gb: GroupBuyId, user: UserId, quantity: nat)

  /** `users` are the users with their blacklist flag. */
  datatype Tables = Tables(
    rows: map<GroupBuyId, GroupBuy>, parts: seq<Participant>, users: map<UserId, bool>, resources: set<ResourceId>)

  datatype Outcome =
    | Joined | NotFound | Blacklisted | NotOpen | DeadlinePassed | Oversold
    | OptimisticLock | AlreadyJoined | UserGone

  /** One lost race: the version a try read, and the version its UPDATE found. */
  datatype Conflict = Conflict(read: int, found: int)

  datatype CreateError = OrganizerMissing | OrganizerBlacklisted | ResourceMissing | Rejected(rule: Invalid)

  /** A call that holds a snapshot read it at time `at`. */
  datatype Phase = Ready | Holding(snap: GroupBuy, at: int) | Done(outcome: Outcome)

  /** A Join call in flight. */
  datatype Joiner = Joiner(
    gb: GroupBuyId, user: UserId, qty: nat, attempt: nat, phase: Phase, conflicts: seq<Conflict>)

  /** A committed join, kept as history with the snapshot it was made on and when that was read. */
  datatype Commit = Commit(joiner: JoinerId, part: Participant, snap: GroupBuy, at: int)

  datatype Listed = Listed(id: GroupBuyId, row: GroupBuy)

  /** The tables, the calls in flight, the rows the one sweeper has listed and not yet written,
      and the history: committed joins, and participant rows removed with their user. */
  datatype World = World(
    db: Tables, joiners: map<JoinerId, Joiner>, sweep: seq<Listed>,
    log: seq<Commit>, removed: seq<Participant>)

  datatype Event =
    | AddUser(user: UserId)
    | SetBlacklist(user: UserId, on: bool)
    | DeleteUser(user: UserId)
    | AddResource(resource: ResourceId)
    | CreateGroupBuy(id: GroupBuyId, organizer: UserId, resource: ResourceId, input: CreateInput, now: int)
    | StartJoin(j: JoinerId, gb: GroupBuyId, user: UserId, qty: int)
    | ReadRow(j: JoinerId, now: int)
    | CommitJoin(j: JoinerId)
    | SweepList(now: int, order: seq<GroupBuyId>)
    | SweepWrite(ok: bool)

  function Init(): World { World(Tables(map[], [], map[], {}), map[], [], [], []) }

  /** The gates of a new campaign: its organizer, its resource, then its own rules. */
  function NewRow(db: Tables, organizer: UserId, resource: ResourceId, input: CreateInput, now: int): Result<GroupBuy, CreateError> {
    if organizer !in db.users then Err(OrganizerMissing)
    else if db.users[organizer] then Err(OrganizerBlacklisted)
    else if resource !in db.resources then Err(ResourceMissing)
    else
      match NewGroupBuy(input, now)
      case Ok(g) => Ok(g)
      case Err(e) => Err(Rejected(e))
  }

  // ---- participant rows ----

  function Seats(ps: seq<Participant>, gb: GroupBuyId): nat {
    if ps == [] then 0
    else var p := ps[|ps| - 1];
         Seats(ps[..|ps| - 1], gb) + if p.gb == gb then p.quantity else 0
  }

  function RowsOf(ps: seq<Participant>, gb: GroupBuyId, user: UserId): nat {
    if ps == [] then 0
    else var p := ps[|ps| - 1];
         RowsOf(ps[..|ps| - 1], gb, user) + if p.gb == gb && p.user == user then 1 else 0
  }

  /** The rows that belong to `user`, or those that do not. */
  function OfUser(ps: seq<Participant>, user: UserId, mine: bool): seq<Participant> {
    if ps == [] then []
    else var p := ps[|ps| - 1];
         OfUser(ps[..|ps| - 1], user, mine) + if (p.user == user) == mine then [p] else []
  }

  // ---- committed joins ----

  function Sold(log: seq<Commit>, gb: GroupBuyId): nat {
    if log == [] then 0
    else var p := log[|log| - 1].part;
         Sold(log[..|log| - 1], gb) + if p.gb == gb then p.quantity else 0
  }

  function Joins(log: seq<Commit>, gb: GroupBuyId): nat {
    if log == [] then 0
    else Joins(log[..|log| - 1], gb) + if log[|log| - 1].part.gb == gb then 1 else 0
  }

  /** How often a call has committed. */
  function CommitsOf(log: seq<Commit>, j: JoinerId): nat {
    if log == [] then 0
    else CommitsOf(log[..|log| - 1], j) + if log[|log| - 1].joiner == j then 1 else 0
  }

  // ---- one Join call ----

  /** The user is looked up once, before the first try; a quantity below one means one. */
  function NewJoiner(users: map<UserId, bool>, gb: GroupBuyId, user: UserId, qty: int): Joiner {
    Joiner(gb, user, if qty <= 0 then 1 else qty, 1,
           if user !in users then Done(NotFound) else if users[user] then Done(Blacklisted) else Ready, [])
  }

  function ReadCheck(row: GroupBuy, qty: nat, now: int): Option<Outcome> {
    if !row.status.AcceptsJoins() then Some(NotOpen)
    else if !(row.deadline > now) then Some(DeadlinePassed)
    else if row.remaining < qty then Some(Oversold)
    else None
  }

  function Decrement(row: GroupBuy, qty: nat): GroupBuy {
    row.(remaining := row.remaining - qty,
         version := row.version + 1,
         status := if row.capacity - (row.remaining - qty) >= row.threshold then Met else row.status)
  }

  /** The version-guarded UPDATE and the participant INSERT, committed together or not at all. */
  function CommitTables(db: Tables, gb: GroupBuyId, user: UserId, qty: nat, version: int): (Outcome, Tables) {
    if gb !in db.rows || db.rows[gb].version != version || db.rows[gb].remaining < qty then (OptimisticLock, db)
    else if RowsOf(db.parts, gb, user) > 0 then (AlreadyJoined, db)
    else if user !in db.users then (UserGone, db)
    else (Joined, db.(rows := db.rows[gb := Decrement(db.rows[gb], qty)],
                      parts := db.parts + [Participant(gb, user, qty)]))
  }

  function AfterRead(db: Tables, s: Joiner, now: int): Joiner {
    if s.gb !in db.rows then s.(phase := Done(NotFound))
    else
      match ReadCheck(db.rows[s.gb], s.qty, now)
      case Some(o) => s.(phase := Done(o))
      case None => s.(phase := Holding(db.rows[s.gb], now))
  }

  /** Only a lost race is retried, and only while tries are left. */
  function AfterCommit(db: Tables, s: Joiner, o: Outcome): Joiner
    requires s.phase.Holding?
  {
    if o == OptimisticLock && s.gb in db.rows then
      var s' := s.(conflicts := s.conflicts + [Conflict(s.phase.snap.version, db.rows[s.gb].version)]);
      if s.attempt < MAX_RETRIES then s'.(attempt := s.attempt + 1, phase := Ready)
      else s'.(phase := Done(OptimisticLock))
    else s.(phase := Done(o))
  }

  // ---- the sweep ----

  predicate Due(row: GroupBuy, now: int) { row.deadline <= now && row.status.AcceptsJoins() }

  /** `order` lists each due row once. */
  predicate IsDueList(rows: map<GroupBuyId, GroupBuy>, now: int, order: seq<GroupBuyId>) {
    && (forall i, k | 0 <= i < k < |order| :: order[i] != order[k])
    && (forall id | id in order :: id in rows && Due(rows[id], now))
    && (forall id | id in rows.Keys && Due(rows[id], now) :: id in order)
  }

  function Target(row: GroupBuy): Status {
    if row.ThresholdMet() then Finalized else if row.Confirmed() > 0 then Failed else Expired
  }

  /** MarkFailedAndReleaseSlots: guarded by status, releases the seats, bumps the version. */
  function MarkFailed(row: GroupBuy): GroupBuy {
    if row.status.AcceptsJoins()
    then row.(status := Failed, remaining := row.capacity, version := row.version + 1)
    else row
  }

  /** The write chosen from the listed copy, applied to the row as it is now; UpdateStatus has no
      guard and leaves the version alone. */
  function Swept(listed: GroupBuy, row: GroupBuy): GroupBuy {
    if Target(listed) == Failed then MarkFailed(row) else row.(status := Target(listed))
  }

  // ---- steps ----

  function Step(w: World, e: Event): World {
    match e
    case AddUser(u) => if u in w.db.users then w else w.(db := w.db.(users := w.db.users[u := false]))
    case SetBlacklist(u, on) => if u in w.db.users then w.(db := w.db.(users := w.db.users[u := on])) else w
    case DeleteUser(u) =>
      w.(db := w.db.(users := w.db.users - {u}, parts := OfUser(w.db.parts, u, false)),
         removed := w.removed + OfUser(w.db.parts, u, true))
    case AddResource(r) => w.(db := w.db.(resources := w.db.resources + {r}))
    case CreateGroupBuy(id, organizer, resource, input, now) =>
      (match NewRow(w.db, organizer, resource, input, now)
       case Ok(g) => if id in w.db.rows then w else w.(db := w.db.(rows := w.db.rows[id := g]))
       case Err(_) => w)
    case StartJoin(j, gb, user, qty) =>
      if j in w.joiners then w else w.(joiners := w.joiners[j := NewJoiner(w.db.users, gb, user, qty)])
    case ReadRow(j, now) =>
      if j in w.joiners && w.joiners[j].phase.Ready?
      then w.(joiners := w.joiners[j := AfterRead(w.db, w.joiners[j], now)])
      else w
    case CommitJoin(j) =>
      if j in w.joiners && w.joiners[j].phase.Holding? then CommitStep(w, j) else w
    case SweepList(now, order) =>
      if w.sweep == [] && IsDueList(w.db.rows, now, order)
      then w.(sweep := ListedRows(w.db.rows, order))
      else w
    case SweepWrite(ok) =>
      if w.sweep == [] then w
      else var l := w.sweep[0];
           var w' := w.(sweep := w.sweep[1..]);
           if ok && l.id in w.db.rows then w'.(db := w.db.(rows := w.db.rows[l.id := Swept(l.row, w.db.rows[l.id])])) else w'
  }

  function CommitStep(w: World, j: JoinerId): World
    requires j in w.joiners && w.joiners[j].phase.Holding?
  {
    var s := w.joiners[j];
    var (o, db) := CommitTables(w.db, s.gb, s.user, s.qty, s.phase.snap.version);
    w.(db := db, joiners := w.joiners[j := AfterCommit(w.db, s, o)],
       log := if o == Joined then w.log + [Commit(j, Participant(s.gb, s.user, s.qty), s.phase.snap, s.phase.at)] else w.log)
  }

  function ListedRows(rows: map<GroupBuyId, GroupBuy>, order: seq<GroupBuyId>): (l: seq<Listed>)
    requires forall id <- order :: id in rows
    ensures |l| == |order| && forall i :: 0 <= i < |l| ==> l[i] == Listed(order[i], rows[order[i]])
  {
    seq(|order|, i requires 0 <= i < |order| => Listed(order[i], rows[order[i]]))
  }

  function Run(w: World, es: seq<Event>): World {
    if es == [] then w else Step(Run(w, es[..|es| - 1]), es[|es| - 1])
  }

  lemma {:induction false} RunAppend(w: World, a: seq<Event>, b: seq<Event>)
    ensures Run(w, a + b) == Run(Run(w, a), b)
  {
    if b == [] {
      assert a + b == a;
    } else {
      var b' := b[..|b| - 1];
      assert (a + b)[..|a + b| - 1] == a + b';
      RunAppend(w, a, b');
    }
  }
}
