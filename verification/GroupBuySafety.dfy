/** What every interleaving of joins, sweep steps and user deletions keeps. */
module GroupBuySafety {
  import opened GroupBuyDomain
  import opened GroupBuyProtocol

  // ---- the invariant ----

  /** A row against the history of its committed joins. */
  ghost predicate RowInv(g: GroupBuy, sold: nat, joins: nat) {
    && WellFormed(g)
    && 0 <= g.remaining <= g.capacity
    && joins <= sold <= g.capacity
    && (g.status != Failed ==> g.Confirmed() == sold)
    && (g.status == Failed ==> g.remaining == g.capacity)
    && g.version == joins + (if g.status == Failed then 1 else 0)
    && (g.status == Open ==> !g.ThresholdMet())
    && (g.status == Met ==> g.ThresholdMet())
    && (g.status == Finalized ==> g.ThresholdMet())
    && g.status != Canceled
  }

  ghost predicate RowsInv(rows: map<GroupBuyId, GroupBuy>, log: seq<Commit>) {
    && (forall id :: id in rows ==> RowInv(rows[id], Sold(log, id), Joins(log, id)))
    && (forall id :: id !in rows ==> Sold(log, id) == 0 && Joins(log, id) == 0)
  }

  /** Every committed seat is on a surviving row or on one removed with its user. */
  ghost predicate PartsInv(parts: seq<Participant>, removed: seq<Participant>, log: seq<Commit>) {
    && (forall id :: Sold(log, id) == Seats(parts, id) + Seats(removed, id))
    && (forall id, u :: RowsOf(parts, id, u) <= 1)
  }

  ghost predicate ChainInv(cs: seq<Conflict>, now: int) {
    && (forall i :: 0 <= i < |cs| ==> 0 <= cs[i].read < cs[i].found <= now)
    && (forall i :: 0 < i < |cs| ==> cs[i - 1].found <= cs[i].read)
  }

  /** A held snapshot that still has the row's version is the row's current seat count, and the row
      has not been failed since. */
  ghost predicate SnapInv(snap: GroupBuy, row: GroupBuy, qty: nat, cs: seq<Conflict>) {
    && snap.status.AcceptsJoins() && qty <= snap.remaining
    && 0 <= snap.version <= row.version
    && (snap.version == row.version ==> snap.remaining == row.remaining && row.status != Failed)
    && (|cs| > 0 ==> cs[|cs| - 1].found <= snap.version)
  }

  ghost predicate JoinerInv(rows: map<GroupBuyId, GroupBuy>, s: Joiner) {
    && s.qty >= 1 && 1 <= s.attempt <= MAX_RETRIES
    && |s.conflicts| == (if s.phase == Done(OptimisticLock) then MAX_RETRIES else s.attempt - 1)
    && (|s.conflicts| > 0 ==> s.gb in rows && ChainInv(s.conflicts, rows[s.gb].version))
    && (s.phase.Holding? ==> s.gb in rows && SnapInv(s.phase.snap, rows[s.gb], s.qty, s.conflicts))
  }

  ghost predicate JoinersInv(rows: map<GroupBuyId, GroupBuy>, joiners: map<JoinerId, Joiner>) {
    forall j :: j in joiners ==> JoinerInv(rows, joiners[j])
  }

  /** A call has committed once if it was told so, and never otherwise. */
  ghost predicate LogInv(joiners: map<JoinerId, Joiner>, log: seq<Commit>) {
    forall j :: CommitsOf(log, j) == if j in joiners && joiners[j].phase == Done(Joined) then 1 else 0
  }

  /** A listed row still accepts joins and its confirmed count has not gone down. */
  ghost predicate ListedInv(rows: map<GroupBuyId, GroupBuy>, l: Listed) {
    && l.id in rows && rows[l.id].status.AcceptsJoins()
    && l.row.threshold == rows[l.id].threshold && l.row.capacity == rows[l.id].capacity
    && l.row.remaining >= rows[l.id].remaining
  }

  ghost predicate SweepInv(rows: map<GroupBuyId, GroupBuy>, sweep: seq<Listed>) {
    && (forall i, k :: 0 <= i < k < |sweep| ==> sweep[i].id != sweep[k].id)
    && (forall i :: 0 <= i < |sweep| ==> ListedInv(rows, sweep[i]))
  }

  ghost predicate Inv(w: World) {
    && RowsInv(w.db.rows, w.log) && PartsInv(w.db.parts, w.removed, w.log)
    && JoinersInv(w.db.rows, w.joiners) && LogInv(w.joiners, w.log)
    && SweepInv(w.db.rows, w.sweep)
  }

  /** How one row may change: the version never goes down, and while it stays the same so do the
      seats and the row is not failed. */
  ghost predicate Evolves(rows: map<GroupBuyId, GroupBuy>, rows': map<GroupBuyId, GroupBuy>) {
    forall id :: id in rows ==>
      && id in rows' && rows[id].version <= rows'[id].version
      && (rows[id].version == rows'[id].version ==>
            rows[id].remaining == rows'[id].remaining && (rows'[id].status == Failed ==> rows[id].status == Failed))
  }

  lemma JoinersEvolve(rows: map<GroupBuyId, GroupBuy>, rows': map<GroupBuyId, GroupBuy>, joiners: map<JoinerId, Joiner>)
    requires JoinersInv(rows, joiners) && Evolves(rows, rows')
    ensures JoinersInv(rows', joiners)
  {
    forall j | j in joiners ensures JoinerInv(rows', joiners[j]) {
      assert JoinerInv(rows, joiners[j]);
    }
  }

  // ---- sums over rows ----

  lemma {:induction false} SeatsAppend(a: seq<Participant>, b: seq<Participant>, gb: GroupBuyId)
    ensures Seats(a + b, gb) == Seats(a, gb) + Seats(b, gb)
  {
    if b == [] {
      assert a + b == a;
    } else {
      assert (a + b)[..|a + b| - 1] == a + b[..|b| - 1];
      SeatsAppend(a, b[..|b| - 1], gb);
    }
  }

  lemma AddPart(ps: seq<Participant>, p: Participant, gb: GroupBuyId, u: UserId)
    ensures Seats(ps + [p], gb) == Seats(ps, gb) + if p.gb == gb then p.quantity else 0
    ensures RowsOf(ps + [p], gb, u) == RowsOf(ps, gb, u) + if p.gb == gb && p.user == u then 1 else 0
  {
    assert (ps + [p])[..|ps + [p]| - 1] == ps;
  }

  lemma {:induction false} NoRowOfUser(ps: seq<Participant>, gb: GroupBuyId, u: UserId)
    ensures RowsOf(ps, gb, u) == 0 <==> forall p :: p in ps ==> !(p.gb == gb && p.user == u)
  {
    if ps != [] {
      NoRowOfUser(ps[..|ps| - 1], gb, u);
      assert ps == ps[..|ps| - 1] + [ps[|ps| - 1]];
    }
  }

  lemma {:induction false} DeletedRows(ps: seq<Participant>, user: UserId, mine: bool)
    ensures forall p :: p in OfUser(ps, user, mine) <==> p in ps && (p.user == user) == mine
  {
    if ps != [] {
      DeletedRows(ps[..|ps| - 1], user, mine);
      assert ps == ps[..|ps| - 1] + [ps[|ps| - 1]];
    }
  }

  /** A user's deletion splits the rows in two and loses no seat. */
  lemma {:induction false} DeletionSplits(ps: seq<Participant>, user: UserId, gb: GroupBuyId, u: UserId)
    ensures Seats(ps, gb) == Seats(OfUser(ps, user, false), gb) + Seats(OfUser(ps, user, true), gb)
    ensures RowsOf(OfUser(ps, user, false), gb, u) == if u == user then 0 else RowsOf(ps, gb, u)
  {
    if ps != [] {
      var init, p := ps[..|ps| - 1], ps[|ps| - 1];
      DeletionSplits(init, user, gb, u);
      AddPart(OfUser(init, user, p.user == user), p, gb, u);
      AddPart(init, p, gb, u);
      assert OfUser(init, user, p.user != user) + [] == OfUser(init, user, p.user != user);
    }
  }

  lemma AddCommitOf(log: seq<Commit>, c: Commit, j: JoinerId)
    ensures CommitsOf(log + [c], j) == CommitsOf(log, j) + if c.joiner == j then 1 else 0
  {
    assert (log + [c])[..|log + [c]| - 1] == log;
  }

  lemma AddCommit(log: seq<Commit>, c: Commit, gb: GroupBuyId)
    ensures Sold(log + [c], gb) == Sold(log, gb) + if c.part.gb == gb then c.part.quantity else 0
    ensures Joins(log + [c], gb) == Joins(log, gb) + if c.part.gb == gb then 1 else 0
  {
    assert (log + [c])[..|log + [c]| - 1] == log;
  }

  // ---- each step keeps the invariant ----

  lemma DeleteUserKeeps(w: World, u: UserId)
    requires Inv(w)
    ensures Inv(Step(w, DeleteUser(u)))
  {
    var kept, gone := OfUser(w.db.parts, u, false), OfUser(w.db.parts, u, true);
    forall id ensures Sold(w.log, id) == Seats(kept, id) + Seats(w.removed + gone, id) {
      DeletionSplits(w.db.parts, u, id, u);
      SeatsAppend(w.removed, gone, id);
    }
    forall id, v ensures RowsOf(kept, id, v) <= 1 {
      DeletionSplits(w.db.parts, u, id, v);
    }
    assert PartsInv(kept, w.removed + gone, w.log);
  }

  lemma CreateKeeps(w: World, id: GroupBuyId, organizer: UserId, resource: ResourceId, input: CreateInput, now: int)
    requires Inv(w)
    ensures Inv(Step(w, CreateGroupBuy(id, organizer, resource, input, now)))
  {
    var made := NewRow(w.db, organizer, resource, input, now);
    if made.Ok? && id !in w.db.rows {
      var rows' := w.db.rows[id := made.value];
      assert RowInv(made.value, Sold(w.log, id), Joins(w.log, id));
      assert RowsInv(rows', w.log);
      JoinersEvolve(w.db.rows, rows', w.joiners);
      forall i | 0 <= i < |w.sweep| ensures ListedInv(rows', w.sweep[i]) {
        assert ListedInv(w.db.rows, w.sweep[i]);
      }
    }
  }

  lemma ReadKeeps(db: Tables, log: seq<Commit>, s: Joiner, now: int)
    requires RowsInv(db.rows, log) && JoinerInv(db.rows, s) && s.phase.Ready?
    ensures JoinerInv(db.rows, AfterRead(db, s, now))
    ensures AfterRead(db, s, now).phase != Done(Joined)
  {
    if s.gb in db.rows {
      assert RowInv(db.rows[s.gb], Sold(log, s.gb), Joins(log, s.gb));
    }
  }

  lemma SweepListKeeps(w: World, now: int, order: seq<GroupBuyId>)
    requires Inv(w)
    ensures Inv(Step(w, SweepList(now, order)))
  {
    if w.sweep == [] && IsDueList(w.db.rows, now, order) {
      var sweep := ListedRows(w.db.rows, order);
      forall i | 0 <= i < |sweep| ensures ListedInv(w.db.rows, sweep[i]) {
        assert order[i] in order;
      }
      assert SweepInv(w.db.rows, sweep);
    }
  }

  lemma SweptKeepsRow(l: Listed, row: GroupBuy, sold: nat, joins: nat)
    requires RowInv(row, sold, joins) && row.status.AcceptsJoins()
    requires l.row.threshold == row.threshold && l.row.capacity == row.capacity && l.row.remaining >= row.remaining
    ensures RowInv(Swept(l.row, row), sold, joins)
  {
  }

  lemma SweepWriteKeeps(w: World, ok: bool)
    requires Inv(w) && w.sweep != []
    ensures Inv(Step(w, SweepWrite(ok)))
  {
    if ok {
      SweptKeeps(w.db.rows, w.log, w.joiners, w.sweep);
    } else {
      RestStaysListed(w.db.rows, w.db.rows, w.sweep);
    }
    assert ListedInv(w.db.rows, w.sweep[0]);
  }

  lemma SweptKeeps(rows: map<GroupBuyId, GroupBuy>, log: seq<Commit>, joiners: map<JoinerId, Joiner>, sweep: seq<Listed>)
    requires RowsInv(rows, log) && JoinersInv(rows, joiners) && SweepInv(rows, sweep) && sweep != []
    ensures sweep[0].id in rows
    ensures var rows' := rows[sweep[0].id := Swept(sweep[0].row, rows[sweep[0].id])];
            RowsInv(rows', log) && JoinersInv(rows', joiners) && SweepInv(rows', sweep[1..])
  {
    var l := sweep[0];
    assert ListedInv(rows, l);
    var row := rows[l.id];
    var rows' := rows[l.id := Swept(l.row, row)];
    SweptKeepsRow(l, row, Sold(log, l.id), Joins(log, l.id));
    SweptEvolves(l.row, row);
    JoinersEvolve(rows, rows', joiners);
    RestStaysListed(rows, rows', sweep);
  }

  lemma SweptEvolves(listed: GroupBuy, row: GroupBuy)
    ensures var row' := Swept(listed, row);
            && row'.version >= row.version
            && (row'.version == row.version ==>
                  row'.remaining == row.remaining && (row'.status == Failed ==> row.status == Failed))
  {
  }

  lemma RestStaysListed(rows: map<GroupBuyId, GroupBuy>, rows': map<GroupBuyId, GroupBuy>, sweep: seq<Listed>)
    requires sweep != [] && SweepInv(rows, sweep)
    requires forall id :: id in rows && id != sweep[0].id ==> id in rows' && rows'[id] == rows[id]
    ensures SweepInv(rows', sweep[1..])
  {
    forall i | 0 <= i < |sweep| - 1 ensures ListedInv(rows', sweep[1..][i]) {
      assert ListedInv(rows, sweep[i + 1]);
    }
  }

  /** What a commit that went through did to its row, and to the counts of every row. */
  lemma CommitKeepsRows(rows: map<GroupBuyId, GroupBuy>, log: seq<Commit>, snap: GroupBuy, c: Commit)
    requires RowsInv(rows, log) && c.part.gb in rows && c.part.quantity >= 1
    requires SnapInv(snap, rows[c.part.gb], c.part.quantity, []) && snap.version == rows[c.part.gb].version
    ensures var rows' := rows[c.part.gb := Decrement(rows[c.part.gb], c.part.quantity)];
            RowsInv(rows', log + [c]) && Evolves(rows, rows')
  {
    var gb, row := c.part.gb, rows[c.part.gb];
    var rows' := rows[gb := Decrement(row, c.part.quantity)];
    AddCommit(log, c, gb);
    assert RowInv(row, Sold(log, gb), Joins(log, gb));
    assert RowInv(rows'[gb], Sold(log + [c], gb), Joins(log + [c], gb));
    forall id | id != gb
      ensures Sold(log + [c], id) == Sold(log, id) && Joins(log + [c], id) == Joins(log, id)
    {
      AddCommit(log, c, id);
    }
  }

  lemma CommitKeepsParts(parts: seq<Participant>, removed: seq<Participant>, log: seq<Commit>, c: Commit)
    requires PartsInv(parts, removed, log) && RowsOf(parts, c.part.gb, c.part.user) == 0
    ensures PartsInv(parts + [c.part], removed, log + [c])
  {
    forall id ensures Sold(log + [c], id) == Seats(parts + [c.part], id) + Seats(removed, id) {
      AddCommit(log, c, id);
      AddPart(parts, c.part, id, 0);
    }
    forall id, u ensures RowsOf(parts + [c.part], id, u) <= 1 {
      AddPart(parts, c.part, id, u);
    }
  }

  /** A lost race leaves its mark in the chain of conflicts. */
  lemma CommitKeepsJoiner(db: Tables, log: seq<Commit>, s: Joiner)
    requires RowsInv(db.rows, log) && JoinerInv(db.rows, s) && s.phase.Holding?
    ensures var (o, db') := CommitTables(db, s.gb, s.user, s.qty, s.phase.snap.version);
            JoinerInv(db'.rows, AfterCommit(db, s, o))
  {
    var (o, db') := CommitTables(db, s.gb, s.user, s.qty, s.phase.snap.version);
    var s' := AfterCommit(db, s, o);
    if o == OptimisticLock {
      ConflictExtends(s.conflicts, Conflict(s.phase.snap.version, db.rows[s.gb].version));
      assert s'.conflicts == s.conflicts + [Conflict(s.phase.snap.version, db.rows[s.gb].version)];
    } else {
      assert s'.conflicts == s.conflicts;
      ChainGrows(s.conflicts, db.rows[s.gb].version);
    }
  }

  lemma ConflictExtends(cs: seq<Conflict>, c: Conflict)
    requires |cs| > 0 ==> ChainInv(cs, c.found) && cs[|cs| - 1].found <= c.read
    requires 0 <= c.read < c.found
    ensures ChainInv(cs + [c], c.found)
  {
  }

  lemma ChainGrows(cs: seq<Conflict>, now: int)
    requires |cs| > 0 ==> ChainInv(cs, now)
    ensures |cs| > 0 ==> ChainInv(cs, now + 1)
  {
  }

  lemma SweepSurvivesCommit(rows: map<GroupBuyId, GroupBuy>, sweep: seq<Listed>, gb: GroupBuyId, qty: nat)
    requires SweepInv(rows, sweep) && gb in rows
    ensures SweepInv(rows[gb := Decrement(rows[gb], qty)], sweep)
  {
    forall i | 0 <= i < |sweep| ensures ListedInv(rows[gb := Decrement(rows[gb], qty)], sweep[i]) {
      assert ListedInv(rows, sweep[i]);
    }
  }

  lemma {:induction false} CommitKeeps(w: World, j: JoinerId)
    requires Inv(w) && j in w.joiners && w.joiners[j].phase.Holding?
    ensures Inv(CommitStep(w, j))
  {
    var s, w' := w.joiners[j], CommitStep(w, j);
    var o := CommitTables(w.db, s.gb, s.user, s.qty, s.phase.snap.version).0;
    CommitKeepsJoiner(w.db, w.log, s);
    var s' := AfterCommit(w.db, s, o);
    if o == Joined {
      var c := Commit(j, Participant(s.gb, s.user, s.qty), s.phase.snap, s.phase.at);
      assert JoinerInv(w.db.rows, s);
      CommitKeepsRows(w.db.rows, w.log, s.phase.snap, c);
      CommitKeepsParts(w.db.parts, w.removed, w.log, c);
      JoinersEvolve(w.db.rows, w'.db.rows, w.joiners);
      SweepSurvivesCommit(w.db.rows, w.sweep, s.gb, s.qty);
      CommitIsLogged(w.joiners, w.log, c, s');
    } else {
      JoinerKeeps(w, j, s');
    }
  }

  lemma CommitIsLogged(joiners: map<JoinerId, Joiner>, log: seq<Commit>, c: Commit, s: Joiner)
    requires LogInv(joiners, log) && s.phase == Done(Joined)
    requires c.joiner in joiners && joiners[c.joiner].phase.Holding?
    ensures LogInv(joiners[c.joiner := s], log + [c])
  {
    forall j ensures CommitsOf(log + [c], j) == CommitsOf(log, j) + if c.joiner == j then 1 else 0 {
      AddCommitOf(log, c, j);
    }
  }

  /** A call that starts, or moves on without a commit, changes only its own state. */
  lemma JoinerKeeps(w: World, j: JoinerId, s: Joiner)
    requires Inv(w) && JoinerInv(w.db.rows, s) && s.phase != Done(Joined)
    requires j in w.joiners ==> w.joiners[j].phase != Done(Joined)
    ensures Inv(w.(joiners := w.joiners[j := s]))
  {
    var joiners' := w.joiners[j := s];
    assert JoinersInv(w.db.rows, joiners');
    assert LogInv(joiners', w.log);
  }

  lemma UsersKeep(w: World, users: map<UserId, bool>, resources: set<ResourceId>)
    requires Inv(w)
    ensures Inv(w.(db := w.db.(users := users, resources := resources)))
  {
  }

  lemma StartKeeps(w: World, j: JoinerId, gb: GroupBuyId, user: UserId, qty: int)
    requires Inv(w)
    ensures Inv(Step(w, StartJoin(j, gb, user, qty)))
  {
    if j !in w.joiners {
      JoinerKeeps(w, j, NewJoiner(w.db.users, gb, user, qty));
    }
  }

  lemma ReadRowKeeps(w: World, j: JoinerId, now: int)
    requires Inv(w)
    ensures Inv(Step(w, ReadRow(j, now)))
  {
    if j in w.joiners && w.joiners[j].phase.Ready? {
      ReadKeeps(w.db, w.log, w.joiners[j], now);
      JoinerKeeps(w, j, AfterRead(w.db, w.joiners[j], now));
    }
  }

  lemma {:induction false} StepKeeps(w: World, e: Event)
    requires Inv(w)
    ensures Inv(Step(w, e))
  {
    match e
    case AddUser(u) => UsersKeep(w, w.db.users[u := false], w.db.resources);
    case SetBlacklist(u, on) => UsersKeep(w, w.db.users[u := on], w.db.resources);
    case AddResource(r) => UsersKeep(w, w.db.users, w.db.resources + {r});
    case DeleteUser(u) => DeleteUserKeeps(w, u);
    case CreateGroupBuy(id, organizer, resource, input, now) => CreateKeeps(w, id, organizer, resource, input, now);
    case StartJoin(j, gb, user, qty) => StartKeeps(w, j, gb, user, qty);
    case ReadRow(j, now) => ReadRowKeeps(w, j, now);
    case CommitJoin(j) =>
      if j in w.joiners && w.joiners[j].phase.Holding? {
        CommitKeeps(w, j);
      }
    case SweepList(now, order) => SweepListKeeps(w, now, order);
    case SweepWrite(ok) =>
      if w.sweep != [] {
        SweepWriteKeeps(w, ok);
      }
  }

  lemma {:induction false} RunKeeps(w: World, es: seq<Event>)
    requires Inv(w)
    ensures Inv(Run(w, es))
  {
    if es != [] {
      RunKeeps(w, es[..|es| - 1]);
      StepKeeps(Run(w, es[..|es| - 1]), es[|es| - 1]);
    }
  }

  // ---- main results, for every interleaving ----

  /** Oversell safety and conservation of seats. */
  lemma {:induction false} OversellSafety(es: seq<Event>, id: GroupBuyId)
    requires id in Run(Init(), es).db.rows
    ensures var w := Run(Init(), es);
            var g := w.db.rows[id];
            && 0 <= g.remaining <= g.capacity
            && Sold(w.log, id) <= g.capacity
            && (g.status != Failed ==> g.capacity - g.remaining == Sold(w.log, id))
            && Sold(w.log, id) == Seats(w.db.parts, id) + Seats(w.removed, id)
            && forall u :: RowsOf(w.db.parts, id, u) <= 1
  {
    RunKeeps(Init(), es);
  }

  /** The version counts committed joins, plus one for failing the row. */
  lemma {:induction false} VersionCountsCommits(es: seq<Event>, id: GroupBuyId)
    requires id in Run(Init(), es).db.rows
    ensures var w := Run(Init(), es);
            var g := w.db.rows[id];
            && g.version == Joins(w.log, id) + (if g.status == Failed then 1 else 0)
            && g.version <= g.capacity + 1
  {
    RunKeeps(Init(), es);
  }

  /** Among rows that accept joins, met means the threshold is met; finalized implies it. */
  lemma {:induction false} StatusTellsThreshold(es: seq<Event>, id: GroupBuyId)
    requires id in Run(Init(), es).db.rows
    ensures var g := Run(Init(), es).db.rows[id];
            && (g.status.AcceptsJoins() ==> (g.status == Met <==> g.Confirmed() >= g.threshold))
            && (g.status == Finalized ==> g.Confirmed() >= g.threshold)
            && g.status != Canceled
  {
    RunKeeps(Init(), es);
  }

  /** A call is told it joined if and only if it has committed, and then it has once. */
  lemma {:induction false} JoinedMeansCommittedOnce(es: seq<Event>, j: JoinerId)
    ensures var w := Run(Init(), es);
            && CommitsOf(w.log, j) <= 1
            && (CommitsOf(w.log, j) == 1 <==> j in w.joiners && w.joiners[j].phase == Done(Joined))
  {
    RunKeeps(Init(), es);
  }

  /** A try loses its race only to a version bump between its read and its update: a commit whose
      snapshot has the row's version is never refused for its seats. */
  lemma {:induction false} LockErrorMeansForeignBump(es: seq<Event>, j: JoinerId)
    requires var w := Run(Init(), es); j in w.joiners && w.joiners[j].phase.Holding?
    ensures var w := Run(Init(), es);
            var s := w.joiners[j];
            && s.gb in w.db.rows
            && (CommitTables(w.db, s.gb, s.user, s.qty, s.phase.snap.version).0 == OptimisticLock
                <==> w.db.rows[s.gb].version > s.phase.snap.version)
  {
    RunKeeps(Init(), es);
    assert JoinerInv(Run(Init(), es).db.rows, Run(Init(), es).joiners[j]);
  }

  /** A Join that gives up saw three separate version bumps, none of them its own, so at least two
      other joins committed on its row after its first read. */
  lemma {:induction false} ExhaustedJoinSawThreeBumps(es: seq<Event>, j: JoinerId)
    requires var w := Run(Init(), es);
             j in w.joiners && w.joiners[j].phase == Done(OptimisticLock)
    ensures var w := Run(Init(), es);
            var s := w.joiners[j];
            && s.gb in w.db.rows && |s.conflicts| == 3
            && s.conflicts[0].read < s.conflicts[0].found <= s.conflicts[1].read
            && s.conflicts[1].read < s.conflicts[1].found <= s.conflicts[2].read
            && s.conflicts[2].read < s.conflicts[2].found <= w.db.rows[s.gb].version
            && CommitsOf(w.log, j) == 0
            && Joins(w.log, s.gb) >= s.conflicts[0].read + 2
  {
    RunKeeps(Init(), es);
    assert JoinerInv(Run(Init(), es).db.rows, Run(Init(), es).joiners[j]);
  }
}
