/** The group-buy repository and service as objects that change their tables in place. Each
    statement is proved to be one step of the protocol, and the retry loop and the sweep to be the
    runs of steps they are. */
module GroupBuyServer {
  import opened Wrappers
  import opened GroupBuyDomain
  import opened GroupBuyProtocol
  import opened GroupBuySafety
  import opened GroupBuySweep

  class Server {
    var rows: map<GroupBuyId, GroupBuy>
    var parts: seq<Participant>
    var users: map<UserId, bool>
    var resources: set<ResourceId>
    var joiners: map<JoinerId, Joiner>
    var sweep: seq<Listed>
    var log: seq<Commit>
    var removed: seq<Participant>

    ghost function View(): World
      reads this
    {
      World(Tables(rows, parts, users, resources), joiners, sweep, log, removed)
    }

    constructor ()
      ensures View() == Init()
    {
      rows, parts, users, resources := map[], [], map[], {};
      joiners, sweep, log, removed := map[], [], [], [];
    }

    // ---- repository ----

    /** The id is a fresh one. */
    method Create(id: GroupBuyId, organizer: UserId, resource: ResourceId, input: CreateInput, now: int)
      returns (r: Result<GroupBuy, CreateError>)
      requires id !in rows
      modifies this
      ensures View() == Step(old(View()), CreateGroupBuy(id, organizer, resource, input, now))
      ensures r == NewRow(old(View()).db, organizer, resource, input, now)
      ensures rows == if r.Ok? then old(rows)[id := r.value] else old(rows)
      ensures r == Err(OrganizerMissing) <==> organizer !in users
      ensures r == Err(OrganizerBlacklisted) <==> organizer in users && users[organizer]
      ensures r == Err(ResourceMissing) <==> organizer in users && !users[organizer] && resource !in resources
      ensures organizer in users && !users[organizer] && resource in resources ==>
                match NewGroupBuy(input, now)
                case Ok(g) => r == Ok(g)
                case Err(e) => r == Err(Rejected(e))
      ensures r.Ok? ==> WellFormed(r.value) && r.value.status == Open && r.value.Confirmed() == 0 && r.value.deadline > now
    {
      if organizer !in users {
        return Err(OrganizerMissing);
      }
      if users[organizer] {
        return Err(OrganizerBlacklisted);
      }
      if resource !in resources {
        return Err(ResourceMissing);
      }
      var g := FillDefaults(input, now);
      var invalid := Validate(g, now);
      if invalid.Some? {
        return Err(Rejected(invalid.value));
      }
      rows := rows[id := g];
      return Ok(g);
    }

    /** The SELECT that opens a try, with the checks made on what it read. */
    method Read(j: JoinerId, now: int)
      requires j in joiners && joiners[j].phase.Ready?
      modifies this`joiners
      ensures View() == Step(old(View()), ReadRow(j, now))
      ensures j in joiners && var s, s' := old(joiners)[j], joiners[j];
              && (s'.phase.Holding? || s'.phase.Done?)
              && s' == s.(phase := s'.phase)
              && ReadAnswers(rows, s.gb, s.qty, now, if s'.phase.Done? then Some(s'.phase.outcome) else None)
              && (s'.phase.Done? ==> FromRead(s'.phase.outcome))
              && (s'.phase.Holding? ==> s'.phase == Holding(rows[s.gb], now))
    {
      var s := joiners[j];
      if s.gb !in rows {
        joiners := joiners[j := s.(phase := Done(NotFound))];
        return;
      }
      var g := rows[s.gb];
      if !g.status.AcceptsJoins() {
        joiners := joiners[j := s.(phase := Done(NotOpen))];
      } else if !(g.deadline > now) {
        joiners := joiners[j := s.(phase := Done(DeadlinePassed))];
      } else if g.remaining < s.qty {
        joiners := joiners[j := s.(phase := Done(Oversold))];
      } else {
        joiners := joiners[j := s.(phase := Holding(g, now))];
      }
    }

    /** The rest of the transaction: guarded UPDATE, participant INSERT, COMMIT. A refused insert
        rolls the update back. */
    method Commit(j: JoinerId) returns (o: Outcome)
      requires j in joiners && joiners[j].phase.Holding?
      modifies this
      ensures View() == Step(old(View()), CommitJoin(j))
      ensures j in joiners && joiners[j] == AfterCommit(old(View().db), old(joiners)[j], o)
      ensures var s := old(joiners)[j];
              && o == CommitTables(old(View().db), s.gb, s.user, s.qty, s.phase.snap.version).0
              && UpdateAnswers(old(rows), old(parts), old(users), s.gb, s.user, s.qty, s.phase.snap.version, o)
      ensures var s := old(joiners)[j];
              if o == Joined then
                var g := old(rows)[s.gb];
                && rows == old(rows)[s.gb := g.(
                             remaining := g.remaining - s.qty, version := g.version + 1,
                             status := if g.capacity - g.remaining + s.qty >= g.threshold then Met else g.status)]
                && parts == old(parts) + [Participant(s.gb, s.user, s.qty)]
                && log == old(log) + [GroupBuyProtocol.Commit(j, Participant(s.gb, s.user, s.qty), s.phase.snap, s.phase.at)]
              else rows == old(rows) && parts == old(parts) && log == old(log)
    {
      var s := joiners[j];
      CommitTablesAnswers(View().db, s.gb, s.user, s.qty, s.phase.snap.version);
      var before := rows;
      if s.gb in rows && rows[s.gb].version == s.phase.snap.version && rows[s.gb].remaining >= s.qty {
        var g := rows[s.gb];
        var left := g.remaining - s.qty;
        rows := rows[s.gb := g.(remaining := left, version := g.version + 1,
                                status := if g.capacity - left >= g.threshold then Met else g.status)];
        if RowsOf(parts, s.gb, s.user) > 0 {
          rows, o := before, AlreadyJoined;
        } else if s.user !in users {
          rows, o := before, UserGone;
        } else {
          var p := Participant(s.gb, s.user, s.qty);
          parts, log, o := parts + [p], log + [GroupBuyProtocol.Commit(j, p, s.phase.snap, s.phase.at)], Joined;
        }
      } else {
        o := OptimisticLock;
      }
      joiners := joiners[j := AfterCommit(Tables(before, parts, users, resources), s, o)];
    }

    /** The rows due at `now`, in some order. */
    method ListExpiringBefore(now: int) returns (order: seq<GroupBuyId>)
      ensures IsDueList(rows, now, order) && ListsExpired(rows, now, order)
    {
      order := [];
      var left := rows.Keys;
      while left != {}
        invariant left <= rows.Keys
        invariant forall i, k :: 0 <= i < k < |order| ==> order[i] != order[k]
        invariant forall id :: id in order <==> id in rows && id !in left && Due(rows[id], now)
        decreases |left|
      {
        var id :| id in left;
        left := left - {id};
        if Due(rows[id], now) {
          order := order + [id];
        }
      }
    }

    /** False, the not-found answer, when no row accepts joins under that id. */
    method MarkFailedAndReleaseSlots(id: GroupBuyId) returns (found: bool)
      modifies this`rows
      ensures found <==> id in old(rows) && old(rows)[id].status.AcceptsJoins()
      ensures rows == if id in old(rows) then old(rows)[id := MarkFailed(old(rows)[id])] else old(rows)
      ensures rows == if found then
                        var g := old(rows)[id];
                        old(rows)[id := g.(status := Failed, remaining := g.capacity, version := g.version + 1)]
                      else old(rows)
    {
      found := id in rows && (rows[id].status == Open || rows[id].status == Met);
      if found {
        var g := rows[id];
        rows := rows[id := g.(status := Failed, remaining := g.capacity, version := g.version + 1)];
      } else {
        assert id in rows ==> rows == rows[id := rows[id]];
      }
    }

    /** False, the not-found answer, when there is no such row. */
    method UpdateStatus(id: GroupBuyId, status: Status) returns (found: bool)
      modifies this`rows
      ensures found <==> id in old(rows)
      ensures rows == if found then old(rows)[id := old(rows)[id].(status := status)] else old(rows)
    {
      found := id in rows;
      if found {
        rows := rows[id := rows[id].(status := status)];
      }
    }

    /** A deleted user takes their participant rows along. */
    method HardDelete(user: UserId)
      modifies this
      ensures View() == Step(old(View()), DeleteUser(user))
      ensures user !in users && forall p :: p in parts <==> p in old(parts) && p.user != user
    {
      DeletedRows(parts, user, false);
      removed := removed + OfUser(parts, user, true);
      parts := OfUser(parts, user, false);
      users := users - {user};
    }

    // ---- service ----

    /** One write of the sweep; a write that fails is logged and skipped. */
    method WriteSwept(ok: bool)
      requires sweep != []
      modifies this
      ensures View() == Step(old(View()), SweepWrite(ok))
      ensures var l := old(sweep)[0];
              if !ok || l.id !in old(rows) then rows == old(rows)
              else
                var g, taken := old(rows)[l.id], l.row.capacity - l.row.remaining;
                if taken >= l.row.threshold then rows == old(rows)[l.id := g.(status := Finalized)]
                else if taken <= 0 then rows == old(rows)[l.id := g.(status := Expired)]
                else if g.status != Open && g.status != Met then rows == old(rows)
                else rows == old(rows)[l.id := g.(status := Failed, remaining := g.capacity, version := g.version + 1)]
    {
      var l := sweep[0];
      sweep := sweep[1..];
      if ok && l.id in rows {
        var target := if l.row.ThresholdMet() then Finalized else if l.row.Confirmed() > 0 then Failed else Expired;
        if target == Failed {
          var _ := MarkFailedAndReleaseSlots(l.id);
        } else {
          var _ := UpdateStatus(l.id, target);
        }
      }
    }

    /** The list step of the sweep. */
    method ListDue(now: int) returns (order: seq<GroupBuyId>)
      requires sweep == []
      modifies this`sweep
      ensures IsDueList(rows, now, order) && ListsExpired(rows, now, order) && |sweep| == |order|
      ensures View() == Step(old(View()), SweepList(now, order))
    {
      order := ListExpiringBefore(now);
      sweep := ListedRows(rows, order);
    }

    /** Other sessions' steps and then the write of the next listed row. */
    method WriteNext(id: GroupBuyId, fails: set<GroupBuyId>, between: map<GroupBuyId, seq<Event>>)
      requires sweep != [] && NobodyElseSweeps(between)
      modifies this
      ensures View() == Step(Run(old(View()), Before(between, id)), SweepWrite(id !in fails))
      ensures |sweep| == old(|sweep|) - 1
    {
      OthersLeaveSweep(View(), Before(between, id));
      ExecuteAll(Before(between, id));
      WriteSwept(id !in fails);
    }

    /** The loop over the listed rows: other sessions' steps and then the write of each, which may fail. */
    method WriteAll(order: seq<GroupBuyId>, fails: set<GroupBuyId>, between: map<GroupBuyId, seq<Event>>)
      requires |sweep| == |order| && NobodyElseSweeps(between)
      modifies this
      ensures View() == Run(old(View()), WriteEvents(order, fails, between)) && sweep == []
    {
      ghost var listed := View();
      assert order[..0] == [] && Run(listed, WriteEvents([], fails, between)) == listed;
      for i := 0 to |order|
        invariant View() == Run(listed, WriteEvents(order[..i], fails, between)) && |sweep| == |order| - i
      {
        WriteNext(order[i], fails, between);
        OneMoreRow(listed, order, i, fails, between);
      }
      assert order[..|order|] == order;
    }

    /** The sweep, with other sessions' steps before each write; a write that fails is skipped. */
    method SweepExpired(now: int, fails: set<GroupBuyId>, between: map<GroupBuyId, seq<Event>>) returns (order: seq<GroupBuyId>)
      requires sweep == [] && NobodyElseSweeps(between)
      modifies this
      ensures IsDueList(old(rows), now, order) && ListsExpired(old(rows), now, order) && sweep == []
      ensures View() == Run(old(View()), SweepEvents(now, order, fails, between))
      ensures old(Inv(View())) && between == map[] ==>
                rows.Keys == old(rows).Keys && AllSettled(old(rows), rows, now, fails)
    {
      order := ListDue(now);
      WriteAll(order, fails, between);
      SweepIsListThenWrites(old(View()), now, order, fails, between);
      if between == map[] {
        UndisturbedRows(old(View()), now, order, fails);
      }
    }

    method Start(j: JoinerId, gb: GroupBuyId, user: UserId, qty: int)
      modifies this`joiners
      ensures View() == Step(old(View()), StartJoin(j, gb, user, qty))
      ensures j !in old(joiners) ==>
                j in joiners && var s := joiners[j];
                && (s.gb, s.user, s.qty) == (gb, user, if qty <= 0 then 1 else qty) && s.attempt == 1 && s.conflicts == []
                && s.phase == if user !in users then Done(NotFound) else if users[user] then Done(Blacklisted) else Ready
    {
      if j !in joiners {
        var phase := Ready;
        if user !in users {
          phase := Done(NotFound);
        } else if users[user] {
          phase := Done(Blacklisted);
        }
        joiners := joiners[j := Joiner(gb, user, if qty <= 0 then 1 else qty, 1, phase, [])];
      }
    }

    /** One step of any session. */
    method Execute(e: Event)
      modifies this
      ensures View() == Step(old(View()), e)
    {
      match e
      case AddUser(u) =>
        if u !in users {
          users := users[u := false];
        }
      case SetBlacklist(u, on) =>
        if u in users {
          users := users[u := on];
        }
      case DeleteUser(u) => HardDelete(u);
      case AddResource(r) => resources := resources + {r};
      case CreateGroupBuy(id, organizer, resource, input, now) =>
        if id !in rows {
          var _ := Create(id, organizer, resource, input, now);
        }
      case StartJoin(j, gb, user, qty) => Start(j, gb, user, qty);
      case ReadRow(j, now) =>
        if j in joiners && joiners[j].phase.Ready? {
          Read(j, now);
        }
      case CommitJoin(j) =>
        if j in joiners && joiners[j].phase.Holding? {
          var _ := Commit(j);
        }
      case SweepList(now, order) =>
        if sweep == [] && IsDueList(rows, now, order) {
          sweep := ListedRows(rows, order);
        }
      case SweepWrite(ok) =>
        if sweep != [] {
          WriteSwept(ok);
        }
    }

    method ExecuteAll(es: seq<Event>)
      modifies this
      ensures View() == Run(old(View()), es)
    {
      assert es[..0] == [];
      for i := 0 to |es|
        invariant View() == Run(old(View()), es[..i])
      {
        Execute(es[i]);
        assert es[..i + 1][..i] == es[..i];
      }
      assert es[..|es|] == es;
    }

    /** One try: the read, other sessions' steps, the commit. It ends the call, or loses its race
        and leaves the call ready for another try. */
    method JoinAtomic(j: JoinerId, now: int, between: seq<Event>, ghost w0: World, ghost es: seq<Event>)
      returns (o: Outcome, ghost es': seq<Event>)
      requires View() == Run(w0, es) && Inv(w0)
      requires j in joiners && joiners[j].phase.Ready?
      requires AllForeign(between, j)
      modifies this
      ensures View() == Run(w0, es') && j in joiners
      ensures TryEnds(old(joiners)[j], joiners[j], o) && (FromRead(o) || FromUpdate(o))
      ensures o == Joined ==> LastCommitIs(log, j, old(joiners)[j])
      ensures var s := old(joiners)[j]; ReadAnswers(old(rows), s.gb, s.qty, now, if FromRead(o) then Some(o) else None)
      ensures var s := old(joiners)[j];
              between == [] ==> CallAnswers(old(rows), old(parts), old(users), s.gb, s.user, s.qty, now, o)
      ensures ReadsLast(es', |es|, j, now) && es'[..|es|] == es
    {
      ghost var s := joiners[j];
      Read(j, now);
      es' := Extend(w0, es, [ReadRow(j, now)]);
      if joiners[j].phase.Done? {
        o := joiners[j].phase.outcome;
        ReadEndsCall(rows, parts, users, s.gb, s.user, s.qty, now, o);
      } else {
        o, es' := Update(j, between, w0, es');
        ReadThenForeign(es, j, now, between);
        if between == [] {
          UpdateEndsCall(old(rows), old(parts), old(users), s.gb, s.user, s.qty, now, o);
        }
      }
    }

    /** The rest of a try that passed its read: other sessions' steps and the commit. */
    method Update(j: JoinerId, between: seq<Event>, ghost w0: World, ghost es: seq<Event>)
      returns (o: Outcome, ghost es': seq<Event>)
      requires View() == Run(w0, es) && Inv(w0)
      requires j in joiners && joiners[j].phase.Holding?
      requires AllForeign(between, j)
      modifies this
      ensures View() == Run(w0, es') && es' == es + between + [CommitJoin(j)] && j in joiners
      ensures TryEnds(old(joiners)[j], joiners[j], o) && FromUpdate(o)
      ensures o == Joined ==> LastCommitIs(log, j, old(joiners)[j])
      ensures var s := old(joiners)[j];
              between == [] ==>
                UpdateAnswers(old(rows), old(parts), old(users), s.gb, s.user, s.qty, s.phase.snap.version, o)
    {
      es' := Interfere(j, w0, es, between);
      HolderHasRow(w0, es', j);
      o := Commit(j);
      es' := Extend(w0, es', [CommitJoin(j)]);
    }

    /** Other sessions' steps, and then a try. */
    method Try(j: JoinerId, now: int, before: seq<Event>, between: seq<Event>, ghost w0: World, ghost es: seq<Event>)
      returns (o: Outcome, ghost es': seq<Event>, ghost k: nat)
      requires View() == Run(w0, es) && Inv(w0)
      requires j in joiners && joiners[j].phase.Ready?
      requires AllForeign(before, j) && AllForeign(between, j)
      modifies this
      ensures View() == Run(w0, es') && j in joiners
      ensures TryEnds(old(joiners)[j], joiners[j], o) && (FromRead(o) || FromUpdate(o))
      ensures o == Joined ==> LastCommitIs(log, j, old(joiners)[j])
      ensures AnsweredFrom(w0, es', k, j, old(joiners)[j].gb, old(joiners)[j].qty, o)
      ensures var s := old(joiners)[j];
              before == [] && between == [] ==>
                CallAnswers(old(rows), old(parts), old(users), s.gb, s.user, s.qty, now, o)
    {
      es' := Interfere(j, w0, es, before);
      k := |es'|;
      o, es' := JoinAtomic(j, now, between, w0, es');
    }

    /** Up to three tries; only a lost race is tried again. */
    method Tries(j: JoinerId, nows: seq<int>, before: seq<seq<Event>>, between: seq<seq<Event>>, ghost w0: World, ghost es: seq<Event>)
      returns (o: Outcome, ghost es': seq<Event>, ghost k: nat)
      requires View() == Run(w0, es) && Inv(w0)
      requires j in joiners && joiners[j].phase.Ready? && joiners[j].attempt == 1
      requires |nows| == |before| == |between| == MAX_RETRIES
      requires forall i :: 0 <= i < MAX_RETRIES ==> AllForeign(before[i], j) && AllForeign(between[i], j)
      modifies this
      ensures View() == Run(w0, es') && j in joiners && joiners[j].phase == Done(o) && (FromRead(o) || FromUpdate(o))
      ensures o == Joined ==> LastCommitIs(log, j, old(joiners)[j])
      ensures AnsweredFrom(w0, es', k, j, old(joiners)[j].gb, old(joiners)[j].qty, o)
      ensures var s := old(joiners)[j];
              before[0] == [] && between[0] == [] ==>
                CallAnswers(old(rows), old(parts), old(users), s.gb, s.user, s.qty, nows[0], o)
    {
      ghost var s := joiners[j];
      o, es', k := Try(j, nows[0], before[0], between[0], w0, es);
      var attempt := 1;
      while o == OptimisticLock && attempt < MAX_RETRIES
        invariant 1 <= attempt <= MAX_RETRIES && View() == Run(w0, es') && j in joiners && (FromRead(o) || FromUpdate(o))
        invariant var s' := joiners[j];
                  && (s'.gb, s'.user, s'.qty) == (s.gb, s.user, s.qty)
                  && if o == OptimisticLock && attempt < MAX_RETRIES then s'.phase.Ready? && s'.attempt == attempt + 1
                     else s'.phase == Done(o)
        invariant o == Joined ==> LastCommitIs(log, j, s)
        invariant AnsweredFrom(w0, es', k, j, s.gb, s.qty, o)
        invariant before[0] == [] && between[0] == [] ==>
                    CallAnswers(old(rows), old(parts), old(users), s.gb, s.user, s.qty, nows[0], o)
        decreases MAX_RETRIES - attempt
      {
        o, es', k := Try(j, nows[attempt], before[attempt], between[attempt], w0, es');
        attempt := attempt + 1;
      }
    }

    /** The service's Join: the user's gate, then up to three tries, each a read and a commit with
        other sessions' steps before and between. It commits its seats once or not at all, gives up
        only after three lost races, and is refused for what its last read, event `k` of the run,
        has found. */
    method Join(j: JoinerId, gb: GroupBuyId, user: UserId, qty: int, nows: seq<int>,
                before: seq<seq<Event>>, between: seq<seq<Event>>)
      returns (o: Outcome, ghost es: seq<Event>, ghost k: nat)
      requires Inv(View()) && j !in joiners
      requires |nows| == |before| == |between| == MAX_RETRIES
      requires forall i :: 0 <= i < MAX_RETRIES ==> AllForeign(before[i], j) && AllForeign(between[i], j)
      modifies this
      ensures View() == Run(old(View()), es) && Inv(View())
      ensures j in joiners && joiners[j].phase == Done(o)
      ensures o == Joined ==>
                && log != [] && log[|log| - 1].joiner == j
                && log[|log| - 1].part == Participant(gb, user, if qty <= 0 then 1 else qty)
      ensures CommitsOf(log, j) == if o == Joined then 1 else 0
      ensures user !in old(users) ==> o == NotFound
      ensures o == Blacklisted <==> user in old(users) && old(users)[user]
      ensures o == OptimisticLock ==> |joiners[j].conflicts| == 3
      ensures user in old(users) && !old(users)[user] ==>
                AnsweredFrom(old(View()), es, k, j, gb, if qty <= 0 then 1 else qty, o)
      ensures user in old(users) && !old(users)[user] && before[0] == [] && between[0] == [] ==>
                CallAnswers(old(rows), old(parts), old(users), gb, user, if qty <= 0 then 1 else qty, nows[0], o)
    {
      ghost var w0 := View();
      Start(j, gb, user, qty);
      k := 0;
      es := Extend(w0, [], [StartJoin(j, gb, user, qty)]);
      if joiners[j].phase.Done? {
        o := joiners[j].phase.outcome;
      } else {
        o, es, k := Tries(j, nows, before, between, w0, es);
      }
      OutcomeOfRun(w0, es, j);
    }

    /** Other sessions run `others`; this call's own record stays as it is. */
    method Interfere(j: JoinerId, ghost w0: World, ghost es: seq<Event>, others: seq<Event>)
      returns (ghost es': seq<Event>)
      requires View() == Run(w0, es) && j in joiners
      requires AllForeign(others, j)
      modifies this
      ensures View() == Run(w0, es') && es' == es + others
      ensures others == [] ==> View() == old(View())
      ensures j in joiners && joiners[j] == old(joiners)[j]
    {
      ForeignStepsLeaveJoiner(View(), others, j);
      ExecuteAll(others);
      RunAppend(w0, es, others);
      es' := es + others;
    }

    /** Records the step just taken in the run. */
    ghost method Extend(w0: World, es: seq<Event>, last: seq<Event>) returns (es': seq<Event>)
      requires |last| == 1 && View() == Step(Run(w0, es), last[0])
      ensures View() == Run(w0, es') && es' == es + last
    {
      es' := es + last;
      assert es'[..|es'| - 1] == es;
    }
  }

  // ---- what a call is told, over the columns ----

  ghost predicate OpenBefore(g: GroupBuy, now: int) { (g.status == Open || g.status == Met) && now < g.deadline }

  /** What the read of a try answers, `None` when it lets the call through to its update. */
  ghost predicate ReadAnswers(rows: map<GroupBuyId, GroupBuy>, gb: GroupBuyId, qty: nat, now: int, answer: Option<Outcome>) {
    && (answer == Some(NotFound) <==> gb !in rows)
    && (answer == Some(NotOpen) <==> gb in rows && rows[gb].status != Open && rows[gb].status != Met)
    && (answer == Some(DeadlinePassed) <==>
          gb in rows && (rows[gb].status == Open || rows[gb].status == Met) && rows[gb].deadline <= now)
    && (answer == Some(Oversold) <==> gb in rows && OpenBefore(rows[gb], now) && rows[gb].remaining < qty)
    && (answer == None <==> gb in rows && OpenBefore(rows[gb], now) && qty <= rows[gb].remaining)
  }

  ghost predicate FromRead(o: Outcome) { o in {NotFound, NotOpen, DeadlinePassed, Oversold} }

  ghost predicate FromUpdate(o: Outcome) { o in {Joined, OptimisticLock, AlreadyJoined, UserGone} }

  /** What the update and the insert answer. */
  ghost predicate UpdateAnswers(rows: map<GroupBuyId, GroupBuy>, parts: seq<Participant>, users: map<UserId, bool>,
                                gb: GroupBuyId, user: UserId, qty: nat, version: int, o: Outcome)
  {
    var updated := gb in rows && rows[gb].version == version && qty <= rows[gb].remaining;
    var again := exists p :: p in parts && p.gb == gb && p.user == user;
    && (o == OptimisticLock <==> !updated)
    && (o == AlreadyJoined <==> updated && again)
    && (o == UserGone <==> updated && !again && user !in users)
    && (o == Joined <==> updated && !again && user in users)
  }

  lemma CommitTablesAnswers(db: Tables, gb: GroupBuyId, user: UserId, qty: nat, version: int)
    ensures UpdateAnswers(db.rows, db.parts, db.users, gb, user, qty, version, CommitTables(db, gb, user, qty, version).0)
  {
    NoRowOfUser(db.parts, gb, user);
  }

  /** What a try answers when nothing happens between its read and its update. */
  ghost predicate CallAnswers(rows: map<GroupBuyId, GroupBuy>, parts: seq<Participant>, users: map<UserId, bool>,
                              gb: GroupBuyId, user: UserId, qty: nat, now: int, o: Outcome)
  {
    var through := gb in rows && OpenBefore(rows[gb], now) && qty <= rows[gb].remaining;
    var again := exists p :: p in parts && p.gb == gb && p.user == user;
    && (o == Joined <==> through && !again && user in users)
    && (o == AlreadyJoined <==> through && again)
    && (o == UserGone <==> through && !again && user !in users)
    && ReadAnswers(rows, gb, qty, now, if through then None else Some(o))
  }

  /** The run's event `k` is a read of `j`, and there is none after it. */
  ghost predicate ReadsLast(es: seq<Event>, k: nat, j: JoinerId, now: int) {
    && k < |es| && es[k] == ReadRow(j, now)
    && forall i :: k < i < |es| && es[i].ReadRow? ==> es[i].j != j
  }

  /** The call is refused, if it is, for what the last read of the run, its event `k`, has found. */
  ghost predicate AnsweredFrom(w0: World, es: seq<Event>, k: nat, j: JoinerId, gb: GroupBuyId, qty: nat, o: Outcome) {
    && k < |es| && es[k].ReadRow? && ReadsLast(es, k, j, es[k].now)
    && ReadAnswers(Run(w0, es[..k]).db.rows, gb, qty, es[k].now, if FromRead(o) then Some(o) else None)
  }

  /** A try ends the call with its outcome, or leaves it ready for the next. */
  ghost predicate TryEnds(s: Joiner, s': Joiner, o: Outcome) {
    && (s'.gb, s'.user, s'.qty) == (s.gb, s.user, s.qty)
    && if o == OptimisticLock && s.attempt < MAX_RETRIES
       then s'.phase.Ready? && s'.attempt == s.attempt + 1
       else s'.phase == Done(o)
  }

  ghost predicate LastCommitIs(log: seq<GroupBuyProtocol.Commit>, j: JoinerId, s: Joiner) {
    log != [] && log[|log| - 1].joiner == j && log[|log| - 1].part == Participant(s.gb, s.user, s.qty)
  }

  lemma ReadThenForeign(es: seq<Event>, j: JoinerId, now: int, between: seq<Event>)
    requires AllForeign(between, j)
    ensures var es' := es + [ReadRow(j, now)] + between + [CommitJoin(j)];
            ReadsLast(es', |es|, j, now) && es'[..|es|] == es
  {
    var es' := es + [ReadRow(j, now)] + between + [CommitJoin(j)];
    forall i | |es| < i < |es'| && es'[i].ReadRow? ensures es'[i].j != j {
      assert es'[i] in between;
    }
  }

  lemma ReadEndsCall(rows: map<GroupBuyId, GroupBuy>, parts: seq<Participant>, users: map<UserId, bool>,
                     gb: GroupBuyId, user: UserId, qty: nat, now: int, o: Outcome)
    requires ReadAnswers(rows, gb, qty, now, Some(o)) && FromRead(o)
    ensures CallAnswers(rows, parts, users, gb, user, qty, now, o)
  {
  }

  lemma UpdateEndsCall(rows: map<GroupBuyId, GroupBuy>, parts: seq<Participant>, users: map<UserId, bool>,
                       gb: GroupBuyId, user: UserId, qty: nat, now: int, o: Outcome)
    requires ReadAnswers(rows, gb, qty, now, None)
    requires UpdateAnswers(rows, parts, users, gb, user, qty, rows[gb].version, o)
    ensures CallAnswers(rows, parts, users, gb, user, qty, now, o)
  {
  }

  /** Exactly the campaigns whose deadline has come and that still accept joins, each once. */
  ghost predicate ListsExpired(rows: map<GroupBuyId, GroupBuy>, now: int, order: seq<GroupBuyId>) {
    && (forall i, k :: 0 <= i < k < |order| ==> order[i] != order[k])
    && (forall id :: id in order <==>
          id in rows && rows[id].deadline <= now && (rows[id].status == Open || rows[id].status == Met))
  }

  lemma UndisturbedRows(w: World, now: int, order: seq<GroupBuyId>, fails: set<GroupBuyId>)
    requires w.sweep == [] && IsDueList(w.db.rows, now, order)
    ensures var rows' := Run(w, SweepEvents(now, order, fails, map[])).db.rows;
            Inv(w) ==> rows'.Keys == w.db.rows.Keys && AllSettled(w.db.rows, rows', now, fails)
  {
    WholeSweep(w, now, order, fails);
    if Inv(w) {
      SweptRowsSettle(w, now, order, fails);
    }
  }

  /** The sweep runs in one sequential job; other sessions take no step of it. */
  ghost predicate NobodyElseSweeps(between: map<GroupBuyId, seq<Event>>) {
    forall id :: id in between ==> NoSweepStep(between[id])
  }

  ghost predicate NoSweepStep(es: seq<Event>) { forall e :: e in es ==> !e.SweepList? && !e.SweepWrite? }

  lemma {:induction false} OthersLeaveSweep(w: World, es: seq<Event>)
    requires NoSweepStep(es)
    ensures Run(w, es).sweep == w.sweep
  {
    if es != [] {
      assert es[|es| - 1] in es;
      assert forall e :: e in es[..|es| - 1] ==> e in es;
      OthersLeaveSweep(w, es[..|es| - 1]);
    }
  }

  /** One more row of the sweep: the other sessions' steps, then the write. */
  lemma {:induction false} OneMoreRow(w: World, order: seq<GroupBuyId>, i: nat, fails: set<GroupBuyId>, between: map<GroupBuyId, seq<Event>>)
    requires i < |order|
    ensures var others, write := Before(between, order[i]), SweepWrite(order[i] !in fails);
            Run(w, WriteEvents(order[..i + 1], fails, between))
            == Step(Run(Run(w, WriteEvents(order[..i], fails, between)), others), write)
  {
    var done, others, write := WriteEvents(order[..i], fails, between), Before(between, order[i]), SweepWrite(order[i] !in fails);
    assert order[..i + 1][..i] == order[..i];
    assert WriteEvents(order[..i + 1], fails, between) == done + others + [write];
    RunAppend(w, done, others);
    RunOneMore(w, done + others, write);
  }

  lemma HolderHasRow(w: World, es: seq<Event>, j: JoinerId)
    requires Inv(w) && j in Run(w, es).joiners && Run(w, es).joiners[j].phase.Holding?
    ensures Run(w, es).joiners[j].gb in Run(w, es).db.rows
  {
    RunKeeps(w, es);
    assert JoinerInv(Run(w, es).db.rows, Run(w, es).joiners[j]);
  }

  /** A call that is done committed once or never, and one that gives up lost three races. */
  lemma {:induction false} OutcomeOfRun(w: World, es: seq<Event>, j: JoinerId)
    requires Inv(w) && j in Run(w, es).joiners && Run(w, es).joiners[j].phase.Done?
    ensures Inv(Run(w, es))
    ensures var s := Run(w, es).joiners[j];
            && CommitsOf(Run(w, es).log, j) == (if s.phase == Done(Joined) then 1 else 0)
            && (s.phase == Done(OptimisticLock) ==> |s.conflicts| == 3)
  {
    RunKeeps(w, es);
    assert JoinerInv(Run(w, es).db.rows, Run(w, es).joiners[j]);
  }

  ghost predicate ForeignTo(e: Event, j: JoinerId) {
    match e
    case StartJoin(k, _, _, _) => k != j
    case ReadRow(k, _) => k != j
    case CommitJoin(k) => k != j
    case _ => true
  }

  ghost predicate AllForeign(es: seq<Event>, j: JoinerId) {
    forall e :: e in es ==> ForeignTo(e, j)
  }

  lemma {:induction false} ForeignStepsLeaveJoiner(w: World, es: seq<Event>, j: JoinerId)
    requires j in w.joiners && AllForeign(es, j)
    ensures j in Run(w, es).joiners && Run(w, es).joiners[j] == w.joiners[j]
  {
    if es != [] {
      ForeignStepsLeaveJoiner(w, es[..|es| - 1], j);
      assert es[|es| - 1] in es;
    }
  }
}
