/** The deadline sweep: what it does when no join straddles it, and exactly which interleavings
    break the claim that a campaign that ended without its threshold holds no seats. */
module GroupBuySweep {
  import opened Wrappers
  import opened GroupBuyDomain
  import opened GroupBuyProtocol
  import opened GroupBuySafety

  /** The claim made beside the sweep: expired and failed campaigns hold no seats. */
  ghost predicate ZeroSeats(rows: map<GroupBuyId, GroupBuy>) {
    forall id :: id in rows && (rows[id].status == Expired || rows[id].status == Failed)
                 ==> rows[id].remaining == rows[id].capacity
  }

  // ---- one whole sweep ----

  /** What other sessions do before the write of a row. */
  function Before(between: map<GroupBuyId, seq<Event>>, id: GroupBuyId): seq<Event> {
    if id in between then between[id] else []
  }

  /** One write a listed row; those of `fails` fail and are skipped. */
  function WriteEvents(order: seq<GroupBuyId>, fails: set<GroupBuyId>, between: map<GroupBuyId, seq<Event>>): seq<Event> {
    if order == [] then []
    else
      var id := order[|order| - 1];
      WriteEvents(order[..|order| - 1], fails, between) + Before(between, id) + [SweepWrite(id !in fails)]
  }

  function SweepEvents(now: int, order: seq<GroupBuyId>, fails: set<GroupBuyId>, between: map<GroupBuyId, seq<Event>>): seq<Event> {
    [SweepList(now, order)] + WriteEvents(order, fails, between)
  }

  function SweptRows(rows: map<GroupBuyId, GroupBuy>, order: seq<GroupBuyId>, fails: set<GroupBuyId>): map<GroupBuyId, GroupBuy> {
    map id | id in rows :: if id in order && id !in fails then Swept(rows[id], rows[id]) else rows[id]
  }

  lemma {:induction false} WritesAfterList(w: World, now: int, order: seq<GroupBuyId>, fails: set<GroupBuyId>, n: nat)
    requires w.sweep == [] && IsDueList(w.db.rows, now, order) && n <= |order|
    ensures var listed := ListedRows(w.db.rows, order);
            Run(w.(sweep := listed), WriteEvents(order[..n], fails, map[]))
            == w.(sweep := listed[n..], db := w.db.(rows := SweptRows(w.db.rows, order[..n], fails)))
  {
    var listed := ListedRows(w.db.rows, order);
    if n == 0 {
      assert SweptRows(w.db.rows, order[..0], fails) == w.db.rows;
      assert listed[0..] == listed;
    } else {
      var id, done := order[n - 1], order[..n - 1];
      assert order[..n][..n - 1] == done;
      assert WriteEvents(order[..n], fails, map[]) == WriteEvents(done, fails, map[]) + [SweepWrite(id !in fails)];
      WritesAfterList(w, now, order, fails, n - 1);
      OneMoreWrite(w.(sweep := listed), done, fails, id);
      var v := Run(w.(sweep := listed), WriteEvents(done, fails, map[]));
      assert v.sweep[0] == listed[n - 1] && v.sweep[1..] == listed[n..];
      SweepOneMore(w.db.rows, order, fails, n - 1);
      WriteOfFresh(v, id !in fails);
    }
  }

  /** The write of a row that is as it was listed. */
  lemma WriteOfFresh(w: World, ok: bool)
    requires w.sweep != [] && w.sweep[0].id in w.db.rows && w.db.rows[w.sweep[0].id] == w.sweep[0].row
    ensures var id, row := w.sweep[0].id, w.sweep[0].row;
            Step(w, SweepWrite(ok))
            == w.(sweep := w.sweep[1..],
                  db := w.db.(rows := if ok then w.db.rows[id := Swept(row, row)] else w.db.rows))
  {
  }

  lemma {:induction false} OneMoreWrite(w: World, done: seq<GroupBuyId>, fails: set<GroupBuyId>, id: GroupBuyId)
    ensures Run(w, WriteEvents(done, fails, map[]) + [SweepWrite(id !in fails)])
            == Step(Run(w, WriteEvents(done, fails, map[])), SweepWrite(id !in fails))
  {
    RunOneMore(w, WriteEvents(done, fails, map[]), SweepWrite(id !in fails));
  }

  lemma RunOneMore(w: World, es: seq<Event>, e: Event)
    ensures Run(w, es + [e]) == Step(Run(w, es), e)
  {
    assert (es + [e])[..|es + [e]| - 1] == es;
  }

  lemma SweepOneMore(rows: map<GroupBuyId, GroupBuy>, order: seq<GroupBuyId>, fails: set<GroupBuyId>, n: nat)
    requires n < |order| && order[n] in rows && forall i :: 0 <= i < n ==> order[i] != order[n]
    ensures var id, done := order[n], SweptRows(rows, order[..n], fails);
            && done[id] == rows[id]
            && (if id !in fails then done[id := Swept(rows[id], done[id])] else done) == SweptRows(rows, order[..n + 1], fails)
  {
    assert order[..n + 1] == order[..n] + [order[n]];
    assert order[n] !in order[..n];
  }

  lemma SweepIsListThenWrites(w: World, now: int, order: seq<GroupBuyId>, fails: set<GroupBuyId>, between: map<GroupBuyId, seq<Event>>)
    ensures Run(w, SweepEvents(now, order, fails, between))
            == Run(Step(w, SweepList(now, order)), WriteEvents(order, fails, between))
  {
    RunAppend(w, [SweepList(now, order)], WriteEvents(order, fails, between));
    RunOneMore(w, [], SweepList(now, order));
    assert [] + [SweepList(now, order)] == [SweepList(now, order)];
  }

  /** A sweep with nothing in between writes exactly the due rows whose writes do not fail. */
  lemma WholeSweep(w: World, now: int, order: seq<GroupBuyId>, fails: set<GroupBuyId>)
    requires w.sweep == [] && IsDueList(w.db.rows, now, order)
    ensures Run(w, SweepEvents(now, order, fails, map[]))
            == w.(db := w.db.(rows := SweptRows(w.db.rows, order, fails)))
  {
    SweepIsListThenWrites(w, now, order, fails, map[]);
    WritesAfterList(w, now, order, fails, |order|);
    assert order[..|order|] == order;
    assert ListedRows(w.db.rows, order)[|order|..] == [];
  }

  // ---- runs in which no join straddles a sweep ----

  /** Nobody holds a snapshot of a campaign that is listed for a write. */
  ghost predicate NobodyHoldsListed(w: World) {
    forall j, i :: j in w.joiners && w.joiners[j].phase.Holding? && 0 <= i < |w.sweep|
                   ==> w.sweep[i].id != w.joiners[j].gb
  }

  /** At no time is a snapshot held of a campaign that is listed for a write. Everything else may
      interleave with the sweep, joins on other campaigns among it, and its writes may fail. */
  ghost predicate Quiet(es: seq<Event>) {
    NobodyHoldsListed(Run(Init(), es)) && (es != [] ==> Quiet(es[..|es| - 1]))
  }

  /** Held snapshots are of rows that still accept joins. */
  ghost predicate HoldersCanJoin(rows: map<GroupBuyId, GroupBuy>, joiners: map<JoinerId, Joiner>) {
    forall j :: j in joiners && joiners[j].phase.Holding?
                ==> joiners[j].gb in rows && rows[joiners[j].gb].status.AcceptsJoins()
  }

  /** Listed rows are as they were listed. */
  ghost predicate ListIsFresh(rows: map<GroupBuyId, GroupBuy>, sweep: seq<Listed>) {
    forall i :: 0 <= i < |sweep| ==> sweep[i].id in rows && rows[sweep[i].id] == sweep[i].row
  }

  ghost predicate QuietInv(w: World) {
    ZeroSeats(w.db.rows) && HoldersCanJoin(w.db.rows, w.joiners) && ListIsFresh(w.db.rows, w.sweep)
  }

  lemma CommitChangesOneRow(w: World, j: JoinerId)
    requires j in w.joiners && w.joiners[j].phase.Holding?
    ensures var s, rows := w.joiners[j], w.db.rows;
            if CommitTables(w.db, s.gb, s.user, s.qty, s.phase.snap.version).0 == Joined
            then s.gb in rows && CommitStep(w, j).db.rows == rows[s.gb := Decrement(rows[s.gb], s.qty)]
            else CommitStep(w, j).db == w.db
  {
  }

  /** A commit changes at most the row its call holds, which keeps accepting joins. */
  lemma CommitKeepsQuiet(w: World, j: JoinerId)
    requires QuietInv(w) && NobodyHoldsListed(w) && j in w.joiners && w.joiners[j].phase.Holding?
    ensures QuietInv(CommitStep(w, j))
  {
    CommitChangesOneRow(w, j);
  }

  /** A write changes the first listed row, which nobody holds. */
  lemma WriteKeepsQuiet(w: World, ok: bool)
    requires Inv(w) && QuietInv(w) && NobodyHoldsListed(w) && w.sweep != []
    ensures QuietInv(Step(w, SweepWrite(ok)))
  {
    var l, w' := w.sweep[0], Step(w, SweepWrite(ok));
    assert ListedInv(w.db.rows, l);
    assert RowInv(w.db.rows[l.id], Sold(w.log, l.id), Joins(w.log, l.id));
    forall i | 0 <= i < |w'.sweep| ensures w'.sweep[i].id in w'.db.rows && w'.db.rows[w'.sweep[i].id] == w'.sweep[i].row {
      assert w'.sweep[i] == w.sweep[i + 1];
    }
  }

  lemma StepKeepsQuiet(w: World, e: Event)
    requires Inv(w) && QuietInv(w) && NobodyHoldsListed(w)
    ensures QuietInv(Step(w, e))
  {
    match e
    case CommitJoin(j) =>
      if j in w.joiners && w.joiners[j].phase.Holding? {
        CommitKeepsQuiet(w, j);
      }
    case SweepWrite(ok) =>
      if w.sweep != [] {
        WriteKeepsQuiet(w, ok);
      }
    case _ =>
  }

  lemma {:induction false} QuietRunKeeps(es: seq<Event>)
    requires Quiet(es)
    ensures Inv(Run(Init(), es)) && QuietInv(Run(Init(), es))
  {
    RunKeeps(Init(), es);
    if es != [] {
      QuietRunKeeps(es[..|es| - 1]);
      StepKeepsQuiet(Run(Init(), es[..|es| - 1]), es[|es| - 1]);
    }
  }

  /** In every run in which no join straddles a sweep, expired and failed campaigns hold no seats. */
  lemma {:induction false} QuietRunsReleaseSeats(es: seq<Event>, id: GroupBuyId)
    requires Quiet(es) && id in Run(Init(), es).db.rows
    ensures var g := Run(Init(), es).db.rows[id];
            g.status == Expired || g.status == Failed ==> g.Confirmed() == 0
  {
    QuietRunKeeps(es);
  }

  /** A due campaign as the sweep settles it: finalized, failed with its seats released, or expired
      when nobody joined. */
  ghost predicate Settled(g: GroupBuy, g': GroupBuy) {
    if g.Confirmed() >= g.threshold then g' == g.(status := Finalized)
    else if g.Confirmed() > 0
    then g' == g.(status := Failed, remaining := g.capacity, version := g.version + 1)
    else g' == g.(status := Expired) && g'.remaining == g'.capacity
  }

  lemma SweptIsSettled(g: GroupBuy, sold: nat, joins: nat)
    requires RowInv(g, sold, joins) && g.status.AcceptsJoins()
    ensures Settled(g, Swept(g, g)) && !Swept(g, g).status.AcceptsJoins()
  {
  }

  lemma EndedRowStays(w: World, e: Event, id: GroupBuyId)
    requires Inv(w) && QuietInv(w) && NobodyHoldsListed(w)
    requires id in w.db.rows && !w.db.rows[id].status.AcceptsJoins()
    ensures id in Step(w, e).db.rows && Step(w, e).db.rows[id] == w.db.rows[id]
  {
    if e.CommitJoin? && e.j in w.joiners && w.joiners[e.j].phase.Holding? {
      CommitChangesOneRow(w, e.j);
    } else if e.SweepWrite? && w.sweep != [] {
      assert ListedInv(w.db.rows, w.sweep[0]);
    }
  }

  /** In such a run, a write of the sweep that does not fail settles its campaign by the count it
      has, whatever happened since the campaign was listed, and settles it for good. */
  lemma {:induction false} SweepSettlesForGood(es: seq<Event>, more: seq<Event>)
    requires Run(Init(), es).sweep != [] && Quiet(es + [SweepWrite(true)] + more)
    ensures var w := Run(Init(), es);
            var id, w' := w.sweep[0].id, Run(Init(), es + [SweepWrite(true)] + more);
            && id in w.db.rows && w.db.rows[id].status.AcceptsJoins()
            && id in w'.db.rows && Settled(w.db.rows[id], w'.db.rows[id]) && !w'.db.rows[id].status.AcceptsJoins()
  {
    var w, es' := Run(Init(), es), es + [SweepWrite(true)] + more;
    if more == [] {
      assert es' == es + [SweepWrite(true)] && es'[..|es'| - 1] == es;
      QuietRunKeeps(es);
      var l := w.sweep[0];
      assert ListedInv(w.db.rows, l) && l.row == w.db.rows[l.id];
      SweptIsSettled(w.db.rows[l.id], Sold(w.log, l.id), Joins(w.log, l.id));
    } else {
      var init := more[..|more| - 1];
      assert es'[..|es'| - 1] == es + [SweepWrite(true)] + init;
      SweepSettlesForGood(es, init);
      QuietRunKeeps(es + [SweepWrite(true)] + init);
      EndedRowStays(Run(Init(), es + [SweepWrite(true)] + init), more[|more| - 1], w.sweep[0].id);
    }
  }

  /** A sweep that nothing disturbs, some of whose writes fail, from any reachable state: it settles
      every other due campaign, leaves the rest alone, and leaves due exactly those whose writes
      failed, so that when none did a second sweep at the same instant changes nothing. */
  lemma {:induction false} UndisturbedSweepSettles(es: seq<Event>, now: int, order: seq<GroupBuyId>, fails: set<GroupBuyId>, again: seq<GroupBuyId>)
    requires Run(Init(), es).sweep == [] && IsDueList(Run(Init(), es).db.rows, now, order)
    requires IsDueList(Run(Init(), es + SweepEvents(now, order, fails, map[])).db.rows, now, again)
    ensures var w := Run(Init(), es);
            var swept := es + SweepEvents(now, order, fails, map[]);
            var w' := Run(Init(), swept);
            && w'.db.rows.Keys == w.db.rows.Keys
            && AllSettled(w.db.rows, w'.db.rows, now, fails)
            && (forall id :: id in again <==> id in order && id in fails)
            && (fails == {} ==> Run(Init(), swept + SweepEvents(now, again, {}, map[])) == w')
  {
    var w, swept := Run(Init(), es), es + SweepEvents(now, order, fails, map[]);
    RunKeeps(Init(), es);
    RunAppend(Init(), es, SweepEvents(now, order, fails, map[]));
    WholeSweep(w, now, order, fails);
    SweptRowsSettle(w, now, order, fails);
    StillDue(w, now, order, fails, again);
    if fails == {} {
      RunAppend(Init(), swept, SweepEvents(now, again, {}, map[]));
      HeadIn(again);
      SweepOfNothing(Run(Init(), swept), now);
    }
  }

  lemma SweepOfNothing(w: World, now: int)
    requires w.sweep == [] && IsDueList(w.db.rows, now, [])
    ensures Run(w, SweepEvents(now, [], {}, map[])) == w
  {
    WholeSweep(w, now, [], {});
    assert SweptRows(w.db.rows, [], {}) == w.db.rows;
  }

  /** Due campaigns are settled unless their writes failed, and no other row changes. */
  ghost predicate AllSettled(rows: map<GroupBuyId, GroupBuy>, rows': map<GroupBuyId, GroupBuy>, now: int, fails: set<GroupBuyId>)
    requires rows.Keys == rows'.Keys
  {
    forall id :: id in rows ==>
      if rows[id].deadline <= now && (rows[id].status == Open || rows[id].status == Met) && id !in fails
      then Settled(rows[id], rows'[id])
      else rows'[id] == rows[id]
  }

  lemma HeadIn<T>(s: seq<T>)
    ensures s != [] ==> s[0] in s
  {
  }

  lemma SweptRowsSettle(w: World, now: int, order: seq<GroupBuyId>, fails: set<GroupBuyId>)
    requires Inv(w) && IsDueList(w.db.rows, now, order)
    ensures var rows' := SweptRows(w.db.rows, order, fails);
            rows'.Keys == w.db.rows.Keys && AllSettled(w.db.rows, rows', now, fails)
    ensures forall id :: id in w.db.rows ==>
              (Due(SweptRows(w.db.rows, order, fails)[id], now) <==> Due(w.db.rows[id], now) && id in fails)
  {
    var rows, rows' := w.db.rows, SweptRows(w.db.rows, order, fails);
    forall id | id in rows
      ensures if Due(rows[id], now) && id !in fails then Settled(rows[id], rows'[id]) else rows'[id] == rows[id]
      ensures Due(rows'[id], now) <==> Due(rows[id], now) && id in fails
    {
      assert id in rows.Keys;
      if Due(rows[id], now) && id !in fails {
        SweptIsSettled(rows[id], Sold(w.log, id), Joins(w.log, id));
      }
    }
  }

  lemma StillDue(w: World, now: int, order: seq<GroupBuyId>, fails: set<GroupBuyId>, again: seq<GroupBuyId>)
    requires Inv(w) && IsDueList(w.db.rows, now, order) && IsDueList(SweptRows(w.db.rows, order, fails), now, again)
    ensures forall id :: id in again <==> id in order && id in fails
  {
    var rows, rows' := w.db.rows, SweptRows(w.db.rows, order, fails);
    SweptRowsSettle(w, now, order, fails);
    forall id ensures id in again <==> id in order && id in fails {
      assert id in rows'.Keys <==> id in rows.Keys;
      assert id in rows' ==> id in rows'.Keys;
    }
  }

  // ---- what a join that straddles the sweep can do ----

  /** The commit of `j` goes through: nobody changed the version since, the user is there, and has
      not joined before. */
  predicate Lands(w: World, j: JoinerId)
    requires j in w.joiners && w.joiners[j].phase.Holding?
  {
    var s := w.joiners[j];
    && s.gb in w.db.rows && w.db.rows[s.gb].version == s.phase.snap.version
    && s.user in w.db.users && RowsOf(w.db.parts, s.gb, s.user) == 0
  }

  lemma LandsExactly(w: World, j: JoinerId)
    requires Inv(w) && j in w.joiners && w.joiners[j].phase.Holding?
    ensures var s := w.joiners[j];
            CommitTables(w.db, s.gb, s.user, s.qty, s.phase.snap.version).0 == Joined <==> Lands(w, j)
  {
    assert JoinerInv(w.db.rows, w.joiners[j]);
  }

  /** The two steps that leave seats on an ended campaign: expiring a row that was joined after it
      was listed, and a join that commits on an expired row without reaching the threshold. */
  ghost predicate Straddles(w: World, e: Event) {
    match e
    case SweepWrite(ok) =>
      && ok && w.sweep != [] && w.sweep[0].id in w.db.rows
      && Target(w.sweep[0].row) == Expired && w.db.rows[w.sweep[0].id].Confirmed() > 0
    case CommitJoin(j) =>
      && j in w.joiners && w.joiners[j].phase.Holding? && Lands(w, j)
      && var s := w.joiners[j];
         && w.db.rows[s.gb].status == Expired
         && w.db.rows[s.gb].Confirmed() + s.qty < w.db.rows[s.gb].threshold
    case _ => false
  }

  lemma WriteZeroSeats(w: World, ok: bool)
    requires Inv(w) && ZeroSeats(w.db.rows)
    ensures ZeroSeats(Step(w, SweepWrite(ok)).db.rows) <==> !Straddles(w, SweepWrite(ok))
  {
    if ok && w.sweep != [] {
      var l := w.sweep[0];
      assert ListedInv(w.db.rows, l);
      assert RowInv(w.db.rows[l.id], Sold(w.log, l.id), Joins(w.log, l.id));
      var rows' := w.db.rows[l.id := Swept(l.row, w.db.rows[l.id])];
      assert Step(w, SweepWrite(ok)).db.rows == rows';
      assert rows'[l.id].remaining == rows'[l.id].capacity <==> rows'[l.id].Confirmed() == 0;
    }
  }

  lemma CommitZeroSeats(w: World, j: JoinerId)
    requires Inv(w) && ZeroSeats(w.db.rows)
    ensures ZeroSeats(Step(w, CommitJoin(j)).db.rows) <==> !Straddles(w, CommitJoin(j))
  {
    if j in w.joiners && w.joiners[j].phase.Holding? {
      var s := w.joiners[j];
      CommitChangesOneRow(w, j);
      LandsExactly(w, j);
      assert JoinerInv(w.db.rows, s);
      assert RowInv(w.db.rows[s.gb], Sold(w.log, s.gb), Joins(w.log, s.gb));
      if Lands(w, j) {
        var rows' := w.db.rows[s.gb := Decrement(w.db.rows[s.gb], s.qty)];
        assert ZeroSeats(rows') <==> rows'[s.gb].status != Expired;
      }
    }
  }

  lemma StepZeroSeats(w: World, e: Event)
    requires Inv(w) && ZeroSeats(w.db.rows)
    ensures ZeroSeats(Step(w, e).db.rows) <==> !Straddles(w, e)
  {
    match e
    case SweepWrite(ok) => WriteZeroSeats(w, ok);
    case CommitJoin(j) => CommitZeroSeats(w, j);
    case CreateGroupBuy(_, _, _, _, _) =>
    case _ => assert Step(w, e).db.rows == w.db.rows;
  }

  /** From any reachable world where ended campaigns hold no seats, a step keeps it so exactly when
      it does not straddle. */
  lemma {:induction false} ZeroSeatsExactly(es: seq<Event>, e: Event)
    requires ZeroSeats(Run(Init(), es).db.rows)
    ensures ZeroSeats(Run(Init(), es + [e]).db.rows) <==> !Straddles(Run(Init(), es), e)
  {
    RunKeeps(Init(), es);
    RunOneMore(Init(), es, e);
    StepZeroSeats(Run(Init(), es), e);
  }

  ghost predicate ZeroSeatsAt(es: seq<Event>, k: nat)
    requires k <= |es|
  {
    ZeroSeats(Run(Init(), es[..k]).db.rows)
  }

  ghost predicate StraddlesAt(es: seq<Event>, k: nat)
    requires k < |es|
  {
    Straddles(Run(Init(), es[..k]), es[k])
  }

  /** Over a whole run, ended campaigns hold no seats at any time if and only if no step straddles. */
  lemma {:induction false} AlwaysZeroSeatsExactly(es: seq<Event>)
    ensures (forall k: nat :: k <= |es| ==> ZeroSeatsAt(es, k)) <==> (forall k: nat :: k < |es| ==> !StraddlesAt(es, k))
  {
    forall k: nat | k < |es| && ZeroSeatsAt(es, k) ensures ZeroSeatsAt(es, k + 1) <==> !StraddlesAt(es, k) {
      assert es[..k + 1] == es[..k] + [es[k]];
      ZeroSeatsExactly(es[..k], es[k]);
    }
    if forall k: nat :: k <= |es| ==> ZeroSeatsAt(es, k) {
      forall k: nat | k < |es| ensures !StraddlesAt(es, k) {
        assert ZeroSeatsAt(es, k) && ZeroSeatsAt(es, k + 1);
      }
    }
    if forall k: nat :: k < |es| ==> !StraddlesAt(es, k) {
      forall k: nat | k <= |es| ensures ZeroSeatsAt(es, k) {
        ZeroSeatsUpTo(es, k);
      }
    }
  }

  lemma {:induction false} ZeroSeatsUpTo(es: seq<Event>, k: nat)
    requires k <= |es| && forall i: nat :: i < |es| ==> !StraddlesAt(es, i)
    ensures ZeroSeatsAt(es, k)
  {
    if k > 0 {
      ZeroSeatsUpTo(es, k - 1);
      assert es[..k] == es[..k - 1] + [es[k - 1]];
      ZeroSeatsExactly(es[..k - 1], es[k - 1]);
      assert !StraddlesAt(es, k - 1);
    } else {
      assert es[..0] == [];
    }
  }

  // ---- ended campaigns that start again ----

  /** A join lands on a finalized or expired campaign and the confirmed seats reach its threshold. */
  ghost predicate Reopens(w: World, e: Event, id: GroupBuyId) {
    && e.CommitJoin? && e.j in w.joiners && w.joiners[e.j].phase.Holding? && Lands(w, e.j)
    && w.joiners[e.j].gb == id
    && (w.db.rows[id].status == Finalized || w.db.rows[id].status == Expired)
    && w.db.rows[id].Confirmed() + w.joiners[e.j].qty >= w.db.rows[id].threshold
  }

  /** In every interleaving, an ended campaign changes its status if and only if such a join lands on
      it, and is then met again; a failed one never changes at all. */
  lemma {:induction false} EndedChangesExactly(es: seq<Event>, e: Event, id: GroupBuyId)
    requires id in Run(Init(), es).db.rows && !Run(Init(), es).db.rows[id].status.AcceptsJoins()
    ensures var w, w' := Run(Init(), es), Run(Init(), es + [e]);
            && id in w'.db.rows
            && w'.db.rows[id].status == (if Reopens(w, e, id) then Met else w.db.rows[id].status)
            && (w.db.rows[id].status == Failed ==> w'.db.rows[id] == w.db.rows[id])
  {
    RunKeeps(Init(), es);
    RunOneMore(Init(), es, e);
    EndedStep(Run(Init(), es), e, id);
  }

  lemma EndedCommit(w: World, j: JoinerId, id: GroupBuyId)
    requires Inv(w) && id in w.db.rows && !w.db.rows[id].status.AcceptsJoins()
    requires j in w.joiners && w.joiners[j].phase.Holding?
    ensures var rows' := CommitStep(w, j).db.rows;
            && id in rows'
            && rows'[id].status == (if Reopens(w, CommitJoin(j), id) then Met else w.db.rows[id].status)
            && (w.db.rows[id].status == Failed ==> rows'[id] == w.db.rows[id])
  {
    LandsExactly(w, j);
    CommitChangesOneRow(w, j);
    assert RowInv(w.db.rows[id], Sold(w.log, id), Joins(w.log, id));
    assert JoinerInv(w.db.rows, w.joiners[j]);
  }

  lemma EndedStep(w: World, e: Event, id: GroupBuyId)
    requires Inv(w) && id in w.db.rows && !w.db.rows[id].status.AcceptsJoins()
    ensures id in Step(w, e).db.rows
    ensures Step(w, e).db.rows[id].status == (if Reopens(w, e, id) then Met else w.db.rows[id].status)
    ensures w.db.rows[id].status == Failed ==> Step(w, e).db.rows[id] == w.db.rows[id]
  {
    match e
    case CommitJoin(j) =>
      if j in w.joiners && w.joiners[j].phase.Holding? {
        EndedCommit(w, j, id);
      }
    case SweepWrite(_) =>
      if w.sweep != [] {
        assert ListedInv(w.db.rows, w.sweep[0]);
      }
    case _ =>
  }

  /** A campaign for five, threshold two, with one seat asked for just before the deadline: the sweep expires it
      between the read and the update, which then takes a seat on the expired row. */
  const STRADDLING_RUN := [
    AddUser(7), AddResource(3), CreateGroupBuy(0, 7, 3, CreateInput("trip", 2, 5, 100, 200, Some(50)), 0),
    StartJoin(1, 0, 7, 1), ReadRow(1, 49), SweepList(50, [0]), SweepWrite(true), CommitJoin(1)]

  lemma StraddlingJoinKeepsSeats()
    ensures 0 in Run(Init(), STRADDLING_RUN).db.rows
    ensures var g := Run(Init(), STRADDLING_RUN).db.rows[0]; g.status == Expired && g.Confirmed() == 1
    ensures !ZeroSeats(Run(Init(), STRADDLING_RUN).db.rows)
  {
    var steps := STRADDLING_RUN;
    var g := FillDefaults(steps[2].input, 0);
    var w0 := Step(Init(), steps[0]);
    var w1 := Step(w0, steps[1]);
    var w2 := Step(w1, steps[2]);
    assert w2.db.rows == map[0 := g];
    var w3 := Step(w2, steps[3]);
    var w4 := Step(w3, steps[4]);
    assert w4.joiners[1].phase == Holding(g, 49);
    var w5 := Step(w4, steps[5]);
    assert IsDueList(w4.db.rows, 50, [0]);
    assert w5.sweep == [Listed(0, g)];
    var w6 := Step(w5, steps[6]);
    assert w6.db.rows == map[0 := g.(status := Expired)];
    assert RowsOf([], 0, 7) == 0;
    var w7 := Step(w6, steps[7]);
    assert w7.db.rows[0] == g.(status := Expired, remaining := 4, version := 1);
    RunSteps(steps, [w0, w1, w2, w3, w4, w5, w6, w7]);
  }

  /** A run is known by its successive worlds. */
  lemma {:induction false} RunSteps(es: seq<Event>, ws: seq<World>)
    requires |ws| == |es| && |es| > 0
    requires ws[0] == Step(Init(), es[0])
    requires forall i :: 0 < i < |es| ==> ws[i] == Step(ws[i - 1], es[i])
    ensures Run(Init(), es) == ws[|ws| - 1]
  {
    if |es| == 1 {
      assert es[..0] == [];
      assert Run(Init(), es[..0]) == Init();
    } else {
      RunSteps(es[..|es| - 1], ws[..|ws| - 1]);
    }
  }
}
