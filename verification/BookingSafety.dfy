/** What every serial run of the booking service keeps. */
module BookingSafety {
  import opened BookingDomain
  import opened BookingRules

  // ---- the invariant ----

  ghost predicate RowInv(db: Db, b: Booking) {
    && b.user in db.users && b.resource in db.capacity
    && 1 <= b.party <= db.capacity[b.resource] && b.start < b.end
  }

  ghost predicate RowsInv(db: Db) {
    forall b :: b in db.bookings ==> RowInv(db, b)
  }

  /** At every instant the seats taken on a resource are at most its capacity. */
  ghost predicate SeatsFit(db: Db) {
    forall r, t :: r in db.capacity ==> Total(db.bookings, AtInstant(r, t)) <= db.capacity[r]
  }

  /** Distinct ids, and no two bookings of one user at the same time unless one is canceled. */
  predicate Apart(a: Booking, b: Booking) {
    a.id != b.id && !(a.user == b.user && !a.status.Canceled? && !b.status.Canceled? && a.Overlaps(b.start, b.end))
  }

  ghost predicate AllApart(bs: seq<Booking>) {
    forall i, k :: 0 <= i < k < |bs| ==> Apart(bs[i], bs[k])
  }

  ghost predicate DailyCap(bs: seq<Booking>) {
    forall u, d :: Total(bs, ActiveOn(u, d)) <= MAX_ACTIVE_PER_DAY
  }

  ghost predicate Inv(db: Db) {
    && (forall r :: r in db.capacity ==> db.capacity[r] >= 1)
    && RowsInv(db) && SeatsFit(db) && AllApart(db.bookings) && DailyCap(db.bookings)
  }

  // ---- creation ----

  /** The windowed sum bounds the seats taken at every instant of the window. */
  lemma WindowBoundsInstant(db: Db, r: ResourceId, s: int, e: int, t: int)
    requires RowsInv(db) && s <= t < e
    ensures Total(db.bookings, AtInstant(r, t)) <= Total(db.bookings, InWindow(r, s, e))
  {
    forall b | b in db.bookings ensures AtInstant(r, t)(b) <= InWindow(r, s, e)(b) {
      assert RowInv(db, b);
    }
    TotalMonotone(db.bookings, AtInstant(r, t), InWindow(r, s, e));
  }

  lemma CreateKeepsSeats(db: Db, id: BookingId, input: CreateInput, now: int)
    requires Inv(db) && Admit(db, id, input, now).Ok?
    ensures SeatsFit(Step(db, Create(id, input, now)))
  {
    var b := Admit(db, id, input, now).value;
    forall r, t | r in db.capacity
      ensures Total(db.bookings + [b], AtInstant(r, t)) <= db.capacity[r]
    {
      TotalAppend(db.bookings, b, AtInstant(r, t));
      if r == b.resource && b.Covers(t) {
        WindowBoundsInstant(db, r, b.start, b.end, t);
      }
    }
  }

  lemma CreateKeeps(db: Db, id: BookingId, input: CreateInput, now: int)
    requires Inv(db) && Admit(db, id, input, now).Ok?
    ensures Inv(Step(db, Create(id, input, now)))
  {
    var b := Admit(db, id, input, now).value;
    var db' := Step(db, Create(id, input, now));
    CreateKeepsSeats(db, id, input, now);
    CreateKeepsApart(db, id, input, now);
    forall u, d ensures Total(db'.bookings, ActiveOn(u, d)) <= MAX_ACTIVE_PER_DAY {
      TotalAppend(db.bookings, b, ActiveOn(u, d));
    }
    forall x | x in db'.bookings ensures RowInv(db', x) {
      assert x == b || RowInv(db, x);
    }
  }

  lemma CreateKeepsApart(db: Db, id: BookingId, input: CreateInput, now: int)
    requires AllApart(db.bookings) && Admit(db, id, input, now).Ok?
    ensures AllApart(db.bookings + [Admit(db, id, input, now).value])
  {
    var b := Admit(db, id, input, now).value;
    forall i | 0 <= i < |db.bookings| ensures Apart(db.bookings[i], b) {
      assert db.bookings[i] in db.bookings;
    }
  }

  // ---- transitions ----

  lemma ChangeStatusRows(db: Db, i: nat, target: Status)
    requires RowsInv(db) && i < |db.bookings|
    ensures RowsInv(db.(bookings := db.bookings[i := db.bookings[i].(status := target)]))
  {
    var bs' := db.bookings[i := db.bookings[i].(status := target)];
    forall b | b in bs' ensures RowInv(db.(bookings := bs'), b) {
      var k :| 0 <= k < |bs'| && bs'[k] == b;
      assert RowInv(db, db.bookings[k]);
    }
  }

  /** A promoted booking is alone on its resource during its window; any other change of status
      takes no seat. */
  lemma TransitionKeepsSeats(db: Db, i: nat, actor: UserId, target: Status, now: int)
    requires Inv(db) && i < |db.bookings| && Check(db, db.bookings[i], actor, target, now).None?
    ensures SeatsFit(db.(bookings := db.bookings[i := db.bookings[i].(status := target)]))
  {
    var b := db.bookings[i];
    var b' := b.(status := target);
    var bs' := db.bookings[i := b'];
    assert RowInv(db, b);
    forall r, t | r in db.capacity
      ensures Total(bs', AtInstant(r, t)) <= db.capacity[r]
    {
      TotalUpdate(db.bookings, i, b', AtInstant(r, t));
      if r == b.resource && b.Covers(t) && target.Pending? {
        forall k | 0 <= k < |bs'| && k != i ensures AtInstant(r, t)(bs'[k]) == 0 {
          assert db.bookings[k] in db.bookings;
          assert if k < i then Apart(db.bookings[k], b) else Apart(b, db.bookings[k]);
        }
        TotalOfOne(bs', i, AtInstant(r, t));
      }
    }
  }

  lemma TransitionKeeps(db: Db, i: nat, actor: UserId, target: Status, now: int)
    requires Inv(db) && i < |db.bookings| && Check(db, db.bookings[i], actor, target, now).None?
    ensures Inv(db.(bookings := db.bookings[i := db.bookings[i].(status := target)]))
  {
    var b' := db.bookings[i].(status := target);
    var bs' := db.bookings[i := b'];
    ChangeStatusRows(db, i, target);
    TransitionKeepsSeats(db, i, actor, target, now);
    forall u, d ensures Total(db.bookings[i := b'], ActiveOn(u, d)) <= MAX_ACTIVE_PER_DAY {
      TotalUpdate(db.bookings, i, b', ActiveOn(u, d));
    }
    forall k, l | 0 <= k < l < |bs'| ensures Apart(bs'[k], bs'[l]) {
      assert Apart(db.bookings[k], db.bookings[l]);
    }
  }

  // ---- deletion ----

  lemma {:induction false} WithoutUserApart(bs: seq<Booking>, u: UserId)
    requires AllApart(bs)
    ensures AllApart(WithoutUser(bs, u))
  {
    if bs != [] {
      var n := |bs| - 1;
      WithoutUserApart(bs[..n], u);
      WithoutUserRows(bs[..n], u);
      var kept := WithoutUser(bs[..n], u);
      forall i | 0 <= i < |kept| ensures Apart(kept[i], bs[n]) {
        assert kept[i] in bs[..n];
        var k :| 0 <= k < n && bs[k] == kept[i];
      }
      assert AllApart(kept + [bs[n]]);
      assert WithoutUser(bs, u) == kept || WithoutUser(bs, u) == kept + [bs[n]];
    }
  }

  lemma DeleteKeeps(db: Db, u: UserId)
    requires Inv(db)
    ensures Inv(Step(db, DeleteUser(u)))
  {
    var db' := Step(db, DeleteUser(u));
    WithoutUserRows(db.bookings, u);
    WithoutUserApart(db.bookings, u);
    forall b | b in db.bookings ensures b.party >= 0 {
      assert RowInv(db, b);
    }
    forall b | b in db'.bookings ensures RowInv(db', b) {
      assert RowInv(db, b);
    }
    forall r, t | r in db.capacity ensures Total(db'.bookings, AtInstant(r, t)) <= db.capacity[r] {
      WithoutUserTotal(db.bookings, u, AtInstant(r, t));
    }
    forall v, d ensures Total(db'.bookings, ActiveOn(v, d)) <= MAX_ACTIVE_PER_DAY {
      WithoutUserTotal(db.bookings, u, ActiveOn(v, d));
    }
  }

  // ---- runs ----

  lemma OtherKeeps(db: Db, e: Event)
    requires Inv(db) && (e.AddUser? || e.SetBlacklist? || e.AddResource?)
    ensures Inv(Step(db, e))
  {
    var db' := Step(db, e);
    forall b | b in db.bookings ensures RowInv(db', b) {
      assert RowInv(db, b);
    }
    if e.AddResource? && e.resource !in db.capacity {
      forall r, t | r in db'.capacity ensures Total(db'.bookings, AtInstant(r, t)) <= db'.capacity[r] {
        if r == e.resource {
          forall k | 0 <= k < |db.bookings| ensures AtInstant(r, t)(db.bookings[k]) == 0 {
            assert RowInv(db, db.bookings[k]);
          }
          TotalOfNone(db.bookings, AtInstant(r, t));
        }
      }
    }
  }

  lemma StepKeeps(db: Db, e: Event)
    requires Inv(db)
    ensures Inv(Step(db, e))
  {
    match e
    case DeleteUser(u) => DeleteKeeps(db, u);
    case Create(id, input, now) =>
      if Admit(db, id, input, now).Ok? {
        CreateKeeps(db, id, input, now);
      }
    case Transition(actor, id, target, now) =>
      var f := Find(db.bookings, id);
      if f.Some? && Check(db, db.bookings[f.value], actor, target, now).None? {
        TransitionKeeps(db, f.value, actor, target, now);
      }
    case _ => OtherKeeps(db, e);
  }

  lemma {:induction false} RunKeeps(es: seq<Event>)
    ensures Inv(Run(Init(), es))
  {
    if es != [] {
      RunKeeps(es[..|es| - 1]);
      StepKeeps(Run(Init(), es[..|es| - 1]), es[|es| - 1]);
    }
  }

  // ---- main results ----

  /** In every serial run, at every instant, the parties of the bookings that hold seats on a
      resource add up to at most its capacity. */
  lemma {:induction false} SeatSafety(es: seq<Event>, r: ResourceId, t: int)
    requires r in Run(Init(), es).capacity
    ensures Total(Run(Init(), es).bookings, AtInstant(r, t)) <= Run(Init(), es).capacity[r]
  {
    RunKeeps(es);
  }

  /** A user's bookings that are not canceled never overlap, and at most three active ones start on
      one day. */
  lemma {:induction false} UserLimits(es: seq<Event>)
    ensures var bs := Run(Init(), es).bookings;
            && (forall i, k :: 0 <= i < k < |bs| && bs[i].user == bs[k].user
                  && !bs[i].status.Canceled? && !bs[k].status.Canceled?
                  ==> bs[i].end <= bs[k].start || bs[k].end <= bs[i].start)
            && (forall u, d :: Total(bs, ActiveOn(u, d)) <= 3)
  {
    RunKeeps(es);
    var bs := Run(Init(), es).bookings;
    forall i, k | 0 <= i < k < |bs| && bs[i].user == bs[k].user
                  && !bs[i].status.Canceled? && !bs[k].status.Canceled?
      ensures bs[i].end <= bs[k].start || bs[k].end <= bs[i].start
    {
      assert Apart(bs[i], bs[k]);
    }
  }

  lemma StepKeepsEnded(db: Db, e: Event, b: Booking)
    requires Inv(db) && b in db.bookings && b.status.IsTerminal()
    ensures b in Step(db, e).bookings || e == DeleteUser(b.user)
  {
    match e
    case DeleteUser(u) => WithoutUserRows(db.bookings, u);
    case Transition(_, id, target, _) =>
      var f := Find(db.bookings, id);
      if f.Some? {
        var k :| 0 <= k < |db.bookings| && db.bookings[k] == b;
        assert k != f.value ==> db.bookings[f.value := db.bookings[f.value].(status := target)][k] == b;
      }
    case _ =>
  }

  /** A completed or canceled booking stays as it is in every run, until its user is deleted. */
  lemma {:induction false} EndedIsForever(es: seq<Event>, more: seq<Event>, b: Booking)
    requires b in Run(Init(), es).bookings && b.status.IsTerminal()
    ensures b in Run(Init(), es + more).bookings || DeleteUser(b.user) in more
  {
    if more == [] {
      assert es + more == es;
    } else {
      var init, e := more[..|more| - 1], more[|more| - 1];
      assert (es + more)[..|es + more| - 1] == es + init;
      assert more == init + [e];
      EndedIsForever(es, init, b);
      RunKeeps(es + init);
      if b in Run(Init(), es + init).bookings {
        StepKeepsEnded(Run(Init(), es + init), e, b);
      }
    }
  }
}
