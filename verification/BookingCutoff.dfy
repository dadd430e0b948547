/** The last ten minutes before a start time. */
module BookingCutoff {
  import opened BookingDomain
  import opened BookingRules
  import opened BookingSafety

  /** The only moves left: pending to checked in, checked in to completed. */
  predicate Onward(from: Status, to: Status) {
    from == to || (from.Pending? && to.CheckedIn?) || (from.Pending? && to.Completed?)
    || (from.CheckedIn? && to.Completed?)
  }

  /** A booking now starting at `s` is an earlier one whose status only moved onward. */
  ghost predicate CameFrom(bs: seq<Booking>, b': Booking) {
    exists b :: b in bs && b' == b.(status := b'.status) && Onward(b.status, b'.status)
  }

  ghost predicate Frozen(bs: seq<Booking>, bs': seq<Booking>, s: int) {
    forall b' :: b' in bs' && b'.start == s ==> CameFrom(bs, b')
  }

  /** The seats taken at `t` by bookings that start at `s`. */
  function StartingAt(r: ResourceId, t: int, s: int): Booking -> int {
    (b: Booking) => if b.start == s && b.resource == r && b.status.Occupies() && b.Covers(t) then b.party else 0
  }

  /** Creations and transitions of the run all happen in the ten minutes before `s`. */
  ghost predicate Late(e: Event, s: int) {
    (e.Create? ==> 0 < s - e.now < CHANGE_CUTOFF) && (e.Transition? ==> 0 < s - e.now < CHANGE_CUTOFF)
  }

  lemma LateStepTakesNoSeat(db: Db, e: Event, s: int, r: ResourceId, t: int)
    requires Inv(db) && Late(e, s)
    ensures Total(Step(db, e).bookings, StartingAt(r, t, s)) <= Total(db.bookings, StartingAt(r, t, s))
  {
    var bs, w := db.bookings, StartingAt(r, t, s);
    match e {
      case DeleteUser(u) =>
        WithoutUserRows(bs, u);
        forall b | b in bs ensures w(b) >= 0 {
          assert RowInv(db, b);
        }
        WithoutUserTotal(bs, u, w);
      case Create(id, input, now) =>
        if Admit(db, id, input, now).Ok? {
          var b := Admit(db, id, input, now).value;
          assert b.start != s;
          TotalAppend(bs, b, w);
        }
      case Transition(_, id, target, _) =>
        var f := Find(bs, id);
        if f.Some? {
          assert RowInv(db, bs[f.value]);
          var b := bs[f.value];
          if Check(db, b, e.actor, target, e.now).None? {
            assert w(b.(status := target)) <= w(b);
          }
          TotalUpdate(bs, f.value, bs[f.value].(status := target), w);
        }
      case _ =>
    }
  }

  lemma LateStepFreezes(db: Db, e: Event, s: int)
    requires Late(e, s)
    ensures Frozen(db.bookings, Step(db, e).bookings, s)
  {
    var bs, bs' := db.bookings, Step(db, e).bookings;
    forall b' | b' in bs' && b'.start == s ensures CameFrom(bs, b') {
      if e.DeleteUser? {
        WithoutUserRows(bs, e.user);
      } else {
        var k :| 0 <= k < |bs'| && bs'[k] == b';
        if b' !in bs {
          assert bs[k] in bs && b' == bs[k].(status := b'.status);
        }
      }
    }
  }

  lemma FrozenStays(bs: seq<Booking>, bs1: seq<Booking>, bs2: seq<Booking>, s: int)
    requires Frozen(bs, bs1, s) && Frozen(bs1, bs2, s)
    ensures Frozen(bs, bs2, s)
  {
    forall b2 | b2 in bs2 && b2.start == s ensures CameFrom(bs, b2) {
      assert CameFrom(bs1, b2);
      var b1 :| b1 in bs1 && b2 == b1.(status := b2.status) && Onward(b1.status, b2.status);
      assert CameFrom(bs, b1);
      var b :| b in bs && b1 == b.(status := b1.status) && Onward(b.status, b1.status);
      assert b2 == b.(status := b2.status);
    }
  }

  ghost predicate AllLate(es: seq<Event>, s: int) { forall e :: e in es ==> Late(e, s) }

  /** Nothing about the bookings that start at `s` moved but onward, and they take no new seat at `t`. */
  ghost predicate Calm(bs: seq<Booking>, bs': seq<Booking>, s: int, r: ResourceId, t: int) {
    Frozen(bs, bs', s) && Total(bs', StartingAt(r, t, s)) <= Total(bs, StartingAt(r, t, s))
  }

  lemma CalmStays(bs: seq<Booking>, bs1: seq<Booking>, bs2: seq<Booking>, s: int, r: ResourceId, t: int)
    requires Calm(bs, bs1, s, r, t) && Calm(bs1, bs2, s, r, t)
    ensures Calm(bs, bs2, s, r, t)
  {
    FrozenStays(bs, bs1, bs2, s);
  }

  lemma NothingHappens(bs: seq<Booking>, s: int, r: ResourceId, t: int)
    ensures Calm(bs, bs, s, r, t)
  {
    forall b | b in bs && b.start == s ensures CameFrom(bs, b) {
      assert b == b.(status := b.status);
    }
  }

  /** In any run within the ten minutes before `s`, every booking that starts at `s` was there
      before, its status moved only from pending to checked in to completed or not at all, so a
      waitlisted one is still waitlisted; and no seat they left free becomes taken by them. */
  lemma {:induction false} CutoffFreezes(es: seq<Event>, late: seq<Event>, s: int, r: ResourceId, t: int)
    requires AllLate(late, s)
    ensures Calm(Run(Init(), es).bookings, Run(Init(), es + late).bookings, s, r, t)
  {
    if late == [] {
      assert es + late == es;
      NothingHappens(Run(Init(), es).bookings, s, r, t);
    } else {
      var init := late[..|late| - 1];
      LateSplits(late, s);
      CutoffFreezes(es, init, s, r, t);
      LateStepInRun(es, late, s, r, t);
      CalmStays(Run(Init(), es).bookings, Run(Init(), es + init).bookings, Run(Init(), es + late).bookings, s, r, t);
    }
  }

  lemma LateSplits(es: seq<Event>, s: int)
    requires AllLate(es, s) && es != []
    ensures AllLate(es[..|es| - 1], s) && Late(es[|es| - 1], s)
  {
    assert es[|es| - 1] in es;
  }

  lemma LateStepInRun(es: seq<Event>, late: seq<Event>, s: int, r: ResourceId, t: int)
    requires late != [] && Late(late[|late| - 1], s)
    ensures Calm(Run(Init(), es + late[..|late| - 1]).bookings, Run(Init(), es + late).bookings, s, r, t)
  {
    var before, e := es + late[..|late| - 1], late[|late| - 1];
    assert (es + late)[..|es + late| - 1] == before;
    RunKeeps(before);
    LateStepFreezes(Run(Init(), before), e, s);
    LateStepTakesNoSeat(Run(Init(), before), e, s, r, t);
  }
}
