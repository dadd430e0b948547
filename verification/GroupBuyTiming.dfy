/** When joins and sweeps may touch a campaign: every committed join was read before its deadline, and
    no campaign ends before it, in every interleaving. */
module GroupBuyTiming {
  import opened GroupBuyDomain
  import opened GroupBuyProtocol
  import opened GroupBuySafety

  // ---- the terms of a campaign ----

  /** What was agreed on when the campaign was created. */
  ghost predicate SameTerms(g: GroupBuy, g': GroupBuy) {
    && (g'.title, g'.threshold, g'.capacity) == (g.title, g.threshold, g.capacity)
    && (g'.startsAt, g'.endsAt, g'.deadline) == (g.startsAt, g.endsAt, g.deadline)
  }

  lemma StepKeepsTerms(w: World, e: Event, id: GroupBuyId)
    requires id in w.db.rows
    ensures id in Step(w, e).db.rows && SameTerms(w.db.rows[id], Step(w, e).db.rows[id])
  {
  }

  /** The terms never change, whatever runs. */
  lemma {:induction false} TermsNeverChange(w: World, es: seq<Event>, id: GroupBuyId)
    requires id in w.db.rows
    ensures id in Run(w, es).db.rows && SameTerms(w.db.rows[id], Run(w, es).db.rows[id])
  {
    if es != [] {
      TermsNeverChange(w, es[..|es| - 1], id);
      StepKeepsTerms(Run(w, es[..|es| - 1]), es[|es| - 1], id);
    }
  }

  // ---- joins are read in time ----

  /** At event `i` the call read the campaign as `snap`, at time `at`. */
  ghost predicate ReadAt(es: seq<Event>, i: nat, j: JoinerId, gb: GroupBuyId, snap: GroupBuy, at: int) {
    && i < |es| && es[i] == ReadRow(j, at)
    && gb in Run(Init(), es[..i]).db.rows && Run(Init(), es[..i]).db.rows[gb] == snap
  }

  /** The call read the campaign open or met, strictly before its deadline, with enough seats left. */
  ghost predicate ReadInTime(es: seq<Event>, j: JoinerId, gb: GroupBuyId, qty: nat, snap: GroupBuy, at: int) {
    && (snap.status == Open || snap.status == Met) && at < snap.deadline && qty <= snap.remaining
    && exists i: nat :: ReadAt(es, i, j, gb, snap, at)
  }

  lemma ReadStays(es: seq<Event>, e: Event, j: JoinerId, gb: GroupBuyId, qty: nat, snap: GroupBuy, at: int)
    requires ReadInTime(es, j, gb, qty, snap, at)
    ensures ReadInTime(es + [e], j, gb, qty, snap, at)
  {
    var i: nat :| ReadAt(es, i, j, gb, snap, at);
    assert (es + [e])[..i] == es[..i];
    assert ReadAt(es + [e], i, j, gb, snap, at);
  }

  lemma {:induction false} HolderReadInTime(es: seq<Event>, j: JoinerId)
    requires var w := Run(Init(), es); j in w.joiners && w.joiners[j].phase.Holding?
    ensures var s := Run(Init(), es).joiners[j]; ReadInTime(es, j, s.gb, s.qty, s.phase.snap, s.phase.at)
  {
    var init, e := es[..|es| - 1], es[|es| - 1];
    var w, s := Run(Init(), init), Run(Init(), es).joiners[j];
    assert es == init + [e];
    if j in w.joiners && w.joiners[j] == s {
      HolderReadInTime(init, j);
      ReadStays(init, e, j, s.gb, s.qty, s.phase.snap, s.phase.at);
    } else {
      assert e == ReadRow(j, s.phase.at);
      assert ReadAt(es, |init|, j, s.gb, s.phase.snap, s.phase.at);
    }
  }

  lemma LogStep(w: World, e: Event)
    ensures var w' := Step(w, e);
            || w'.log == w.log
            || (e.CommitJoin? && e.j in w.joiners && w.joiners[e.j].phase.Holding?
                && var s := w.joiners[e.j];
                   w'.log == w.log + [Commit(e.j, Participant(s.gb, s.user, s.qty), s.phase.snap, s.phase.at)])
  {
  }

  lemma {:induction false} CommitReadInTime(es: seq<Event>, k: nat)
    requires k < |Run(Init(), es).log|
    ensures var c := Run(Init(), es).log[k];
            ReadInTime(es, c.joiner, c.part.gb, c.part.quantity, c.snap, c.at)
  {
    var init, e := es[..|es| - 1], es[|es| - 1];
    var w, c := Run(Init(), init), Run(Init(), es).log[k];
    assert es == init + [e];
    LogStep(w, e);
    if k < |w.log| {
      CommitReadInTime(init, k);
    } else {
      HolderReadInTime(init, e.j);
    }
    ReadStays(init, e, c.joiner, c.part.gb, c.part.quantity, c.snap, c.at);
  }

  /** In every interleaving, each committed join was read at a time strictly before its campaign's
      deadline, on a row that was open or met and had the seats. */
  lemma {:induction false} CommitsAreReadInTime(es: seq<Event>, c: Commit)
    requires c in Run(Init(), es).log
    ensures var w := Run(Init(), es);
            && ReadInTime(es, c.joiner, c.part.gb, c.part.quantity, c.snap, c.at)
            && c.part.gb in w.db.rows && c.at < w.db.rows[c.part.gb].deadline
  {
    var k :| 0 <= k < |Run(Init(), es).log| && Run(Init(), es).log[k] == c;
    CommitReadInTime(es, k);
    var i: nat :| ReadAt(es, i, c.joiner, c.part.gb, c.snap, c.at);
    assert es == es[..i] + es[i..];
    RunAppend(Init(), es[..i], es[i..]);
    TermsNeverChange(Run(Init(), es[..i]), es[i..], c.part.gb);
  }

  // ---- no campaign ends before its deadline ----

  /** Some sweep at or after the deadline listed the campaign. */
  ghost predicate SweptAfter(es: seq<Event>, id: GroupBuyId, deadline: int) {
    exists i :: 0 <= i < |es| && es[i].SweepList? && id in es[i].order && deadline <= es[i].now
  }

  lemma SweptStays(es: seq<Event>, e: Event, id: GroupBuyId, deadline: int)
    requires SweptAfter(es, id, deadline)
    ensures SweptAfter(es + [e], id, deadline)
  {
    var i :| 0 <= i < |es| && es[i].SweepList? && id in es[i].order && deadline <= es[i].now;
    assert (es + [e])[i] == es[i];
  }

  /** Whatever is listed for a write was due at the time of its sweep. */
  lemma {:induction false} ListedWasDue(es: seq<Event>, k: nat)
    requires k < |Run(Init(), es).sweep|
    ensures var w := Run(Init(), es);
            w.sweep[k].id in w.db.rows && SweptAfter(es, w.sweep[k].id, w.db.rows[w.sweep[k].id].deadline)
  {
    var init, e := es[..|es| - 1], es[|es| - 1];
    var w, w' := Run(Init(), init), Run(Init(), es);
    assert es == init + [e];
    var l := w'.sweep[k];
    if e.SweepList? && w.sweep == [] {
      assert l.id == e.order[k] && e.order[k] in e.order;
      assert es[|init|].SweepList?;
    } else {
      var k' := if e.SweepWrite? then k + 1 else k;
      assert w.sweep[k'] == l;
      ListedWasDue(init, k');
      StepKeepsTerms(w, e, l.id);
      SweptStays(init, e, l.id, w.db.rows[l.id].deadline);
    }
  }

  /** Only the write of a listed campaign ends it. */
  lemma EndingStep(w: World, e: Event, id: GroupBuyId)
    requires Inv(w) && id in Step(w, e).db.rows && !Step(w, e).db.rows[id].status.AcceptsJoins()
    ensures id in w.db.rows
    ensures !w.db.rows[id].status.AcceptsJoins() || (e.SweepWrite? && w.sweep != [] && w.sweep[0].id == id)
  {
  }

  /** In every interleaving, a campaign is finalized, failed or expired only after a sweep that began
      at or after its deadline had listed it. */
  lemma {:induction false} EndedOnlyAfterDeadline(es: seq<Event>, id: GroupBuyId)
    requires var w := Run(Init(), es);
             id in w.db.rows && w.db.rows[id].status != Open && w.db.rows[id].status != Met
    ensures SweptAfter(es, id, Run(Init(), es).db.rows[id].deadline)
  {
    var init, e := es[..|es| - 1], es[|es| - 1];
    var w := Run(Init(), init);
    assert es == init + [e];
    RunKeeps(Init(), init);
    EndingStep(w, e, id);
    StepKeepsTerms(w, e, id);
    if w.db.rows[id].status.AcceptsJoins() {
      ListedWasDue(init, 0);
    } else {
      EndedOnlyAfterDeadline(init, id);
    }
    SweptStays(init, e, id, w.db.rows[id].deadline);
  }
}
