/** At most once, stable replay and isolation, over every interleaving of requests. */
module IdempotencySafety {
  import opened IdempotencyProtocol
  import opened HandlerAnswer

  // ---- the invariant ----

  /** The reservation of an owner is pending and its own. */
  ghost predicate OwnerInv(rows: map<Slot, Row>, q: Request) {
    && (q.Owns() ==> q.slot in rows && rows[q.slot] == Row(q.hash, Pending))
    && (q.returned ==> q.slot in rows && rows[q.slot].hash == q.hash)
    && (q.returned ==> q.phase.Completing? || q.phase.Finished?)
    && (q.phase.Completing? ==> q.returned)
    && q.buf == Concat(q.writes)
  }

  /** Two requests that own a slot, or whose handlers have returned, are the same one. */
  ghost predicate Settled(q: Request) { q.Owns() || q.returned }

  ghost predicate Unique(requests: map<RequestId, Request>) {
    forall r, r' :: (r in requests && r' in requests && requests[r].slot == requests[r'].slot
                     && Settled(requests[r]) && Settled(requests[r'])) ==> r == r'
  }

  /** A completed row, and every replay, carries what the one normal run wrote. */
  ghost predicate From(requests: map<RequestId, Request>, slot: Slot, hash: Hash, resp: Response) {
    exists r :: r in requests && IsSource(requests[r], slot, hash, resp)
  }

  ghost predicate IsSource(q: Request, slot: Slot, hash: Hash, resp: Response) {
    && q.slot == slot && q.hash == hash && q.returned && q.phase.Finished?
    && resp == Response(q.status, Concat(q.writes), q.contentType)
  }

  ghost predicate RowsInv(s: State) {
    forall slot :: slot in s.rows && s.rows[slot].status.Completed?
                   ==> From(s.requests, slot, s.rows[slot].hash, s.rows[slot].status.response)
  }

  ghost predicate RepliesInv(s: State) {
    forall r :: r in s.requests && s.requests[r].phase.Short? && s.requests[r].phase.reply.Replayed?
                ==> From(s.requests, s.requests[r].slot, s.requests[r].hash, s.requests[r].phase.reply.response)
  }

  ghost predicate Inv(s: State) {
    && (forall r :: r in s.requests ==> OwnerInv(s.rows, s.requests[r]))
    && Unique(s.requests) && RowsInv(s) && RepliesInv(s)
  }

  // ---- each step keeps it ----

  ghost predicate Fires(s: State, e: Event) {
    !e.Arrive? && e.r in s.requests && Enabled(e, s.requests[e.r])
  }

  lemma AddWrite(bs: seq<Bytes>, b: Bytes)
    ensures Concat(bs + [b]) == Concat(bs) + b
  {
    assert (bs + [b])[..|bs + [b]| - 1] == bs;
  }

  lemma OwnersKeep(s: State, e: Event, r: RequestId)
    requires Inv(s) && Fires(s, e) && r in s.requests
    ensures OwnerInv(Step(s, e).rows, Step(s, e).requests[r])
  {
    var q := s.requests[e.r];
    assert OwnerInv(s.rows, q) && OwnerInv(s.rows, s.requests[r]);
    if e.Write? {
      AddWrite(q.writes, e.bytes);
    }
  }

  lemma UniqueKeeps(s: State, e: Event)
    requires Inv(s) && Fires(s, e)
    ensures Unique(Step(s, e).requests)
  {
    var q := s.requests[e.r];
    assert OwnerInv(s.rows, q);
    var q' := NextRequest(s.rows, q, e);
    if Settled(q') && !Settled(q) {
      assert e.Insert? && q.slot !in s.rows;
      forall r | r in s.requests && s.requests[r].slot == q.slot ensures !Settled(s.requests[r]) {
        assert OwnerInv(s.rows, s.requests[r]);
      }
    }
  }

  /** A finished source is never touched again. */
  lemma SourcesStay(s: State, e: Event, slot: Slot, hash: Hash, resp: Response)
    requires Fires(s, e) && From(s.requests, slot, hash, resp)
    ensures From(Step(s, e).requests, slot, hash, resp)
  {
    var r :| r in s.requests && IsSource(s.requests[r], slot, hash, resp);
    assert r != e.r;
    assert IsSource(Step(s, e).requests[r], slot, hash, resp);
  }

  lemma RowsKeep(s: State, e: Event)
    requires Inv(s) && Fires(s, e)
    ensures RowsInv(Step(s, e))
  {
    var q, s' := s.requests[e.r], Step(s, e);
    assert OwnerInv(s.rows, q);
    forall slot | slot in s'.rows && s'.rows[slot].status.Completed?
      ensures From(s'.requests, slot, s'.rows[slot].hash, s'.rows[slot].status.response)
    {
      if slot in s.rows && s.rows[slot] == s'.rows[slot] {
        SourcesStay(s, e, slot, s.rows[slot].hash, s.rows[slot].status.response);
      } else {
        assert IsSource(s'.requests[e.r], slot, s'.rows[slot].hash, s'.rows[slot].status.response);
      }
    }
  }

  lemma RepliesKeep(s: State, e: Event)
    requires Inv(s) && Fires(s, e)
    ensures RepliesInv(Step(s, e))
  {
    var s' := Step(s, e);
    forall r | r in s'.requests && s'.requests[r].phase.Short? && s'.requests[r].phase.reply.Replayed?
      ensures From(s'.requests, s'.requests[r].slot, s'.requests[r].hash, s'.requests[r].phase.reply.response)
    {
      SourcesStay(s, e, s'.requests[r].slot, s'.requests[r].hash, s'.requests[r].phase.reply.response);
    }
  }

  lemma StepKeeps(s: State, e: Event)
    requires Inv(s)
    ensures Inv(Step(s, e))
  {
    var s' := Step(s, e);
    if Fires(s, e) {
      forall r | r in s'.requests ensures OwnerInv(s'.rows, s'.requests[r]) {
        OwnersKeep(s, e, r);
      }
      UniqueKeeps(s, e);
      RowsKeep(s, e);
      RepliesKeep(s, e);
    } else if e.Arrive? && e.r !in s.requests {
      forall slot, hash, resp | From(s.requests, slot, hash, resp) ensures From(s'.requests, slot, hash, resp) {
        var r :| r in s.requests && IsSource(s.requests[r], slot, hash, resp);
        assert IsSource(s'.requests[r], slot, hash, resp);
      }
    }
  }

  lemma {:induction false} RunKeeps(s: State, es: seq<Event>)
    requires Inv(s)
    ensures Inv(Run(s, es))
  {
    if es != [] {
      RunKeeps(s, es[..|es| - 1]);
      StepKeeps(Run(s, es[..|es| - 1]), es[|es| - 1]);
    }
  }

  // ---- main results ----

  /** In every interleaving, lost writes included, at most one request of a slot is running its
      handler, at most one handler ever returns, and once one has, none is running. */
  lemma {:induction false} AtMostOnce(es: seq<Event>, r: RequestId, r': RequestId)
    requires var s := Run(Init(), es);
             r in s.requests && r' in s.requests && r != r' && s.requests[r].slot == s.requests[r'].slot
    ensures var s := Run(Init(), es);
            && !(s.requests[r].phase.Running? && s.requests[r'].phase.Running?)
            && !(s.requests[r].returned && s.requests[r'].returned)
            && !(s.requests[r].returned && s.requests[r'].phase.Running?)
  {
    RunKeeps(Init(), es);
  }

  /** Once a row is completed it never changes and no handler runs for its slot again. */
  lemma {:induction false} CompletedIsForever(es: seq<Event>, more: seq<Event>, slot: Slot)
    requires slot in Run(Init(), es).rows && Run(Init(), es).rows[slot].status.Completed?
    ensures var s := Run(Run(Init(), es), more);
            && slot in s.rows && s.rows[slot] == Run(Init(), es).rows[slot]
            && forall r :: r in s.requests && s.requests[r].slot == slot ==> !s.requests[r].Owns()
  {
    var start := Run(Init(), es);
    RunKeeps(Init(), es);
    if more != [] {
      CompletedIsForever(es, more[..|more| - 1], slot);
      RunKeeps(start, more[..|more| - 1]);
      CompletedRowStays(Run(start, more[..|more| - 1]), more[|more| - 1], slot);
    }
    RunKeeps(start, more);
    CompletedHasNoOwner(Run(start, more), slot);
  }

  lemma CompletedRowStays(s: State, e: Event, slot: Slot)
    requires Inv(s) && slot in s.rows && s.rows[slot].status.Completed?
    ensures slot in Step(s, e).rows && Step(s, e).rows[slot] == s.rows[slot]
  {
    if Fires(s, e) {
      assert OwnerInv(s.rows, s.requests[e.r]);
    }
  }

  lemma CompletedHasNoOwner(s: State, slot: Slot)
    requires Inv(s) && slot in s.rows && s.rows[slot].status.Completed?
    ensures forall r :: r in s.requests && s.requests[r].slot == slot ==> !s.requests[r].Owns()
  {
    forall r | r in s.requests && s.requests[r].slot == slot ensures !s.requests[r].Owns() {
      assert OwnerInv(s.rows, s.requests[r]);
    }
  }

  // ---- what a request captures ----

  /** The writer calls that the handler of the request has made so far. */
  ghost function OpsOf(es: seq<Event>, r: RequestId): seq<HandlerOp> {
    if es == [] then []
    else
      var init, e := es[..|es| - 1], es[|es| - 1];
      OpsOf(init, r) + if e.r == r && Fires(Run(Init(), init), e) then OpOf(e) else []
  }

  function OpOf(e: Event): seq<HandlerOp> {
    match e
    case WriteHeader(_, code) => [Header(code)]
    case SetContentType(_, ct) => [Type(ct)]
    case Write(_, bytes) => [Body(bytes)]
    case _ => []
  }

  lemma {:induction false} RunCaptures(es: seq<Event>, r: RequestId)
    ensures r !in Run(Init(), es).requests ==> OpsOf(es, r) == []
    ensures r in Run(Init(), es).requests ==>
              Run(Init(), es).requests[r].Captured() == Answer(OpsOf(es, r))
  {
    if es != [] {
      var init, e := es[..|es| - 1], es[|es| - 1];
      RunCaptures(init, r);
      if e.r == r && Fires(Run(Init(), init), e) {
        AnswerStep(OpsOf(init, r), e);
        assert OpsOf(es, r) == OpsOf(init, r) + OpOf(e);
        CapturedStep(Run(Init(), init).rows, Run(Init(), init).requests[r], e);
      } else {
        assert OpsOf(init, r) + [] == OpsOf(init, r);
      }
    }
  }

  lemma CapturedStep(rows: map<Slot, Row>, q: Request, e: Event)
    ensures NextRequest(rows, q, e).Captured() == match e
                                                  case WriteHeader(_, code) => q.Captured().(status := code)
                                                  case SetContentType(_, ct) => q.Captured().(contentType := ct)
                                                  case Write(_, bytes) => q.Captured().(body := q.buf + bytes)
                                                  case _ => q.Captured()
  {
  }

  lemma AnswerStep(ops: seq<HandlerOp>, e: Event)
    ensures Answer(ops + OpOf(e)) == match e
                                     case WriteHeader(_, code) => Answer(ops).(status := code)
                                     case SetContentType(_, ct) => Answer(ops).(contentType := ct)
                                     case Write(_, bytes) => Answer(ops).(body := Answer(ops).body + bytes)
                                     case _ => Answer(ops)
  {
    if OpOf(e) == [] {
      assert ops + OpOf(e) == ops;
    } else {
      assert (ops + OpOf(e))[..|ops|] == ops;
    }
  }

  /** In every run a request has captured the status and content type that its handler set last, and
      all it has written, in order. */
  lemma {:induction false} CapturedIsLast(es: seq<Event>, r: RequestId)
    requires r in Run(Init(), es).requests
    ensures IsAnswer(Run(Init(), es).requests[r].Captured(), OpsOf(es, r))
  {
    RunCaptures(es, r);
    AnswerIsLast(OpsOf(es, r));
  }

  /** Every replay is, byte for byte, the answer of the one run of its slot that returned, to a
      request with the same hash. */
  lemma {:induction false} ReplayIsFaithful(es: seq<Event>, r: RequestId)
    requires var s := Run(Init(), es);
             r in s.requests && s.requests[r].phase.Short? && s.requests[r].phase.reply.Replayed?
    ensures var s := Run(Init(), es);
            exists r0 :: r0 in s.requests
              && var q := s.requests[r0];
                 && q.slot == s.requests[r].slot && q.hash == s.requests[r].hash && q.returned
                 && IsAnswer(s.requests[r].phase.reply.response, OpsOf(es, r0))
                 && forall k :: k in s.requests && s.requests[k].slot == q.slot && s.requests[k].returned ==> k == r0
  {
    RunKeeps(Init(), es);
    var s := Run(Init(), es);
    var q := s.requests[r];
    var r0 :| r0 in s.requests && IsSource(s.requests[r0], q.slot, q.hash, q.phase.reply.response);
    assert OwnerInv(s.rows, s.requests[r0]);
    CapturedIsLast(es, r0);
  }

  /** What a step finds decides what the request is told, in every run: a free slot lets it run its
      handler; a taken one is looked up, and the row then found, or missing, gives the answer; an
      INSERT that reports an error never lets it run. */
  lemma {:induction false} AnsweredAsFound(es: seq<Event>, e: Event)
    requires Fires(Run(Init(), es), e)
    ensures var s, s' := Run(Init(), es), Run(Init(), es + [e]);
            && e.r in s'.requests
            && var q, after := s.requests[e.r], s'.requests[e.r].phase;
               && (e.Insert? ==> after == if q.slot in s.rows then LookingUp else Running)
               && (e.Insert? && q.slot !in s.rows ==> s'.rows == s.rows[q.slot := Row(q.hash, Pending)])
               && (e.InsertFails? ==> after == Short(LookupFailed))
               && (e.Lookup? ==>
                     && after.Short? && s'.rows == s.rows
                     && (after.reply == LookupFailed <==> q.slot !in s.rows)
                     && (after.reply == Mismatch <==> q.slot in s.rows && s.rows[q.slot].hash != q.hash)
                     && (after.reply == InFlight <==>
                           q.slot in s.rows && s.rows[q.slot].hash == q.hash && s.rows[q.slot].status == Pending)
                     && (after.reply.Replayed? ==>
                           q.slot in s.rows && s.rows[q.slot] == Row(q.hash, Completed(after.reply.response))))
  {
    assert (es + [e])[..|es + [e]| - 1] == es;
  }

  /** A slot whose handler has returned stays reserved to that request's hash: a request with
      another hash can only be told about a mismatch, one with the same hash only 409 or the replay. */
  lemma {:induction false} ReturnedSlotStaysTaken(es: seq<Event>, r: RequestId, more: seq<Event>)
    requires r in Run(Init(), es).requests && Run(Init(), es).requests[r].returned
    ensures var s, q := Run(Run(Init(), es), more), Run(Init(), es).requests[r];
            && q.slot in s.rows && s.rows[q.slot].hash == q.hash
            && forall h :: LookupReply(s.rows, q.slot, h) ==
                 if h != q.hash then Mismatch
                 else if s.rows[q.slot].status.Pending? then InFlight
                 else Replayed(s.rows[q.slot].status.response)
  {
    RunKeeps(Init(), es);
    RequestStays(Run(Init(), es), more, r);
    RunKeeps(Run(Init(), es), more);
    assert OwnerInv(Run(Run(Init(), es), more).rows, Run(Run(Init(), es), more).requests[r]);
  }

  lemma {:induction false} RequestStays(s: State, es: seq<Event>, r: RequestId)
    requires r in s.requests
    ensures r in Run(s, es).requests
    ensures var q, q' := s.requests[r], Run(s, es).requests[r];
            q'.slot == q.slot && q'.hash == q.hash && (q.returned ==> q'.returned)
  {
    if es != [] {
      RequestStays(s, es[..|es| - 1], r);
    }
  }

  // ---- isolation ----

  /** No event of `es` belongs to a request of `scope`. */
  ghost predicate Elsewhere(s: State, es: seq<Event>, scope: Scope) {
    forall e :: e in es ==>
      && (e.Arrive? ==> e.slot.scope != scope)
      && (e.r in s.requests ==> s.requests[e.r].slot.scope != scope)
  }

  /** Whatever the requests of other scopes do, in any order, the rows of `scope` stay as they
      are; the anonymous scope is one like any other. */
  lemma {:induction false} ScopesAreIsolated(s: State, es: seq<Event>, scope: Scope)
    requires Elsewhere(s, es, scope)
    ensures SameScope(s.rows, Run(s, es).rows, scope) && NoNewcomer(s, Run(s, es), scope)
  {
    if es != [] {
      ScopesAreIsolated(s, es[..|es| - 1], scope);
      assert es[|es| - 1] in es;
      ForeignStep(s, Run(s, es[..|es| - 1]), es[|es| - 1], scope);
    }
  }

  /** The rows of the scope are the same, one by one. */
  ghost predicate SameScope(rows: map<Slot, Row>, rows': map<Slot, Row>, scope: Scope) {
    forall slot: Slot :: slot.scope == scope ==>
      (slot in rows' <==> slot in rows) && (slot in rows ==> rows'[slot] == rows[slot])
  }

  /** Known requests keep their slots, and those that came since belong to other scopes. */
  ghost predicate NoNewcomer(s: State, s': State, scope: Scope) {
    && (forall r :: r in s.requests ==> r in s'.requests && s'.requests[r].slot == s.requests[r].slot)
    && (forall r :: r in s'.requests && r !in s.requests ==> s'.requests[r].slot.scope != scope)
  }

  lemma ForeignStep(s: State, s': State, e: Event, scope: Scope)
    requires SameScope(s.rows, s'.rows, scope) && NoNewcomer(s, s', scope)
    requires e.Arrive? ==> e.slot.scope != scope
    requires e.r in s.requests ==> s.requests[e.r].slot.scope != scope
    ensures SameScope(s.rows, Step(s', e).rows, scope) && NoNewcomer(s, Step(s', e), scope)
  {
    if Fires(s', e) {
      var q := s'.requests[e.r];
      assert q.slot.scope != scope;
      OneSlotChanges(s'.rows, q, e);
      assert SameScope(s'.rows, NextRows(s'.rows, q, e), scope);
      assert NextRequest(s'.rows, q, e).slot == q.slot;
    }
  }

  lemma OneSlotChanges(rows: map<Slot, Row>, q: Request, e: Event)
    ensures forall slot :: slot != q.slot ==>
              && (slot in NextRows(rows, q, e) <==> slot in rows)
              && (slot in rows ==> NextRows(rows, q, e)[slot] == rows[slot])
    ensures NextRequest(rows, q, e).slot == q.slot
  {
  }
}
