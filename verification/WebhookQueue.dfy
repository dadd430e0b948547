/** Webhook deliveries: a queue with bounded retries, exponential backoff and a batch limit. */
module WebhookQueue {
  type DeliveryId = nat

  const SECOND := 1_000_000_000
  const HOUR := 3600 * SECOND
  const MAX_ATTEMPTS := 5
  const BATCH := 25

  datatype Status = Pending | Delivered | Failed | Dead

  /** `tried` is history: when each attempt began. */
  datatype Delivery = Delivery(attempts: nat, next: int, status: Status, tried: seq<int>)

  /** How an attempt ends: the webhook is gone, the request cannot be built, the target is blocked,
      unreachable or answers with an error, or it accepts. */
  datatype Outcome = NoHook | BadRequest | Refused | Accepted

  /** An attempt begins, ends, and its result is written. */
  datatype Try = Try(outcome: Outcome, start: int, end: int)

  type Rows = map<DeliveryId, Delivery>

  datatype Event =
    | Enqueue(id: DeliveryId, now: int)
    | Cycle(now: int, batch: seq<DeliveryId>, tries: seq<Try>)

  // ---- the retry policy ----

  function Shift(n: nat): nat { if n == 0 then 1 else 2 * Shift(n - 1) }

  function Backoff(attempts: int): int { if attempts <= 0 then 0 else Shift(attempts - 1) * SECOND }

  function NextStatus(attempts: int): Status { if attempts >= MAX_ATTEMPTS then Dead else Pending }

  function AfterAttempt(d: Delivery, t: Try): Delivery {
    var attempts := d.attempts + 1;
    var tried := d.tried + [t.start];
    match t.outcome
    case NoHook => Delivery(attempts, t.end + HOUR, Failed, tried)
    case BadRequest => Delivery(attempts, t.end + HOUR, Failed, tried)
    case Accepted => Delivery(attempts, t.end, Delivered, tried)
    case Refused =>
      if NextStatus(attempts) == Dead then Delivery(attempts, t.end, Dead, tried)
      else Delivery(attempts, t.end + Backoff(attempts), Pending, tried)
  }

  // ---- the queue ----

  predicate Due(d: Delivery, now: int) { d.status.Pending? && d.next <= now }

  /** An answer to the dequeue query: due rows by due time, at most `limit`, and every due row left
      out waits behind a full batch. Ties may come in any order. */
  predicate IsBatch(rows: Rows, now: int, limit: nat, batch: seq<DeliveryId>) {
    && |batch| <= limit
    && (forall i | 0 <= i < |batch| :: batch[i] in rows && Due(rows[batch[i]], now))
    && (forall i, k | 0 <= i < k < |batch| :: batch[i] != batch[k] && rows[batch[i]].next <= rows[batch[k]].next)
    && (forall id | id in rows.Keys && Due(rows[id], now) && id !in batch ::
          |batch| == limit && forall i | 0 <= i < |batch| :: rows[batch[i]].next <= rows[id].next)
  }

  function AfterBatch(rows: Rows, batch: seq<DeliveryId>, tries: seq<Try>): Rows
    requires |batch| == |tries|
  {
    if batch == [] then rows
    else
      var n := |batch| - 1;
      var rows' := AfterBatch(rows, batch[..n], tries[..n]);
      if batch[n] in rows' then rows'[batch[n] := AfterAttempt(rows'[batch[n]], tries[n])] else rows'
  }

  predicate Enabled(rows: Rows, e: Event) {
    match e
    case Enqueue(id, _) => id !in rows
    case Cycle(now, batch, tries) =>
      && IsBatch(rows, now, BATCH, batch) && |tries| == |batch|
      && forall t | t in tries :: now <= t.start <= t.end
  }

  function Step(rows: Rows, e: Event): Rows {
    if !Enabled(rows, e) then rows
    else
      match e
      case Enqueue(id, now) => rows[id := Delivery(0, now, Pending, [])]
      case Cycle(_, batch, tries) => AfterBatch(rows, batch, tries)
  }

  function Run(rows: Rows, es: seq<Event>): Rows {
    if es == [] then rows else Step(Run(rows, es[..|es| - 1]), es[|es| - 1])
  }

  // ---- one delivery's life ----

  ghost predicate DeliveryInv(d: Delivery) {
    && |d.tried| == d.attempts <= MAX_ATTEMPTS
    && (d.status.Pending? ==> d.attempts < MAX_ATTEMPTS)
    && (d.status.Dead? ==> d.attempts == MAX_ATTEMPTS)
    && (d.status.Pending? && d.attempts > 0 ==> d.next >= d.tried[d.attempts - 1] + Backoff(d.attempts))
    && (forall k :: 0 < k < |d.tried| ==> d.tried[k] - d.tried[k - 1] >= Backoff(k))
  }

  ghost predicate Inv(rows: Rows) { forall id :: id in rows ==> DeliveryInv(rows[id]) }

  lemma AttemptKeeps(d: Delivery, t: Try)
    requires DeliveryInv(d) && d.status.Pending? && d.next <= t.start <= t.end
    ensures DeliveryInv(AfterAttempt(d, t))
  {
  }

  lemma {:induction false} BatchRows(rows: Rows, batch: seq<DeliveryId>, tries: seq<Try>)
    requires |batch| == |tries|
    requires forall i :: 0 <= i < |batch| ==> batch[i] in rows
    requires forall i, k :: 0 <= i < k < |batch| ==> batch[i] != batch[k]
    ensures AfterBatch(rows, batch, tries).Keys == rows.Keys
    ensures forall id :: id in rows && id !in batch ==> AfterBatch(rows, batch, tries)[id] == rows[id]
    ensures forall i :: 0 <= i < |batch| ==>
              AfterBatch(rows, batch, tries)[batch[i]] == AfterAttempt(rows[batch[i]], tries[i])
  {
    if batch != [] {
      var n := |batch| - 1;
      BatchRows(rows, batch[..n], tries[..n]);
      var rows' := AfterBatch(rows, batch[..n], tries[..n]);
      assert batch == batch[..n] + [batch[n]] && batch[n] !in batch[..n];
      assert rows'[batch[n]] == rows[batch[n]];
      assert AfterBatch(rows, batch, tries) == rows'[batch[n] := AfterAttempt(rows[batch[n]], tries[n])];
      forall i | 0 <= i < n
        ensures AfterBatch(rows, batch, tries)[batch[i]] == AfterAttempt(rows[batch[i]], tries[i])
      {
        assert batch[..n][i] == batch[i] && tries[..n][i] == tries[i];
      }
    }
  }

  lemma StepKeeps(rows: Rows, e: Event)
    requires Inv(rows)
    ensures Inv(Step(rows, e))
  {
    if e.Cycle? && Enabled(rows, e) {
      BatchRows(rows, e.batch, e.tries);
      forall id | id in rows ensures DeliveryInv(Step(rows, e)[id]) {
        if id in e.batch {
          var i :| 0 <= i < |e.batch| && e.batch[i] == id;
          assert e.tries[i] in e.tries;
          AttemptKeeps(rows[id], e.tries[i]);
        }
      }
    }
  }

  lemma {:induction false} RunKeeps(rows: Rows, es: seq<Event>)
    requires Inv(rows)
    ensures Inv(Run(rows, es))
  {
    if es != [] {
      RunKeeps(rows, es[..|es| - 1]);
      StepKeeps(Run(rows, es[..|es| - 1]), es[|es| - 1]);
    }
  }

  /** In every run no delivery is attempted more than five times, attempt k + 1 begins at least
      2^(k-1) seconds after attempt k, and a dead one was first tried at least 15 seconds before its
      last try. */
  lemma {:induction false} RetriesAreBounded(es: seq<Event>, id: DeliveryId)
    requires id in Run(map[], es)
    ensures var d := Run(map[], es)[id];
            && |d.tried| == d.attempts <= 5
            && (forall k :: 1 <= k < |d.tried| ==> d.tried[k] - d.tried[k - 1] >= Shift(k - 1) * SECOND)
            && (d.status.Dead? ==> |d.tried| == 5 && d.tried[4] - d.tried[0] >= 15 * SECOND)
  {
    RunKeeps(map[], es);
    var d := Run(map[], es)[id];
    assert DeliveryInv(d);
    assert Backoff(1) == SECOND && Backoff(2) == 2 * SECOND && Backoff(3) == 4 * SECOND && Backoff(4) == 8 * SECOND;
  }

  /** A delivery that is no longer pending is never touched again. */
  lemma {:induction false} TerminalAbsorbs(rows: Rows, es: seq<Event>, id: DeliveryId)
    requires id in rows && !rows[id].status.Pending?
    ensures id in Run(rows, es) && Run(rows, es)[id] == rows[id]
  {
    if es != [] {
      TerminalAbsorbs(rows, es[..|es| - 1], id);
      var v, e := Run(rows, es[..|es| - 1]), es[|es| - 1];
      if e.Cycle? && Enabled(v, e) {
        BatchRows(v, e.batch, e.tries);
      }
    }
  }

  // ---- no delivery waits forever ----

  /** The pending deliveries that may be dequeued before `id`. */
  function Ahead(rows: Rows, id: DeliveryId): set<DeliveryId>
    requires id in rows
  {
    set x | x in rows && x != id && rows[x].status.Pending? && rows[x].next <= rows[id].next
  }

  /** How many delivery cycles the run has. */
  function Cycles(rows: Rows, es: seq<Event>): nat {
    if es == [] then 0
    else
      var init := es[..|es| - 1];
      Cycles(rows, init) + if es[|es| - 1].Cycle? && Enabled(Run(rows, init), es[|es| - 1]) then 1 else 0
  }

  function Members(s: seq<DeliveryId>): set<DeliveryId> { set x | x in s }

  lemma {:induction false} DistinctSize(s: seq<DeliveryId>)
    requires forall i, k :: 0 <= i < k < |s| ==> s[i] != s[k]
    ensures |Members(s)| == |s|
  {
    if s == [] {
      assert Members(s) == {};
    } else {
      var n := |s| - 1;
      DistinctSize(s[..n]);
      assert s == s[..n] + [s[n]] && s[n] !in s[..n];
      assert Members(s) == Members(s[..n]) + {s[n]};
    }
  }

  /** Whoever is served instead of `id` was ahead of it, and is not afterwards. */
  lemma ServedWasAhead(rows: Rows, e: Event, id: DeliveryId, i: nat)
    requires e.Cycle? && Enabled(rows, e) && id in rows && Due(rows[id], e.now) && rows[id].next < e.now
    requires id !in e.batch && i < |e.batch|
    ensures e.batch[i] in Ahead(rows, id)
    ensures var d := AfterAttempt(rows[e.batch[i]], e.tries[i]); d.status.Pending? ==> d.next > rows[id].next
  {
    assert id in rows.Keys;
    assert e.tries[i] in e.tries;
    assert Shift(0) == 1;
    BackoffPositive(rows[e.batch[i]].attempts + 1);
  }

  lemma BackoffPositive(n: nat)
    ensures Backoff(n) >= 0
  {
  }

  /** A cycle that does not attempt `id` attempts 25 deliveries ahead of it and leaves none of them ahead. */
  lemma CycleServes(rows: Rows, e: Event, id: DeliveryId)
    requires e.Cycle? && Enabled(rows, e) && id in rows && Due(rows[id], e.now) && rows[id].next < e.now
    requires id !in e.batch
    ensures id in Step(rows, e) && Step(rows, e)[id] == rows[id]
    ensures |Ahead(Step(rows, e), id)| + BATCH <= |Ahead(rows, id)|
  {
    BatchRows(rows, e.batch, e.tries);
    AheadShrinks(rows, Step(rows, e), e, id);
    FullBatch(rows, e, id);
    Remove(Ahead(rows, id), Members(e.batch), Ahead(Step(rows, e), id));
  }

  lemma FullBatch(rows: Rows, e: Event, id: DeliveryId)
    requires e.Cycle? && Enabled(rows, e) && id in rows && Due(rows[id], e.now) && id !in e.batch
    ensures |Members(e.batch)| == BATCH
  {
    assert id in rows.Keys;
    DistinctSize(e.batch);
  }

  lemma Remove(all: set<DeliveryId>, gone: set<DeliveryId>, left: set<DeliveryId>)
    requires gone <= all && left <= all - gone
    ensures |left| + |gone| <= |all|
  {
    assert all == (all - gone) + gone;
    SmallerSet(left, all - gone);
  }

  lemma AheadShrinks(rows: Rows, rows': Rows, e: Event, id: DeliveryId)
    requires e.Cycle? && Enabled(rows, e) && id in rows && Due(rows[id], e.now) && rows[id].next < e.now
    requires id !in e.batch && rows'.Keys == rows.Keys && rows'[id] == rows[id]
    requires forall x :: x in rows && x !in e.batch ==> rows'[x] == rows[x]
    requires forall i :: 0 <= i < |e.batch| ==> rows'[e.batch[i]] == AfterAttempt(rows[e.batch[i]], e.tries[i])
    ensures Members(e.batch) <= Ahead(rows, id)
    ensures Ahead(rows', id) <= Ahead(rows, id) - Members(e.batch)
  {
    forall x | x in e.batch ensures x in Ahead(rows, id) && x !in Ahead(rows', id) {
      var i :| 0 <= i < |e.batch| && e.batch[i] == x;
      ServedWasAhead(rows, e, id, i);
    }
  }

  lemma SmallerSet(a: set<DeliveryId>, b: set<DeliveryId>)
    requires a <= b
    ensures |a| <= |b|
  {
    if a != b {
      assert |b - a| + |a| == |b| by {
        assert b == (b - a) + a;
      }
    }
  }

  ghost predicate After(es: seq<Event>, t: int) { forall e :: e in es ==> e.now > t }

  lemma CycleStep(rows: Rows, e: Event, id: DeliveryId)
    requires e.Cycle? && Enabled(rows, e) && id in e.batch
    ensures id in Step(rows, e) && id in rows && Step(rows, e)[id].attempts == rows[id].attempts + 1
  {
    var i :| 0 <= i < |e.batch| && e.batch[i] == id;
    Attempted(rows, e.batch, e.tries, i);
  }

  lemma Attempted(rows: Rows, batch: seq<DeliveryId>, tries: seq<Try>, i: nat)
    requires |batch| == |tries| && i < |batch|
    requires forall k :: 0 <= k < |batch| ==> batch[k] in rows
    requires forall k, l :: 0 <= k < l < |batch| ==> batch[k] != batch[l]
    ensures batch[i] in AfterBatch(rows, batch, tries)
    ensures AfterBatch(rows, batch, tries)[batch[i]].attempts == rows[batch[i]].attempts + 1
  {
    BatchRows(rows, batch, tries);
  }

  lemma EnqueueStep(rows: Rows, e: Event, id: DeliveryId)
    requires e.Enqueue? && id in rows && rows[id].next < e.now
    ensures id in Step(rows, e) && Step(rows, e)[id] == rows[id] && Ahead(Step(rows, e), id) == Ahead(rows, id)
  {
  }

  /** One event seen from a waiting delivery: it is attempted, or it waits on with 25 fewer ahead
      when the event is a cycle, and no more ahead when it is not. */
  lemma WaitStep(rows: Rows, e: Event, id: DeliveryId)
    requires id in rows && rows[id].status.Pending? && rows[id].next < e.now
    ensures id in Step(rows, e)
    ensures Step(rows, e)[id].attempts > rows[id].attempts
            || (Step(rows, e)[id] == rows[id]
                && |Ahead(Step(rows, e), id)| + (if e.Cycle? && Enabled(rows, e) then BATCH else 0) <= |Ahead(rows, id)|)
  {
    if e.Cycle? && Enabled(rows, e) {
      if id in e.batch {
        CycleStep(rows, e, id);
      } else {
        CycleServes(rows, e, id);
      }
    } else if e.Enqueue? {
      EnqueueStep(rows, e, id);
    }
  }

  lemma AttemptsGrow(rows: Rows, e: Event, id: DeliveryId)
    requires id in rows
    ensures id in Step(rows, e) && Step(rows, e)[id].attempts >= rows[id].attempts
  {
    if e.Cycle? && Enabled(rows, e) {
      BatchRows(rows, e.batch, e.tries);
      if id in e.batch {
        CycleStep(rows, e, id);
      }
    }
  }

  lemma {:induction false} WaitingShrinks(rows: Rows, es: seq<Event>, id: DeliveryId)
    requires id in rows && rows[id].status.Pending? && After(es, rows[id].next)
    ensures id in Run(rows, es)
    ensures Run(rows, es)[id].attempts > rows[id].attempts
            || (Run(rows, es)[id] == rows[id]
                && |Ahead(Run(rows, es), id)| + BATCH * Cycles(rows, es) <= |Ahead(rows, id)|)
  {
    if es != [] {
      var init, e := es[..|es| - 1], es[|es| - 1];
      assert e in es && forall x :: x in init ==> x in es;
      WaitingShrinks(rows, init, id);
      AttemptsGrow(Run(rows, init), e, id);
      if Run(rows, init)[id] == rows[id] {
        WaitStep(Run(rows, init), e, id);
      }
    }
  }

  /** A due delivery with k pending ones ahead of it is attempted by cycle k / 25 + 1, whatever is
      enqueued or rescheduled in the meantime. */
  lemma {:induction false} DueIsServed(rows: Rows, es: seq<Event>, id: DeliveryId)
    requires id in rows && rows[id].status.Pending? && After(es, rows[id].next)
    requires Cycles(rows, es) >= |Ahead(rows, id)| / BATCH + 1
    ensures id in Run(rows, es) && Run(rows, es)[id].attempts > rows[id].attempts
  {
    WaitingShrinks(rows, es, id);
  }
}
