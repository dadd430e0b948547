/** The delivery table and the cycle that works it off, changed in place. */
module WebhookServer {
  import opened WebhookQueue

  class Server {
    var rows: Rows

    constructor ()
      ensures rows == map[]
    {
      rows := map[];
    }

    method EnqueueDelivery(id: DeliveryId, now: int)
      modifies this
      ensures rows == Step(old(rows), Enqueue(id, now))
      ensures rows == if id in old(rows) then old(rows) else old(rows)[id := Delivery(0, now, Pending, [])]
    {
      if id !in rows {
        rows := rows[id := Delivery(0, now, Pending, [])];
      }
    }

    /** A due row that waits longest among those not taken yet. */
    method Earliest(left: set<DeliveryId>) returns (id: DeliveryId)
      requires left != {} && left <= rows.Keys
      ensures id in left && forall x :: x in left ==> rows[id].next <= rows[x].next
    {
      var rest := left;
      id :| id in rest;
      rest := rest - {id};
      while rest != {}
        invariant rest <= left && id in left && id !in rest
        invariant forall x :: x in left && x !in rest ==> rows[id].next <= rows[x].next
        decreases |rest|
      {
        var x :| x in rest;
        rest := rest - {x};
        if rows[x].next < rows[id].next {
          id := x;
        }
      }
    }

    /** SELECT due rows ORDER BY next_attempt_at LIMIT; a limit out of range means 25. */
    method DequeuePending(now: int, wanted: int) returns (batch: seq<DeliveryId>)
      ensures IsBatch(rows, now, if wanted <= 0 || wanted > 100 then BATCH else wanted, batch)
      ensures IsDueBatch(rows, now, if wanted <= 0 || wanted > 100 then 25 else wanted, batch)
    {
      var limit: nat := BATCH;
      if !(wanted <= 0 || wanted > 100) {
        limit := wanted;
      }
      var left := set id | id in rows && Due(rows[id], now);
      batch := [];
      while left != {} && |batch| < limit
        invariant |batch| <= limit && Picked(rows, now, left, batch)
        decreases |left|
      {
        var id := Earliest(left);
        PickNext(rows, now, left, batch, id);
        left := left - {id};
        batch := batch + [id];
      }
      PickedIsBatch(rows, now, left, batch, limit);
      BatchIsDue(rows, now, limit, batch);
    }

    method UpdateDeliveryAttempt(id: DeliveryId, attempts: nat, status: Status, next: int, start: int)
      requires id in rows
      modifies this
      ensures rows == old(rows)[id := Delivery(attempts, next, status, old(rows)[id].tried + [start])]
    {
      rows := rows[id := Delivery(attempts, next, status, rows[id].tried + [start])];
    }

    /** The failure path: dead after the last attempt, otherwise pending until the backoff is over. */
    method HandleFailure(id: DeliveryId, attempts: nat, t: Try)
      requires id in rows && attempts == rows[id].attempts + 1 && t.outcome.Refused?
      modifies this
      ensures rows == old(rows)[id := AfterAttempt(old(rows)[id], t)]
      ensures Tried(old(rows)[id], t, rows[id])
    {
      TriedAsWritten(rows[id], t);
      var status := NextStatus(attempts);
      if status == Dead {
        UpdateDeliveryAttempt(id, attempts, Dead, t.end, t.start);
      } else {
        UpdateDeliveryAttempt(id, attempts, Pending, t.end + Backoff(attempts), t.start);
      }
    }

    /** One attempt, from the copy `d` the batch was listed with. */
    method Attempt(id: DeliveryId, d: Delivery, t: Try)
      requires id in rows && rows[id] == d
      modifies this
      ensures rows == old(rows)[id := AfterAttempt(d, t)] && Tried(d, t, rows[id])
    {
      TriedAsWritten(d, t);
      match t.outcome
      case NoHook => UpdateDeliveryAttempt(id, d.attempts + 1, Failed, t.end + HOUR, t.start);
      case BadRequest => UpdateDeliveryAttempt(id, d.attempts + 1, Failed, t.end + HOUR, t.start);
      case Refused => HandleFailure(id, d.attempts + 1, t);
      case Accepted => UpdateDeliveryAttempt(id, d.attempts + 1, Delivered, t.end, t.start);
    }

    /** One cycle: at most 25 due deliveries, one attempt each; `tries` says how they go. */
    method RunDeliveryCycle(now: int, tries: seq<Try>) returns (batch: seq<DeliveryId>)
      requires |tries| == BATCH && forall t :: t in tries ==> now <= t.start <= t.end
      modifies this
      ensures IsBatch(old(rows), now, BATCH, batch) && IsDueBatch(old(rows), now, 25, batch)
      ensures BatchTried(old(rows), rows, batch, tries[..|batch|])
      ensures rows == Step(old(rows), Cycle(now, batch, tries[..|batch|]))
    {
      batch := DequeuePending(now, BATCH);
      forall t | t in tries[..|batch|] ensures now <= t.start <= t.end {
        assert t in tries;
      }
      assert Enabled(rows, Cycle(now, batch, tries[..|batch|]));
      AttemptAll(batch, tries[..|batch|]);
    }

    /** One attempt each, from the copies the batch was listed with. */
    method AttemptAll(batch: seq<DeliveryId>, tries: seq<Try>)
      requires |tries| == |batch| && (forall i :: 0 <= i < |batch| ==> batch[i] in rows)
      requires forall i, k :: 0 <= i < k < |batch| ==> batch[i] != batch[k]
      modifies this
      ensures rows == AfterBatch(old(rows), batch, tries) && BatchTried(old(rows), rows, batch, tries)
    {
      var listed := rows;
      assert batch[..0] == [] && tries[..0] == [];
      for i := 0 to |batch|
        invariant rows == AfterBatch(listed, batch[..i], tries[..i])
      {
        NextIsUntouched(listed, batch, tries, i);
        Attempt(batch[i], listed[batch[i]], tries[i]);
        assert batch[..i + 1][..i] == batch[..i] && tries[..i + 1][..i] == tries[..i];
      }
      assert batch[..|batch|] == batch && tries[..|batch|] == tries;
      BatchIsTried(listed, batch, tries);
    }
  }

  // ---- over the columns ----

  /** Pending deliveries whose time has come, by due time, at most `limit`; one that is left out waits
      behind a full batch. */
  ghost predicate IsDueBatch(rows: Rows, now: int, limit: nat, batch: seq<DeliveryId>) {
    && |batch| <= limit
    && (forall i :: 0 <= i < |batch| ==> batch[i] in rows && rows[batch[i]].status == Pending && rows[batch[i]].next <= now)
    && (forall i, k :: 0 <= i < k < |batch| ==> batch[i] != batch[k] && rows[batch[i]].next <= rows[batch[k]].next)
    && (forall id, i :: id in rows && rows[id].status == Pending && rows[id].next <= now && id !in batch && 0 <= i < |batch|
                        ==> rows[batch[i]].next <= rows[id].next)
    && ((exists id :: id in rows && rows[id].status == Pending && rows[id].next <= now && id !in batch) ==> |batch| == limit)
  }

  /** Seconds to wait after the first four failures. */
  const WAITS: seq<int> := [1, 2, 4, 8]

  /** What an attempt makes of a delivery: an accepted one is delivered; one whose webhook is gone or
      whose request cannot be built has failed; any other waits 1, 2, 4 or 8 seconds for the next try
      and is dead after the fifth. */
  ghost predicate Tried(d: Delivery, t: Try, d': Delivery) {
    && d'.attempts == d.attempts + 1 && d'.tried == d.tried + [t.start]
    && (t.outcome == Accepted ==> d'.status == Delivered && d'.next == t.end)
    && (t.outcome == NoHook || t.outcome == BadRequest ==> d'.status == Failed && d'.next == t.end + 3_600_000_000_000)
    && (t.outcome == Refused && d.attempts >= 4 ==> d'.status == Dead && d'.next == t.end)
    && (t.outcome == Refused && d.attempts < 4 ==>
          d'.status == Pending && d'.next == t.end + WAITS[d.attempts] * 1_000_000_000)
  }

  /** Each delivery of the batch was tried, and no other changed. */
  ghost predicate BatchTried(rows: Rows, rows': Rows, batch: seq<DeliveryId>, tries: seq<Try>) {
    && |batch| == |tries| && rows'.Keys == rows.Keys
    && (forall id :: id in rows && id !in batch ==> rows'[id] == rows[id])
    && (forall i :: 0 <= i < |batch| ==> batch[i] in rows && Tried(rows[batch[i]], tries[i], rows'[batch[i]]))
  }

  /** The batch so far holds the due rows but those left, by due time, none later than what is left. */
  ghost predicate Picked(rows: Rows, now: int, left: set<DeliveryId>, batch: seq<DeliveryId>) {
    && (forall id :: id in left || id in batch <==> id in rows && Due(rows[id], now))
    && (forall id :: id in left ==> id !in batch)
    && (forall i, id :: 0 <= i < |batch| && id in left ==> rows[batch[i]].next <= rows[id].next)
    && (forall i, k :: 0 <= i < k < |batch| ==> batch[i] != batch[k] && rows[batch[i]].next <= rows[batch[k]].next)
  }

  lemma PickNext(rows: Rows, now: int, left: set<DeliveryId>, batch: seq<DeliveryId>, id: DeliveryId)
    requires Picked(rows, now, left, batch) && id in left && forall x :: x in left ==> rows[id].next <= rows[x].next
    ensures Picked(rows, now, left - {id}, batch + [id])
  {
    assert forall x :: x in batch + [id] <==> x in batch || x == id;
  }

  lemma PickedIsBatch(rows: Rows, now: int, left: set<DeliveryId>, batch: seq<DeliveryId>, limit: nat)
    requires Picked(rows, now, left, batch) && |batch| <= limit && (left == {} || |batch| == limit)
    ensures IsBatch(rows, now, limit, batch)
  {
    assert forall i :: 0 <= i < |batch| ==> batch[i] in batch;
  }

  lemma BatchIsDue(rows: Rows, now: int, limit: nat, batch: seq<DeliveryId>)
    requires IsBatch(rows, now, limit, batch)
    ensures IsDueBatch(rows, now, limit, batch)
  {
    assert forall id :: id in rows ==> id in rows.Keys;
  }

  lemma NextIsUntouched(rows: Rows, batch: seq<DeliveryId>, tries: seq<Try>, i: nat)
    requires |tries| == |batch| && i < |batch| && (forall k :: 0 <= k < |batch| ==> batch[k] in rows)
    requires forall k, l :: 0 <= k < l < |batch| ==> batch[k] != batch[l]
    ensures batch[i] in AfterBatch(rows, batch[..i], tries[..i])
    ensures AfterBatch(rows, batch[..i], tries[..i])[batch[i]] == rows[batch[i]]
  {
    BatchRows(rows, batch[..i], tries[..i]);
    assert batch[i] !in batch[..i];
  }

  lemma TriedAsWritten(d: Delivery, t: Try)
    ensures Tried(d, t, AfterAttempt(d, t))
  {
    assert Backoff(1) == SECOND && Backoff(2) == 2 * SECOND && Backoff(3) == 4 * SECOND && Backoff(4) == 8 * SECOND;
  }

  lemma BatchIsTried(rows: Rows, batch: seq<DeliveryId>, tries: seq<Try>)
    requires |batch| == |tries|
    requires forall i :: 0 <= i < |batch| ==> batch[i] in rows
    requires forall i, k :: 0 <= i < k < |batch| ==> batch[i] != batch[k]
    ensures BatchTried(rows, AfterBatch(rows, batch, tries), batch, tries)
  {
    BatchRows(rows, batch, tries);
    forall i | 0 <= i < |batch| ensures Tried(rows[batch[i]], tries[i], AfterBatch(rows, batch, tries)[batch[i]]) {
      TriedAsWritten(rows[batch[i]], tries[i]);
    }
  }
}
