/** The reservation table and the middleware as objects that change in place. */
module IdempotencyServer {
  import opened Wrappers
  import opened IdempotencyProtocol
  import opened HandlerAnswer

  /** Buffers what the handler answers while passing it on to the client, who has the head from the
      first write of the body on. */
  class CaptureWriter {
    var buf: Bytes
    var status: int
    var contentType: string
    var sent: Bytes
    var sentHead: Option<Head>

    /** What is stored is what the client has. */
    predicate BodyIsSent()
      reads this
    {
      buf == sent
    }

    constructor ()
      ensures buf == [] && status == 200 && contentType == "" && BodyIsSent() && sentHead.None?
    {
      buf, status, contentType, sent, sentHead := [], 200, "", [], None;
    }

    method Write(b: Bytes)
      modifies this`buf, this`sent, this`sentHead
      ensures buf == old(buf) + b && sent == old(sent) + b
      ensures old(BodyIsSent()) ==> BodyIsSent()
      ensures sentHead == if old(sentHead).Some? then old(sentHead) else Some(Head(status, contentType))
    {
      buf := buf + b;
      if sentHead.None? {
        sentHead := Some(Head(status, contentType));
      }
      sent := sent + b;
    }

    /** Too late for the client once the body has begun, but captured all the same. */
    method WriteHeader(code: int)
      modifies this`status
      ensures status == code
      ensures old(BodyIsSent()) ==> BodyIsSent()
    {
      status := code;
    }

    method SetContentType(ct: string)
      modifies this`contentType
      ensures contentType == ct
      ensures old(BodyIsSent()) ==> BodyIsSent()
    {
      contentType := ct;
    }
  }

  /** The head the client has got so far. */
  function SentHead(ops: seq<HandlerOp>): Option<Head> {
    if ops == [] then None
    else
      var init := ops[..|ops| - 1];
      if SentHead(init).None? && ops[|ops| - 1].Body? then Some(HeadOf(Answer(init))) else SentHead(init)
  }

  /** What the client gets: the head it has when the handler is done, or that of an answer without a body. */
  function ClientGets(ops: seq<HandlerOp>): Response {
    match SentHead(ops)
    case None => Answer(ops)
    case Some(h) => Response(h.status, Answer(ops).body, h.contentType)
  }

  predicate BodyBegins(ops: seq<HandlerOp>, k: int) {
    0 <= k < |ops| && ops[k].Body? && forall i :: 0 <= i < k ==> !ops[i].Body?
  }

  lemma {:induction false} HeadMeansBody(ops: seq<HandlerOp>)
    ensures SentHead(ops).None? <==> forall i :: 0 <= i < |ops| ==> !ops[i].Body?
  {
    if ops != [] {
      var n := |ops| - 1;
      HeadMeansBody(ops[..n]);
      assert ops == ops[..n] + [ops[n]];
      assert (forall i :: 0 <= i < n ==> !ops[..n][i].Body?) <==> forall i :: 0 <= i < n ==> !ops[i].Body?;
    }
  }

  lemma {:induction false} HeadWhenBodyBegins(ops: seq<HandlerOp>, k: int)
    requires BodyBegins(ops, k)
    ensures SentHead(ops) == Some(HeadOf(Answer(ops[..k])))
  {
    var n := |ops| - 1;
    HeadMeansBody(ops[..n]);
    if k < n {
      assert BodyBegins(ops[..n], k) && ops[..n][..k] == ops[..k];
      HeadWhenBodyBegins(ops[..n], k);
    }
  }

  lemma {:induction false} FirstBody(ops: seq<HandlerOp>) returns (k: nat)
    requires exists i :: 0 <= i < |ops| && ops[i].Body?
    ensures BodyBegins(ops, k)
  {
    k := 0;
    while !ops[k].Body?
      invariant k < |ops| && forall i :: 0 <= i < k ==> !ops[i].Body?
      decreases |ops| - k
    {
      k := k + 1;
    }
  }

  /** The stored answer, and so every replay, is what the first client got if and only if the status
      and type set when the body began are those the handler ended with. */
  lemma {:induction false} StoredIsSentExactly(ops: seq<HandlerOp>)
    ensures Answer(ops).body == ClientGets(ops).body
    ensures Answer(ops) == ClientGets(ops)
            <==> forall k :: BodyBegins(ops, k) ==> HeadOf(Answer(ops[..k])) == HeadOf(Answer(ops))
  {
    HeadMeansBody(ops);
    if SentHead(ops).Some? {
      var k := FirstBody(ops);
      HeadWhenBodyBegins(ops, k);
    }
  }

  /** `stored` is what is kept for replays, `sent` what this client got. */
  datatype Served = Ran(stored: Response, sent: Response) | Panicked | Refused(reply: Reply)

  /** What a reservation is answered, `None` when the slot is the caller's. */
  ghost predicate ReserveAnswers(rows: map<Slot, Row>, slot: Slot, hash: Hash, r: Option<Reply>) {
    && (r == None <==> slot !in rows)
    && (r == Some(Mismatch) <==> slot in rows && rows[slot].hash != hash)
    && (r == Some(InFlight) <==> slot in rows && rows[slot].hash == hash && rows[slot].status == Pending)
    && forall resp :: r == Some(Replayed(resp)) <==>
         slot in rows && rows[slot].hash == hash && rows[slot].status == Completed(resp)
  }

  /** What the client gets: the head set when the body begins, or last if there is none, and the body. */
  ghost predicate IsSent(r: Response, ops: seq<HandlerOp>) {
    && (forall k :: BodyBegins(ops, k) ==> IsHead(HeadOf(r), ops[..k]))
    && ((forall i :: 0 <= i < |ops| ==> !ops[i].Body?) ==> IsHead(HeadOf(r), ops))
    && r.body == Concat(Bodies(ops))
  }

  lemma {:induction false} ClientGetsSent(ops: seq<HandlerOp>)
    ensures IsSent(ClientGets(ops), ops)
  {
    AnswerIsLast(ops);
    HeadMeansBody(ops);
    forall k | BodyBegins(ops, k) ensures IsHead(HeadOf(ClientGets(ops)), ops[..k]) {
      HeadWhenBodyBegins(ops, k);
      AnswerIsLast(ops[..k]);
    }
  }

  class Table {
    var rows: map<Slot, Row>

    constructor ()
      ensures rows == map[]
    {
      rows := map[];
    }

    /** The INSERT of Reserve; true when this call placed the row. */
    method TryInsert(slot: Slot, hash: Hash) returns (inserted: bool)
      modifies this
      ensures rows == Claim(old(rows), slot, hash)
      ensures rows == if inserted then old(rows)[slot := Row(hash, Pending)] else old(rows)
      ensures inserted <==> slot !in old(rows)
    {
      inserted := slot !in rows;
      if inserted {
        rows := rows[slot := Row(hash, Pending)];
      }
    }

    /** Reserve with nothing in between: the INSERT, then the lookup of the holder. */
    method Reserve(slot: Slot, hash: Hash) returns (r: Option<Reply>)
      modifies this
      ensures rows == Claim(old(rows), slot, hash)
      ensures r == if slot in old(rows) then Some(LookupReply(old(rows), slot, hash)) else None
      ensures rows == if r.None? then old(rows)[slot := Row(hash, Pending)] else old(rows)
      ensures ReserveAnswers(old(rows), slot, hash, r)
    {
      var inserted := TryInsert(slot, hash);
      if inserted {
        return None;
      }
      var row := rows[slot];
      if row.hash != hash {
        return Some(Mismatch);
      }
      if row.status.Pending? {
        return Some(InFlight);
      }
      return Some(Replayed(row.status.response));
    }

    method Complete(slot: Slot, resp: Response) returns (found: bool)
      modifies this
      ensures rows == Promote(old(rows), slot, resp)
      ensures found <==> slot in old(rows) && old(rows)[slot].status.Pending?
      ensures rows == if found then old(rows)[slot := Row(old(rows)[slot].hash, Completed(resp))] else old(rows)
    {
      found := slot in rows && rows[slot].status.Pending?;
      if found {
        rows := rows[slot := Row(rows[slot].hash, Completed(resp))];
      }
    }

    method ReleasePending(slot: Slot)
      modifies this
      ensures rows == Drop(old(rows), slot)
      ensures rows == if slot in old(rows) && old(rows)[slot].status.Pending? then old(rows) - {slot} else old(rows)
    {
      if slot in rows && rows[slot].status.Pending? {
        rows := rows - {slot};
      }
    }

    /** One request from beginning to end. The handler runs only on a free slot; a panic frees the
        slot, and a return keeps it with the captured answer, or pending when that write is lost. */
    method Serve(slot: Slot, hash: Hash, ops: seq<HandlerOp>, panics: bool, stored: bool) returns (r: Served)
      modifies this
      ensures slot in old(rows) ==>
                rows == old(rows) && r.Refused? && ReserveAnswers(old(rows), slot, hash, Some(r.reply))
      ensures slot !in old(rows) && panics ==>
                r == Panicked && rows == if stored then old(rows) else old(rows)[slot := Row(hash, Pending)]
      ensures slot !in old(rows) && !panics ==>
                && r == Ran(Answer(ops), ClientGets(ops)) && IsAnswer(r.stored, ops) && IsSent(r.sent, ops)
                && rows == old(rows)[slot := Row(hash, if stored then Completed(r.stored) else Pending)]
    {
      var refused := Reserve(slot, hash);
      if refused.Some? {
        return Refused(refused.value);
      }
      var resp, sent := RunHandler(ops);
      if panics {
        if stored {
          ReleasePending(slot);
        }
        return Panicked;
      }
      if stored {
        var _ := Complete(slot, resp);
      }
      return Ran(resp, sent);
    }
  }

  /** The handler on a writer of its own: what the writer captured, and what the client got. */
  method RunHandler(ops: seq<HandlerOp>) returns (resp: Response, sent: Response)
    ensures resp == Answer(ops) && sent == ClientGets(ops)
    ensures IsAnswer(resp, ops) && IsSent(sent, ops)
  {
    var w := new CaptureWriter();
    assert ops[..0] == [];
    for i := 0 to |ops|
      invariant Response(w.status, w.buf, w.contentType) == Answer(ops[..i])
      invariant w.BodyIsSent() && w.sentHead == SentHead(ops[..i])
    {
      assert ops[..i + 1][..i] == ops[..i];
      match ops[i]
      case Header(code) => w.WriteHeader(code);
      case Type(ct) => w.SetContentType(ct);
      case Body(b) => w.Write(b);
    }
    assert ops[..|ops|] == ops;
    var head := if w.sentHead.Some? then w.sentHead.value else Head(w.status, w.contentType);
    resp, sent := Response(w.status, w.buf, w.contentType), Response(head.status, w.sent, head.contentType);
    AnswerIsLast(ops);
    ClientGetsSent(ops);
  }

  function HandlerEvents(r: RequestId, ops: seq<HandlerOp>): seq<Event> {
    if ops == [] then []
    else HandlerEvents(r, ops[..|ops| - 1]) + [
      match ops[|ops| - 1]
      case Header(code) => WriteHeader(r, code)
      case Type(ct) => SetContentType(r, ct)
      case Body(b) => Write(r, b)]
  }

  lemma {:induction false} HandlerRunCaptures(s: State, r: RequestId, ops: seq<HandlerOp>)
    requires r in s.requests && s.requests[r].phase.Running? && s.requests[r].Captured() == Response(200, [], "")
    ensures var s' := Run(s, HandlerEvents(r, ops));
            && s'.rows == s.rows && r in s'.requests && s'.requests[r].phase.Running?
            && s'.requests[r].slot == s.requests[r].slot
            && s'.requests[r].Captured() == Answer(ops)
  {
    if ops != [] {
      var init := ops[..|ops| - 1];
      HandlerRunCaptures(s, r, init);
      var es := HandlerEvents(r, ops);
      assert es[..|es| - 1] == HandlerEvents(r, init);
    }
  }

  function Closing(r: RequestId, panics: bool, stored: bool): seq<Event> {
    if panics then [Panic(r), Release(r, stored)] else [Return(r), Complete(r, stored)]
  }

  /** Serving a free slot is a run of the protocol, and leaves the rows that `Serve` leaves. */
  lemma ServeIsARun(rows: map<Slot, Row>, slot: Slot, hash: Hash, ops: seq<HandlerOp>, panics: bool, stored: bool)
    requires slot !in rows
    ensures var claimed := Run(State(rows, map[]), [Arrive(0, slot, hash), Insert(0)]);
            Run(Run(claimed, HandlerEvents(0, ops)), Closing(0, panics, stored)).rows
            == if panics && stored then rows
               else rows[slot := Row(hash, if !panics && stored then Completed(Answer(ops)) else Pending)]
  {
    ClaimedState(rows, slot, hash);
    var claimed := Run(State(rows, map[]), [Arrive(0, slot, hash), Insert(0)]);
    HandlerRunCaptures(claimed, 0, ops);
    ClosingRows(Run(claimed, HandlerEvents(0, ops)), 0, panics, stored);
    ClosedRows(rows, slot, hash, Answer(ops));
  }

  lemma ClaimedState(rows: map<Slot, Row>, slot: Slot, hash: Hash)
    requires slot !in rows
    ensures var s := Run(State(rows, map[]), [Arrive(0, slot, hash), Insert(0)]);
            && s.rows == rows[slot := Row(hash, Pending)] && 0 in s.requests && s.requests[0].phase.Running?
            && s.requests[0].slot == slot && s.requests[0].Captured() == Response(200, [], "")
  {
    TwoSteps(State(rows, map[]), [Arrive(0, slot, hash), Insert(0)]);
  }

  lemma ClosedRows(rows: map<Slot, Row>, slot: Slot, hash: Hash, resp: Response)
    requires slot !in rows
    ensures Drop(rows[slot := Row(hash, Pending)], slot) == rows
    ensures Promote(rows[slot := Row(hash, Pending)], slot, resp) == rows[slot := Row(hash, Completed(resp))]
  {
  }

  lemma ClosingRows(s: State, r: RequestId, panics: bool, stored: bool)
    requires r in s.requests && s.requests[r].phase.Running?
    ensures var q := s.requests[r];
            Run(s, Closing(r, panics, stored)).rows
            == if !stored then s.rows else if panics then Drop(s.rows, q.slot) else Promote(s.rows, q.slot, q.Captured())
  {
    var es := Closing(r, panics, stored);
    TwoSteps(s, es);
    var closing := Step(s, es[0]);
    assert closing.rows == s.rows && closing.requests[r].slot == s.requests[r].slot;
    assert closing.requests[r].Captured() == s.requests[r].Captured();
  }

  lemma TwoSteps(s: State, es: seq<Event>)
    requires |es| == 2
    ensures Run(s, es) == Step(Step(s, es[0]), es[1])
  {
    assert es[..1][..0] == [];
    assert Run(s, es[..1]) == Step(Run(s, []), es[0]);
  }
}
