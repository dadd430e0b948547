/** The idempotency reservation protocol: concurrent requests that share a scope and a key. Each
    SQL statement, each write of the handler and its return or panic is one step; an event that is
    not enabled leaves the state unchanged. */
module IdempotencyProtocol {
  type RequestId = nat
  type Key = string
  type Hash = string
  type Bytes = seq<bv8>

  /** Keys are scoped per user; anonymous requests share a namespace of their own. */
  datatype Scope = Anonymous | OfUser(user: nat)

  datatype Slot = Slot(scope: Scope, key: Key)

  datatype Response = Response(status: int, body: Bytes, contentType: string)

  datatype RowStatus = Pending | Completed(response: Response)

  datatype Row = Row(hash: Hash, status: RowStatus)

  /** What the client of a short-circuited request is told. */
  datatype Reply = Replayed(response: Response) | Mismatch | InFlight | LookupFailed

  /** Where a request is: about to INSERT, about to look the holder up, running the handler, handler
      returned (Complete not yet tried), handler panicked (release not yet tried), or finished. */
  datatype Phase =
    | Inserting | LookingUp | Running | Completing | Releasing
    | Short(reply: Reply) | Finished

  /** `returned` and `writes` are history: whether the handler returned, and what it wrote. */
  datatype Request = Request(
    slot: Slot, hash: Hash, phase: Phase,
    status: int, buf: Bytes, contentType: string,
    returned: bool, writes: seq<Bytes>)
  {
    function Captured(): Response { Response(status, buf, contentType) }

    /** The request holds the reservation. */
    predicate Owns() { phase.Running? || phase.Completing? || phase.Releasing? }
  }

  datatype State = State(rows: map<Slot, Row>, requests: map<RequestId, Request>)

  datatype Event =
    | Arrive(r: RequestId, slot: Slot, hash: Hash)
    | Insert(r: RequestId)
    | InsertFails(r: RequestId, stored: bool)
    | Lookup(r: RequestId)
    | WriteHeader(r: RequestId, code: int)
    | SetContentType(r: RequestId, ct: string)
    | Write(r: RequestId, bytes: Bytes)
    | Return(r: RequestId)
    | Panic(r: RequestId)
    | Complete(r: RequestId, stored: bool)
    | Release(r: RequestId, stored: bool)

  function Init(): State { State(map[], map[]) }

  // ---- statements on the table ----

  function Concat(bs: seq<Bytes>): Bytes {
    if bs == [] then [] else Concat(bs[..|bs| - 1]) + bs[|bs| - 1]
  }

  /** INSERT ... ON CONFLICT DO NOTHING, over the two partial unique indexes. */
  function Claim(rows: map<Slot, Row>, slot: Slot, hash: Hash): map<Slot, Row> {
    if slot in rows then rows else rows[slot := Row(hash, Pending)]
  }

  function LookupReply(rows: map<Slot, Row>, slot: Slot, hash: Hash): Reply {
    if slot !in rows then LookupFailed
    else if rows[slot].hash != hash then Mismatch
    else
      match rows[slot].status
      case Pending => InFlight
      case Completed(resp) => Replayed(resp)
  }

  /** UPDATE ... WHERE status = 'pending'. */
  function Promote(rows: map<Slot, Row>, slot: Slot, resp: Response): map<Slot, Row> {
    if slot in rows && rows[slot].status.Pending? then rows[slot := rows[slot].(status := Completed(resp))] else rows
  }

  /** DELETE ... WHERE status = 'pending'. */
  function Drop(rows: map<Slot, Row>, slot: Slot): map<Slot, Row> {
    if slot in rows && rows[slot].status.Pending? then rows - {slot} else rows
  }

  // ---- steps ----

  /** The event moves request `r` on from where it is. */
  predicate Enabled(e: Event, q: Request) {
    match e
    case Arrive(_, _, _) => false
    case Insert(_) => q.phase.Inserting?
    case InsertFails(_, _) => q.phase.Inserting?
    case Lookup(_) => q.phase.LookingUp?
    case WriteHeader(_, _) => q.phase.Running?
    case SetContentType(_, _) => q.phase.Running?
    case Write(_, _) => q.phase.Running?
    case Return(_) => q.phase.Running?
    case Panic(_) => q.phase.Running?
    case Complete(_, _) => q.phase.Completing?
    case Release(_, _) => q.phase.Releasing?
  }

  function NextRequest(rows: map<Slot, Row>, q: Request, e: Event): Request {
    match e
    case Arrive(_, _, _) => q
    case Insert(_) => q.(phase := if q.slot in rows then LookingUp else Running)
    case InsertFails(_, _) => q.(phase := Short(LookupFailed))
    case Lookup(_) => q.(phase := Short(LookupReply(rows, q.slot, q.hash)))
    case WriteHeader(_, code) => q.(status := code)
    case SetContentType(_, ct) => q.(contentType := ct)
    case Write(_, bytes) => q.(buf := q.buf + bytes, writes := q.writes + [bytes])
    case Return(_) => q.(phase := Completing, returned := true)
    case Panic(_) => q.(phase := Releasing)
    case Complete(_, _) => q.(phase := Finished)
    case Release(_, _) => q.(phase := Finished)
  }

  function NextRows(rows: map<Slot, Row>, q: Request, e: Event): map<Slot, Row> {
    match e
    case Insert(_) => Claim(rows, q.slot, q.hash)
    case InsertFails(_, stored) => if stored then Claim(rows, q.slot, q.hash) else rows
    case Complete(_, stored) => if stored then Promote(rows, q.slot, q.Captured()) else rows
    case Release(_, stored) => if stored then Drop(rows, q.slot) else rows
    case _ => rows
  }

  function Step(s: State, e: Event): State {
    if e.Arrive? then
      if e.r in s.requests then s
      else s.(requests := s.requests[e.r := Request(e.slot, e.hash, Inserting, 200, [], "", false, [])])
    else if e.r in s.requests && Enabled(e, s.requests[e.r]) then
      var q := s.requests[e.r];
      State(NextRows(s.rows, q, e), s.requests[e.r := NextRequest(s.rows, q, e)])
    else s
  }

  function Run(s: State, es: seq<Event>): State {
    if es == [] then s else Step(Run(s, es[..|es| - 1]), es[|es| - 1])
  }
}
