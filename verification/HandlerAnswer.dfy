/** What a handler answers: the calls it makes on its response writer, and what they add up to. */
module HandlerAnswer {
  import opened IdempotencyProtocol

  datatype HandlerOp = Header(code: int) | Type(ct: string) | Body(bytes: Bytes)

  /** Status and content type. */
  datatype Head = Head(status: int, contentType: string)

  function HeadOf(r: Response): Head { Head(r.status, r.contentType) }

  /** What is stored for the handler's answer. */
  function Answer(ops: seq<HandlerOp>): Response {
    if ops == [] then Response(200, [], "")
    else
      var r := Answer(ops[..|ops| - 1]);
      match ops[|ops| - 1]
      case Header(code) => r.(status := code)
      case Type(ct) => r.(contentType := ct)
      case Body(b) => r.(body := r.body + b)
  }

  ghost predicate LastHeader(ops: seq<HandlerOp>, i: int) {
    0 <= i < |ops| && ops[i].Header? && forall k :: i < k < |ops| ==> !ops[k].Header?
  }

  ghost predicate LastType(ops: seq<HandlerOp>, i: int) {
    0 <= i < |ops| && ops[i].Type? && forall k :: i < k < |ops| ==> !ops[k].Type?
  }

  /** The status is the last one set, or 200. */
  ghost predicate IsStatus(status: int, ops: seq<HandlerOp>) {
    && (forall i :: LastHeader(ops, i) ==> status == ops[i].code)
    && ((forall i :: 0 <= i < |ops| ==> !ops[i].Header?) ==> status == 200)
  }

  /** The content type is the last one set, or empty. */
  ghost predicate IsType(ct: string, ops: seq<HandlerOp>) {
    && (forall i :: LastType(ops, i) ==> ct == ops[i].ct)
    && ((forall i :: 0 <= i < |ops| ==> !ops[i].Type?) ==> ct == "")
  }

  ghost predicate IsHead(h: Head, ops: seq<HandlerOp>) { IsStatus(h.status, ops) && IsType(h.contentType, ops) }

  ghost function Bodies(ops: seq<HandlerOp>): seq<Bytes> {
    if ops == [] then []
    else (if ops[0].Body? then [ops[0].bytes] else []) + Bodies(ops[1..])
  }

  /** And the body is what was written, in order. */
  ghost predicate IsAnswer(r: Response, ops: seq<HandlerOp>) {
    IsHead(HeadOf(r), ops) && r.body == Concat(Bodies(ops))
  }

  lemma {:induction false} BodiesStep(ops: seq<HandlerOp>)
    requires ops != []
    ensures Bodies(ops) == Bodies(ops[..|ops| - 1]) + if ops[|ops| - 1].Body? then [ops[|ops| - 1].bytes] else []
  {
    if |ops| > 1 {
      assert ops[1..][..|ops| - 2] == ops[..|ops| - 1][1..];
      BodiesStep(ops[1..]);
    }
  }

  lemma BodyStep(ops: seq<HandlerOp>)
    requires ops != []
    ensures Concat(Bodies(ops))
            == Concat(Bodies(ops[..|ops| - 1])) + if ops[|ops| - 1].Body? then ops[|ops| - 1].bytes else []
  {
    BodiesStep(ops);
    var bs := Bodies(ops[..|ops| - 1]);
    if ops[|ops| - 1].Body? {
      var b := ops[|ops| - 1].bytes;
      assert (bs + [b])[..|bs + [b]| - 1] == bs;
    } else {
      assert bs + [] == bs;
    }
  }

  lemma StatusStep(status: int, ops: seq<HandlerOp>)
    requires ops != [] && IsStatus(status, ops[..|ops| - 1])
    ensures IsStatus(if ops[|ops| - 1].Header? then ops[|ops| - 1].code else status, ops)
  {
    var n := |ops| - 1;
    forall i | LastHeader(ops, i) ensures (if ops[n].Header? then ops[n].code else status) == ops[i].code {
      if i < n {
        assert LastHeader(ops[..n], i);
      }
    }
  }

  lemma TypeStep(ct: string, ops: seq<HandlerOp>)
    requires ops != [] && IsType(ct, ops[..|ops| - 1])
    ensures IsType(if ops[|ops| - 1].Type? then ops[|ops| - 1].ct else ct, ops)
  {
    var n := |ops| - 1;
    forall i | LastType(ops, i) ensures (if ops[n].Type? then ops[n].ct else ct) == ops[i].ct {
      if i < n {
        assert LastType(ops[..n], i);
      }
    }
  }

  /** The answer has the status and type set last and the bytes written, in order. */
  lemma {:induction false} AnswerIsLast(ops: seq<HandlerOp>)
    ensures IsAnswer(Answer(ops), ops)
  {
    if ops != [] {
      var init := ops[..|ops| - 1];
      AnswerIsLast(init);
      StatusStep(Answer(init).status, ops);
      TypeStep(Answer(init).contentType, ops);
      BodyStep(ops);
    }
  }
}
