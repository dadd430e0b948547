/** Documents and their chain of revisions. Each transaction of the repository is one step. */
module Revisions {
  import opened Wrappers

  type UserId = nat
  type DocId = nat
  type RevId = nat
  type Bytes = seq<bv8>

  datatype Kind = ConfirmationPdf | CheckinPassPng

  /** What a document is about: its owner, the related record, and its kind. */
  datatype Subject = Subject(owner: UserId, relatedType: string, relatedId: nat, kind: Kind)

  datatype Document = Document(subject: Subject, current: nat, created: int)

  datatype Revision = Revision(
    id: RevId, content: Bytes, contentType: string, superseded: bool, supersededBy: Option<RevId>)

  /** UNIQUE (document_id, revision). */
  datatype RevKey = RevKey(doc: DocId, number: nat)

  /** `used` are the document ids ever given out; ids are never reused. */
  datatype Db = Db(docs: map<DocId, Document>, revs: map<RevKey, Revision>, used: set<DocId>)

  datatype Event =
    | Create(id: DocId, subject: Subject, now: int)
    | Append(doc: DocId, id: RevId, content: Bytes, contentType: string)
    | DeleteUser(user: UserId)

  function Init(): Db { Db(map[], map[], {}) }

  // ---- steps ----

  function CreateStep(db: Db, id: DocId, subject: Subject, now: int): Db {
    if id in db.used then db
    else Db(db.docs[id := Document(subject, 0, now)], db.revs, db.used + {id})
  }

  /** Marks the current revision superseded by the new one, inserts the new one, and bumps the
      document, all or nothing. */
  function AppendStep(db: Db, doc: DocId, id: RevId, content: Bytes, contentType: string): Db {
    if doc !in db.docs || IdTaken(db, id) then db
    else
      var current := db.docs[doc].current;
      var last, next := RevKey(doc, current), RevKey(doc, current + 1);
      var marked :=
        if last in db.revs
        then db.revs[last := db.revs[last].(superseded := true, supersededBy := Some(id))] else db.revs;
      if next in marked then db
      else db.(revs := marked[next := Revision(id, content, contentType, false, None)],
               docs := db.docs[doc := db.docs[doc].(current := current + 1)])
  }

  predicate IdTaken(db: Db, id: RevId) { exists k | k in db.revs.Keys :: db.revs[k].id == id }

  /** A deleted user takes their documents and revisions along. */
  function DeleteStep(db: Db, user: UserId): Db {
    db.(docs := map d | d in db.docs && db.docs[d].subject.owner != user :: db.docs[d],
        revs := map k | k in db.revs && (k.doc in db.docs ==> db.docs[k.doc].subject.owner != user) :: db.revs[k])
  }

  function Step(db: Db, e: Event): Db {
    match e
    case Create(id, subject, now) => CreateStep(db, id, subject, now)
    case Append(doc, id, content, contentType) => AppendStep(db, doc, id, content, contentType)
    case DeleteUser(u) => DeleteStep(db, u)
  }

  function Run(db: Db, es: seq<Event>): Db {
    if es == [] then db else Step(Run(db, es[..|es| - 1]), es[|es| - 1])
  }

  // ---- the chain ----

  ghost predicate Numbered(db: Db) {
    && (forall k :: k in db.revs ==> k.doc in db.docs && 1 <= k.number <= db.docs[k.doc].current)
    && (forall d, n: nat :: d in db.docs && 1 <= n <= db.docs[d].current ==> RevKey(d, n) in db.revs)
  }

  /** Only the last revision stands; each earlier one names the next as what replaced it. */
  ghost predicate LinkedAt(db: Db, k: RevKey)
    requires k in db.revs && k.doc in db.docs
  {
    var r, next := db.revs[k], RevKey(k.doc, k.number + 1);
    if k.number == db.docs[k.doc].current then !r.superseded && r.supersededBy.None?
    else next in db.revs && r.superseded && r.supersededBy == Some(db.revs[next].id)
  }

  ghost predicate Linked(db: Db) {
    forall k {:trigger LinkedAt(db, k)} :: k in db.revs && k.doc in db.docs ==> LinkedAt(db, k)
  }

  ghost predicate Inv(db: Db) {
    && db.docs.Keys <= db.used && Numbered(db) && Linked(db)
    && (forall k, l :: k in db.revs && l in db.revs && db.revs[k].id == db.revs[l].id ==> k == l)
  }

  /** What an append that goes through does. */
  lemma AppendShape(db: Db, doc: DocId, id: RevId, content: Bytes, contentType: string)
    requires Numbered(db) && doc in db.docs && !IdTaken(db, id)
    ensures var db', n := AppendStep(db, doc, id, content, contentType), db.docs[doc].current;
            && db'.used == db.used
            && db'.docs == db.docs[doc := db.docs[doc].(current := n + 1)]
            && db'.revs.Keys == db.revs.Keys + {RevKey(doc, n + 1)} && RevKey(doc, n + 1) !in db.revs
            && db'.revs[RevKey(doc, n + 1)] == Revision(id, content, contentType, false, None)
            && (forall k :: k in db.revs ==>
                  db'.revs[k] == if k == RevKey(doc, n) then db.revs[k].(superseded := true, supersededBy := Some(id))
                                 else db.revs[k])
  {
  }

  lemma AppendKeepsIds(db: Db, doc: DocId, id: RevId, content: Bytes, contentType: string)
    requires Inv(db) && doc in db.docs && !IdTaken(db, id)
    ensures var revs := AppendStep(db, doc, id, content, contentType).revs;
            forall k, l :: k in revs && l in revs && revs[k].id == revs[l].id ==> k == l
  {
    AppendShape(db, doc, id, content, contentType);
    forall k | k in db.revs ensures db.revs[k].id != id {
      assert k in db.revs.Keys;
    }
  }

  lemma AppendKeepsNumbers(db: Db, doc: DocId, id: RevId, content: Bytes, contentType: string)
    requires Numbered(db) && doc in db.docs && !IdTaken(db, id)
    ensures Numbered(AppendStep(db, doc, id, content, contentType))
  {
    AppendShape(db, doc, id, content, contentType);
  }

  lemma AppendKeepsLinks(db: Db, doc: DocId, id: RevId, content: Bytes, contentType: string)
    requires Inv(db) && doc in db.docs && !IdTaken(db, id)
    ensures var db' := AppendStep(db, doc, id, content, contentType); Numbered(db') && Linked(db')
  {
    AppendShape(db, doc, id, content, contentType);
    AppendKeepsNumbers(db, doc, id, content, contentType);
    var db', n := AppendStep(db, doc, id, content, contentType), db.docs[doc].current;
    forall k | k in db'.revs && k.doc in db'.docs ensures LinkedAt(db', k) {
      if k == RevKey(doc, n + 1) {
      } else if k == RevKey(doc, n) {
        assert LinkedAt(db, k);
      } else {
        assert LinkedAt(db, k) && db'.revs[k] == db.revs[k];
      }
    }
  }

  lemma AppendKeeps(db: Db, doc: DocId, id: RevId, content: Bytes, contentType: string)
    requires Inv(db)
    ensures Inv(AppendStep(db, doc, id, content, contentType))
  {
    if doc in db.docs && !IdTaken(db, id) {
      AppendShape(db, doc, id, content, contentType);
      AppendKeepsIds(db, doc, id, content, contentType);
      AppendKeepsLinks(db, doc, id, content, contentType);
    }
  }

  lemma StepKeeps(db: Db, e: Event)
    requires Inv(db)
    ensures Inv(Step(db, e))
  {
    if e.Append? {
      AppendKeeps(db, e.doc, e.id, e.content, e.contentType);
    } else {
      forall k | k in Step(db, e).revs ensures LinkedAt(Step(db, e), k) {
        assert LinkedAt(db, k);
      }
    }
  }

  lemma {:induction false} RunKeeps(db: Db, es: seq<Event>)
    requires Inv(db)
    ensures Inv(Run(db, es))
  {
    if es != [] {
      RunKeeps(db, es[..|es| - 1]);
      StepKeeps(Run(db, es[..|es| - 1]), es[|es| - 1]);
    }
  }

  // ---- main results ----

  /** The chain at number `n`: which revisions there are, and what each says of its successor. */
  ghost predicate WholeAt(db: Db, d: DocId, n: nat)
    requires d in db.docs
  {
    var current, k, next := db.docs[d].current, RevKey(d, n), RevKey(d, n + 1);
    && (k in db.revs <==> 1 <= n <= current)
    && (k in db.revs ==> (db.revs[k].superseded <==> n < current))
    && (k in db.revs && n < current ==> next in db.revs && db.revs[k].supersededBy == Some(db.revs[next].id))
    && (k in db.revs && n == current ==> db.revs[k].supersededBy == None)
  }

  /** In every run the revisions of a document are exactly 1 to its current number, only the last is
      not superseded, and each earlier one is superseded by the next. */
  lemma {:induction false} ChainIsWhole(es: seq<Event>, d: DocId)
    requires d in Run(Init(), es).docs
    ensures forall n: nat :: WholeAt(Run(Init(), es), d, n)
  {
    forall n: nat ensures WholeAt(Run(Init(), es), d, n) {
      RunKeeps(Init(), es);
      WholeChain(Run(Init(), es), d, n);
    }
  }

  lemma WholeChain(db: Db, d: DocId, n: nat)
    requires Inv(db) && d in db.docs
    ensures WholeAt(db, d, n)
  {
    assert RevKey(d, n) in db.revs ==> LinkedAt(db, RevKey(d, n));
  }

  /** The row with the greatest number, which is what the current-revision query answers. */
  ghost predicate IsLatest(db: Db, d: DocId, n: nat) {
    RevKey(d, n) in db.revs && forall m: nat :: RevKey(d, m) in db.revs ==> m <= n
  }

  lemma {:induction false} LatestIsCurrent(es: seq<Event>, d: DocId, n: nat)
    requires d in Run(Init(), es).docs
    ensures var db := Run(Init(), es);
            IsLatest(db, d, n) <==> n == db.docs[d].current && n >= 1
  {
    RunKeeps(Init(), es);
    var db := Run(Init(), es);
    var current := db.docs[d].current;
    if current >= 1 {
      assert RevKey(d, current) in db.revs;
    }
  }

  /** The revision is stored with the same id, content and type, or its document is gone for good. */
  ghost predicate Kept(db: Db, k: RevKey, r: Revision) {
    && k.doc in db.used
    && (k.doc in db.docs ==>
          k in db.revs && db.revs[k].id == r.id && db.revs[k].content == r.content
          && db.revs[k].contentType == r.contentType)
  }

  lemma StepKeepsContent(db: Db, e: Event, k: RevKey, r: Revision)
    requires Inv(db) && Kept(db, k, r)
    ensures Kept(Step(db, e), k, r)
  {
    if e.Append? && e.doc in db.docs && !IdTaken(db, e.id) {
      AppendShape(db, e.doc, e.id, e.content, e.contentType);
    }
  }

  /** A stored revision never changes its id, content or type while its document exists. */
  lemma {:induction false} ContentNeverChanges(es: seq<Event>, more: seq<Event>, k: RevKey)
    requires k in Run(Init(), es).revs
    ensures Kept(Run(Run(Init(), es), more), k, Run(Init(), es).revs[k])
  {
    RunKeeps(Init(), es);
    if more != [] {
      ContentNeverChanges(es, more[..|more| - 1], k);
      RunKeeps(Run(Init(), es), more[..|more| - 1]);
      StepKeepsContent(Run(Run(Init(), es), more[..|more| - 1]), more[|more| - 1], k, Run(Init(), es).revs[k]);
    }
  }

  /** What an append that goes through leaves: the new revision is the current one, the one before
      names it as its successor, and nothing else changes. */
  ghost predicate Appended(db: Db, db': Db, doc: DocId, id: RevId, content: Bytes, contentType: string, number: nat) {
    && doc in db.docs && number == db.docs[doc].current + 1
    && db'.docs == db.docs[doc := db.docs[doc].(current := number)]
    && RevKey(doc, number) in db'.revs
    && db'.revs[RevKey(doc, number)] == Revision(id, content, contentType, false, None)
    && (forall k :: k in db'.revs <==> k in db.revs || k == RevKey(doc, number))
    && (forall k :: k in db.revs && k != RevKey(doc, number) && k != RevKey(doc, number - 1) ==> db'.revs[k] == db.revs[k])
    && (RevKey(doc, number - 1) in db.revs ==>
          db'.revs[RevKey(doc, number - 1)] == db.revs[RevKey(doc, number - 1)].(superseded := true, supersededBy := Some(id)))
  }

  /** In every run, appending to a document that exists under an id nobody has makes that content its
      current revision. */
  lemma {:induction false} AppendBecomesCurrent(es: seq<Event>, doc: DocId, id: RevId, content: Bytes, contentType: string)
    requires var db := Run(Init(), es); doc in db.docs && forall k :: k in db.revs ==> db.revs[k].id != id
    ensures var db, db' := Run(Init(), es), Run(Init(), es + [Append(doc, id, content, contentType)]);
            Appended(db, db', doc, id, content, contentType, db.docs[doc].current + 1)
  {
    var db := Run(Init(), es);
    var es' := es + [Append(doc, id, content, contentType)];
    assert es'[..|es'| - 1] == es;
    RunKeeps(Init(), es);
    assert !IdTaken(db, id);
    AppendShape(db, doc, id, content, contentType);
  }

  // ---- one document per subject ----

  /** The current revision of a document about the subject is `r`, with that number. */
  ghost predicate CurrentIs(db: Db, subject: Subject, number: nat, r: Revision) {
    exists d :: IsAbout(db, subject, d) && db.docs[d].current == number
                && RevKey(d, number) in db.revs && db.revs[RevKey(d, number)] == r
  }

  /** An upsert; `appended` is false when the append fails, which a new document survives. */
  datatype Upsert = Upsert(
    subject: Subject, newId: DocId, now: int, revId: RevId, content: Bytes, contentType: string, appended: bool)

  datatype ServiceCall = Generate(u: Upsert) | RemoveUser(user: UserId)

  ghost predicate IsAbout(db: Db, subject: Subject, d: DocId) { d in db.docs && db.docs[d].subject == subject }

  /** Appends to the document there is about the subject, or creates one first. */
  ghost function UpsertEvents(db: Db, u: Upsert): seq<Event> {
    if exists d :: IsAbout(db, u.subject, d) then
      var d :| IsAbout(db, u.subject, d);
      if u.appended then [Append(d, u.revId, u.content, u.contentType)] else []
    else if u.appended then [Create(u.newId, u.subject, u.now), Append(u.newId, u.revId, u.content, u.contentType)]
    else [Create(u.newId, u.subject, u.now)]
  }

  ghost function ServiceRun(calls: seq<ServiceCall>): Db {
    if calls == [] then Init()
    else
      var db := ServiceRun(calls[..|calls| - 1]);
      match calls[|calls| - 1]
      case Generate(u) => Run(db, UpsertEvents(db, u))
      case RemoveUser(user) => Step(db, DeleteUser(user))
  }

  ghost predicate OnePerSubject(db: Db) {
    forall d, e :: d in db.docs && e in db.docs && db.docs[d].subject == db.docs[e].subject ==> d == e
  }

  lemma RunOfOne(db: Db, e: Event)
    ensures Run(db, [e]) == Step(db, e)
  {
    assert [e][..0] == [];
    assert Run(db, []) == db;
  }

  lemma RunOfTwo(db: Db, e: Event, f: Event)
    ensures Run(db, [e, f]) == Step(Step(db, e), f)
  {
    assert [e, f][..1] == [e];
    RunOfOne(db, e);
  }

  lemma UpsertKeepsOne(db: Db, u: Upsert)
    requires OnePerSubject(db)
    ensures OnePerSubject(Run(db, UpsertEvents(db, u)))
  {
    if exists d :: IsAbout(db, u.subject, d) {
      if u.appended {
        RunOfOne(db, UpsertEvents(db, u)[0]);
      }
    } else {
      assert forall d :: d in db.docs && db.docs[d].subject == u.subject ==> IsAbout(db, u.subject, d);
      var created := CreateStep(db, u.newId, u.subject, u.now);
      assert OnePerSubject(created);
      if u.appended {
        RunOfTwo(db, Create(u.newId, u.subject, u.now), Append(u.newId, u.revId, u.content, u.contentType));
      } else {
        RunOfOne(db, Create(u.newId, u.subject, u.now));
      }
    }
  }

  /** Serial upserts keep one document per owner, related record and kind, and its chain whole. */
  lemma {:induction false} OneDocumentPerSubject(calls: seq<ServiceCall>)
    ensures OnePerSubject(ServiceRun(calls)) && Inv(ServiceRun(calls))
  {
    if calls != [] {
      var db := ServiceRun(calls[..|calls| - 1]);
      OneDocumentPerSubject(calls[..|calls| - 1]);
      match calls[|calls| - 1]
      case Generate(u) =>
        UpsertKeepsOne(db, u);
        RunKeeps(db, UpsertEvents(db, u));
      case RemoveUser(user) => StepKeeps(db, DeleteUser(user));
    }
  }

  // ---- the repository and the service, in place ----

  class Server {
    var docs: map<DocId, Document>
    var revs: map<RevKey, Revision>
    var used: set<DocId>

    ghost function View(): Db
      reads this
    {
      Db(docs, revs, used)
    }

    constructor ()
      ensures View() == Init()
    {
      docs, revs, used := map[], map[], {};
    }

    method CreateDocument(id: DocId, subject: Subject, now: int)
      modifies this
      ensures View() == CreateStep(old(View()), id, subject, now)
      ensures docs == if id in old(used) then old(docs) else old(docs)[id := Document(subject, 0, now)]
      ensures revs == old(revs)
    {
      if id !in used {
        docs := docs[id := Document(subject, 0, now)];
        used := used + {id};
      }
    }

    /** One transaction: mark, insert, bump; any failure leaves everything as it was. */
    method AppendRevision(doc: DocId, id: RevId, content: Bytes, contentType: string) returns (number: Option<nat>)
      modifies this
      ensures View() == AppendStep(old(View()), doc, id, content, contentType)
      ensures number.Some? ==> doc in docs && number.value == docs[doc].current && RevKey(doc, number.value) in revs
      ensures number.None? ==> View() == old(View())
      ensures number.Some? <==>
                && doc in old(docs) && (forall k :: k in old(revs) ==> old(revs)[k].id != id)
                && RevKey(doc, old(docs)[doc].current + 1) !in old(revs)
      ensures number.Some? ==> Appended(old(View()), View(), doc, id, content, contentType, number.value)
    {
      if doc !in docs || exists k | k in revs.Keys :: revs[k].id == id {
        return None;
      }
      var before := revs;
      var current := docs[doc].current;
      if RevKey(doc, current) in revs {
        revs := revs[RevKey(doc, current) := revs[RevKey(doc, current)].(superseded := true, supersededBy := Some(id))];
      }
      if RevKey(doc, current + 1) in revs {
        revs := before;
        return None;
      }
      revs := revs[RevKey(doc, current + 1) := Revision(id, content, contentType, false, None)];
      docs := docs[doc := docs[doc].(current := current + 1)];
      return Some(current + 1);
    }

    /** The revision with the greatest number, if there is one. */
    method GetCurrentRevision(doc: DocId) returns (r: Option<Revision>)
      ensures r.None? <==> forall n :: RevKey(doc, n) !in revs
      ensures r.Some? ==> exists n :: IsLatest(View(), doc, n) && r.value == revs[RevKey(doc, n)]
    {
      r := None;
      var best := 0;
      var left := set k | k in revs && k.doc == doc;
      while left != {}
        invariant forall k :: k in left ==> k in revs && k.doc == doc
        invariant r.None? ==> forall n :: RevKey(doc, n) in revs ==> RevKey(doc, n) in left
        invariant r.Some? ==> RevKey(doc, best) in revs && r.value == revs[RevKey(doc, best)]
        invariant r.Some? ==> forall n :: RevKey(doc, n) in revs ==> RevKey(doc, n) in left || n <= best
        decreases |left|
      {
        var k :| k in left;
        left := left - {k};
        if r.None? || k.number > best {
          r, best := Some(revs[k]), k.number;
        }
      }
      if r.Some? {
        assert IsLatest(View(), doc, best);
      }
    }

    method HardDelete(user: UserId)
      modifies this
      ensures View() == DeleteStep(old(View()), user)
      ensures forall d :: d in docs <==> d in old(docs) && old(docs)[d].subject.owner != user
      ensures forall d :: d in docs ==> docs[d] == old(docs)[d]
      ensures forall k :: k in revs <==> k in old(revs) && (k.doc in old(docs) ==> old(docs)[k.doc].subject.owner != user)
      ensures forall k :: k in revs ==> revs[k] == old(revs)[k]
    {
      var theirs := set d | d in docs && docs[d].subject.owner == user;
      revs := map k | k in revs && k.doc !in theirs :: revs[k];
      docs := map d | d in docs && d !in theirs :: docs[d];
    }

    /** The first listed document about the subject; the list has the newest first. */
    method FindExisting(subject: Subject) returns (found: Option<DocId>)
      ensures found.Some? ==> IsAbout(View(), subject, found.value)
      ensures found.Some? ==> forall d :: IsAbout(View(), subject, d) ==> docs[d].created <= docs[found.value].created
      ensures found.None? ==> forall d :: !IsAbout(View(), subject, d)
    {
      found := None;
      var left: set<DocId> := set d | d in docs && docs[d].subject.owner == subject.owner;
      while left != {}
        invariant forall d :: d in left ==> d in docs
        invariant forall d :: IsAbout(View(), subject, d) ==> d in left
        decreases |left|
      {
        var d := Newest(left);
        left := left - {d};
        if docs[d].subject == subject {
          return Some(d);
        }
      }
    }

    /** The first row of the list that is left. */
    method Newest(left: set<DocId>) returns (d: DocId)
      requires left != {} && left <= docs.Keys
      ensures d in left && forall x :: x in left ==> docs[x].created <= docs[d].created
    {
      d :| d in left;
      var rest := left - {d};
      while rest != {}
        invariant rest <= left && d in left && d !in rest
        invariant forall x :: x in left && x !in rest ==> docs[x].created <= docs[d].created
        decreases |rest|
      {
        var x :| x in rest;
        rest := rest - {x};
        if docs[x].created > docs[d].created {
          d := x;
        }
      }
    }

    /** With one document a subject, an upsert does what the serial run says; no number comes back
        when the append fails. */
    method UpsertDocument(u: Upsert) returns (number: Option<nat>)
      requires OnePerSubject(View())
      modifies this
      ensures View() == Run(old(View()), UpsertEvents(old(View()), u))
      ensures OnePerSubject(View()) && (old(Inv(View())) ==> Inv(View()))
      ensures !u.appended ==> number.None?
      ensures (exists d :: IsAbout(View(), u.subject, d))
              || (u.newId in old(used) && forall d :: !IsAbout(old(View()), u.subject, d))
      ensures u.appended && old(Inv(View())) && (forall k :: k in old(revs) ==> old(revs)[k].id != u.revId) && u.newId !in old(used)
              ==> number.Some? && CurrentIs(View(), u.subject, number.value, Revision(u.revId, u.content, u.contentType, false, None))
    {
      UpsertKeepsOne(View(), u);
      RunKeepsInv(View(), UpsertEvents(View(), u));
      number := None;
      var found := FindExisting(u.subject);
      var doc := u.newId;
      if found.Some? {
        doc := found.value;
        RunOfOne(View(), Append(doc, u.revId, u.content, u.contentType));
      } else {
        RunOfOne(View(), Create(u.newId, u.subject, u.now));
        RunOfTwo(View(), Create(u.newId, u.subject, u.now), Append(u.newId, u.revId, u.content, u.contentType));
        CreateDocument(u.newId, u.subject, u.now);
      }
      if u.appended {
        number := AppendRevision(doc, u.revId, u.content, u.contentType);
      }
      assert found.Some? || u.newId !in old(used) ==> IsAbout(View(), u.subject, doc);
    }
  }

  lemma RunKeepsInv(db: Db, es: seq<Event>)
    ensures Inv(db) ==> Inv(Run(db, es))
  {
    if Inv(db) {
      RunKeeps(db, es);
    }
  }
}
