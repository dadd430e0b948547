/** Full and incremental backups, the restore plan, and a restore that upserts the planned files in
    order. Times are nanoseconds on one clock. */
module BackupChain {
  import opened Wrappers

  const SECOND := 1_000_000_000

  /** The tables that take part in backups; the others are never written to a file. */
  datatype Table =
    | Resources | GroupReservations | Users | Bookings | GroupBuys | GroupBuyParticipants
    | Documents | DocumentRevisions | Notifications | Todos | NotificationDeliveries
    | DataDictionary | Tags | Taggings | ConsentRecords | Webhooks | WebhookDeliveries
    | AnalyticsEvents | AnalyticsHourly | AnomalyAlerts

  predicate HasUpdatedAt(t: Table) {
    t.Users? || t.Bookings? || t.GroupReservations? || t.GroupBuys? || t.Documents? || t.Todos?
  }

  datatype RowId = RowId(table: Table, key: nat)

  /** `link` is a foreign key that the database sets to NULL when its target goes; `updatedAt` is
      when the row was last written, which only some tables have as a column. */
  datatype Row = Row(content: nat, link: Option<nat>, updatedAt: int)

  type Tables = map<RowId, Row>

  datatype Kind = Full | Incremental

  /** A file name has second precision. */
  datatype Name = Name(kind: Kind, second: int)

  datatype Backup = Backup(kind: Kind, name: Name, takenAt: int)

  type Files = map<Name, Tables>

  datatype State = State(db: Tables, index: seq<Backup>, files: Files, clock: int)

  /** A statement that stamps the row, a foreign key set to NULL without a stamp, a deletion, or a
      backup, which leaves out the tables whose query fails. */
  datatype Event =
    | Write(id: RowId, content: nat, link: Option<nat>, now: int)
    | Unlink(id: RowId, now: int)
    | Delete(id: RowId, now: int)
    | Take(kind: Kind, now: int, skipped: set<Table>)

  function Init(): State { State(map[], [], map[], 0) }

  // ---- the index ----

  function LastSuccessful(index: seq<Backup>): Option<Backup> {
    if index == [] then None
    else
      var b, r := index[|index| - 1], LastSuccessful(index[..|index| - 1]);
      if r.Some? && r.value.takenAt > b.takenAt then r else Some(b)
  }

  function LastFull(index: seq<Backup>): Option<Backup> {
    if index == [] then None
    else
      var b, r := index[|index| - 1], LastFull(index[..|index| - 1]);
      if b.kind != Full || (r.Some? && r.value.takenAt > b.takenAt) then r else Some(b)
  }

  function IncrementalsAfter(index: seq<Backup>, after: int): seq<Backup> {
    if index == [] then []
    else
      var b := index[|index| - 1];
      IncrementalsAfter(index[..|index| - 1], after)
      + if b.kind == Incremental && b.takenAt > after then [b] else []
  }

  function PlanRestore(index: seq<Backup>): Option<seq<Backup>> {
    match LastFull(index)
    case None => None
    case Some(full) => Some([full] + IncrementalsAfter(index, full.takenAt))
  }

  // ---- dumping and restoring ----

  predicate Dumped(id: RowId, row: Row, since: Option<int>) {
    since.None? || !HasUpdatedAt(id.table) || row.updatedAt > since.value
  }

  function Dump(db: Tables, since: Option<int>, skipped: set<Table>): Tables {
    map id | id in db && id.table !in skipped && Dumped(id, db[id], since) :: db[id]
  }

  function Since(kind: Kind, index: seq<Backup>): Option<int> {
    if kind == Full then None
    else
      match LastSuccessful(index)
      case None => None
      case Some(b) => Some(b.takenAt)
  }

  function FileName(kind: Kind, now: int): Name { Name(kind, now / SECOND) }

  /** What a backup writes to its file. */
  function Contents(s: State, kind: Kind, skipped: set<Table>): Tables {
    Dump(s.db, Since(kind, s.index), skipped)
  }

  /** Each file's rows are upserted over what the files before it left. */
  function Restore(plan: seq<Backup>, files: Files): Tables {
    if plan == [] then map[]
    else
      var name := plan[|plan| - 1].name;
      Restore(plan[..|plan| - 1], files) + if name in files then files[name] else map[]
  }

  /** The plan without the entries that name one file. */
  function Others(plan: seq<Backup>, name: Name): seq<Backup> {
    if plan == [] then []
    else Others(plan[..|plan| - 1], name) + if plan[|plan| - 1].name == name then [] else [plan[|plan| - 1]]
  }

  predicate Names(plan: seq<Backup>, name: Name) { exists b | b in plan :: b.name == name }

  predicate Gives(tables: Tables, id: RowId, row: Row) { id in tables && tables[id] == row }

  // ---- steps ----

  function Step(s: State, e: Event): State {
    match e
    case Write(id, content, link, now) => s.(db := s.db[id := Row(content, link, now)], clock := now)
    case Unlink(id, now) =>
      if id in s.db then s.(db := s.db[id := s.db[id].(link := None)], clock := now) else s.(clock := now)
    case Delete(id, now) => s.(db := s.db - {id}, clock := now)
    case Take(kind, now, skipped) =>
      var name := FileName(kind, now);
      State(s.db, s.index + [Backup(kind, name, now)], s.files[name := Contents(s, kind, skipped)], now)
  }

  function Run(es: seq<Event>): State {
    if es == [] then Init() else Step(Run(es[..|es| - 1]), es[|es| - 1])
  }

  /** One strictly increasing clock. */
  predicate Valid(es: seq<Event>) {
    es != [] ==> Valid(es[..|es| - 1]) && es[|es| - 1].now > Run(es[..|es| - 1]).clock
  }

  // ---- what can go wrong with a row ----

  /** The backup overwrites a planned file that holds the row, and the other planned files do not
      restore it. */
  predicate Overwrites(s: State, name: Name, id: RowId)
    requires id in s.db
  {
    var plan := PlanRestore(s.index);
    && plan.Some? && Names(plan.value, name) && name in s.files && id in s.files[name]
    && !Gives(Restore(Others(plan.value, name), s.files), id, s.db[id])
  }

  /** The event parts the row from the planned files: a foreign key goes to NULL without a stamp; a
      backup leaves the row out although it starts a new plan, or although the row was written since
      the last backup; or it overwrites the file that had the row. */
  predicate Parts(s: State, e: Event, id: RowId) {
    match e
    case Write(_, _, _, _) => false
    case Delete(_, _) => false
    case Unlink(k, _) => k == id && id in s.db && s.db[id].link.Some?
    case Take(kind, now, skipped) =>
      && id in s.db && id !in Contents(s, kind, skipped)
      && (kind == Full || WrittenSince(s, id) || Overwrites(s, FileName(kind, now), id))
  }

  predicate WrittenSince(s: State, id: RowId)
    requires id in s.db
  {
    s.index != [] && s.db[id].updatedAt > s.index[|s.index| - 1].takenAt
  }

  predicate TakesUp(s: State, e: Event, id: RowId) { e.Take? && id in Contents(s, e.kind, e.skipped) }

  predicate PartedAt(es: seq<Event>, i: nat, id: RowId)
    requires i < |es|
  {
    Parts(Run(es[..i]), es[i], id)
  }

  predicate TakenUpAt(es: seq<Event>, i: nat, id: RowId)
    requires i < |es|
  {
    TakesUp(Run(es[..i]), es[i], id)
  }

  /** The row was parted from the planned files, and no backup since holds it. */
  ghost predicate Lost(es: seq<Event>, id: RowId) {
    exists i: nat :: LostAt(es, i, id)
  }

  lemma SamePrefix(es: seq<Event>, i: nat, id: RowId)
    requires i < |es| - 1
    ensures PartedAt(es, i, id) == PartedAt(es[..|es| - 1], i, id)
    ensures TakenUpAt(es, i, id) == TakenUpAt(es[..|es| - 1], i, id)
  {
    assert es[..|es| - 1][..i] == es[..i];
  }

  /** The event at `i` lost the row for the rest of the run. */
  ghost predicate LostAt(es: seq<Event>, i: nat, id: RowId) {
    i < |es| && PartedAt(es, i, id) && forall k :: i < k < |es| ==> !TakenUpAt(es, k, id)
  }

  lemma LostAtStep(es: seq<Event>, i: nat, id: RowId)
    requires i < |es| - 1
    ensures LostAt(es, i, id) <==> LostAt(es[..|es| - 1], i, id) && !TakenUpAt(es, |es| - 1, id)
  {
    var init := es[..|es| - 1];
    SamePrefix(es, i, id);
    forall k: nat | k < |es| - 1 ensures TakenUpAt(es, k, id) == TakenUpAt(init, k, id) {
      SamePrefix(es, k, id);
    }
    if LostAt(init, i, id) && !TakenUpAt(es, |es| - 1, id) {
      forall k | i < k < |es| ensures !TakenUpAt(es, k, id) {
        assert k < |es| - 1 ==> !TakenUpAt(init, k, id);
      }
    }
    if LostAt(es, i, id) {
      forall k | i < k < |init| ensures !TakenUpAt(init, k, id) {
        assert !TakenUpAt(es, k, id);
      }
    }
  }

  lemma LostStep(es: seq<Event>, id: RowId)
    requires es != []
    ensures var init, n := es[..|es| - 1], |es| - 1;
            Lost(es, id) <==> PartedAt(es, n, id) || (Lost(init, id) && !TakenUpAt(es, n, id))
  {
    var init, n := es[..|es| - 1], |es| - 1;
    if Lost(init, id) {
      var i: nat :| LostAt(init, i, id);
      LostAtStep(es, i, id);
    }
    if Lost(es, id) {
      var i: nat :| LostAt(es, i, id);
      if i < n {
        LostAtStep(es, i, id);
      }
    }
    if PartedAt(es, n, id) {
      assert LostAt(es, n, id);
    }
  }

  /** The events up to the last backup. */
  function UpToLast(es: seq<Event>): seq<Event> {
    if es == [] || es[|es| - 1].Take? then es else UpToLast(es[..|es| - 1])
  }

  /** The last statement that wrote or deleted the row deleted it. */
  predicate Deleted(es: seq<Event>, id: RowId) {
    if es == [] then false
    else
      var e := es[|es| - 1];
      if e.Delete? && e.id == id then true
      else if e.Write? && e.id == id then false
      else Deleted(es[..|es| - 1], id)
  }

  predicate Written(es: seq<Event>, id: RowId) { exists e | e in es :: e.Write? && e.id == id }

  // ---- the invariant ----

  /** `a` is the row as it is, or as it was before a stamped write or a foreign key went to NULL. */
  predicate Older(a: Row, b: Row) {
    a == b || a.updatedAt < b.updatedAt
    || (a.updatedAt == b.updatedAt && a.content == b.content && a.link.Some? && b.link.None?)
  }

  ghost predicate IndexInv(s: State) {
    && (forall i :: 0 <= i < |s.index| ==>
          s.index[i].takenAt <= s.clock && s.index[i].name == FileName(s.index[i].kind, s.index[i].takenAt))
    && (forall i, k :: 0 <= i < k < |s.index| ==> s.index[i].takenAt < s.index[k].takenAt)
  }

  ghost predicate StampsInv(db: Tables, clock: int) { forall id :: id in db ==> db[id].updatedAt <= clock }

  /** Every file was written by a backup, and holds rows as they are or were. */
  ghost predicate FilesInv(s: State) {
    forall n, id :: n in s.files && id in s.files[n] ==> FileRowInv(s, s.files[n][id], id)
  }

  ghost predicate FileRowInv(s: State, row: Row, id: RowId) {
    && s.index != [] && row.updatedAt <= s.index[|s.index| - 1].takenAt
    && (id in s.db ==> Older(row, s.db[id]))
  }

  /** The last planned file holds newer versions than the others, with newer stamps where there are any. */
  ghost predicate NewestInv(plan: seq<Backup>, files: Files) {
    plan != [] && plan[|plan| - 1].name in files &&
    var last := plan[|plan| - 1].name;
    forall n, id :: n != last && Names(plan, n) && n in files && id in files[n] && id in files[last] ==>
      && Older(files[n][id], files[last][id])
      && (HasUpdatedAt(id.table) ==> files[n][id].updatedAt < files[last][id].updatedAt)
  }

  ghost predicate Inv(s: State) {
    && IndexInv(s) && StampsInv(s.db, s.clock) && FilesInv(s)
    && (PlanRestore(s.index).Some? ==>
          NewestInv(PlanRestore(s.index).value, s.files)
          && PlanRestore(s.index).value[|PlanRestore(s.index).value| - 1] == s.index[|s.index| - 1])
  }

  /** A row not written since the last backup is restored as it is, unless it is lost. */
  ghost predicate RowRight(es: seq<Event>, id: RowId) {
    var s := Run(es);
    id in s.db && s.index != [] && PlanRestore(s.index).Some? && !WrittenSince(s, id)
    ==> (Gives(Restore(PlanRestore(s.index).value, s.files), id, s.db[id]) <==> !Lost(es, id))
  }

  // ---- the index and the plan ----

  lemma {:induction false} LastOfSorted(index: seq<Backup>)
    requires forall i, k :: 0 <= i < k < |index| ==> index[i].takenAt < index[k].takenAt
    ensures LastSuccessful(index) == if index == [] then None else Some(index[|index| - 1])
    ensures LastFull(index).Some? ==> LastFull(index).value in index && LastFull(index).value.kind == Full
  {
    if index != [] {
      LastOfSorted(index[..|index| - 1]);
    }
  }

  lemma {:induction false} NothingAfter(index: seq<Backup>, t: int)
    requires forall b :: b in index ==> b.takenAt <= t
    ensures IncrementalsAfter(index, t) == []
  {
    if index != [] {
      assert index[|index| - 1] in index;
      NothingAfter(index[..|index| - 1], t);
    }
  }

  /** A full backup starts a new plan; an incremental one extends the plan there is. */
  lemma PlanGrows(index: seq<Backup>, b: Backup)
    requires forall i, k :: 0 <= i < k < |index| ==> index[i].takenAt < index[k].takenAt
    requires forall x :: x in index ==> x.takenAt < b.takenAt
    ensures PlanRestore(index + [b])
            == if b.kind == Full then Some([b])
               else match PlanRestore(index) case None => None case Some(p) => Some(p + [b])
  {
    var index' := index + [b];
    assert index'[..|index'| - 1] == index;
    LastOfSorted(index);
    if b.kind == Full {
      NothingAfter(index, b.takenAt);
      assert IncrementalsAfter(index', b.takenAt) == [];
      assert LastFull(index') == Some(b);
      assert [b] + [] == [b];
    } else if LastFull(index).Some? {
      var full := LastFull(index).value;
      assert IncrementalsAfter(index', full.takenAt) == IncrementalsAfter(index, full.takenAt) + [b];
      assert [full] + (IncrementalsAfter(index, full.takenAt) + [b]) == [full] + IncrementalsAfter(index, full.takenAt) + [b];
    }
  }

  lemma TakeExtendsPlan(s: State, kind: Kind, now: int, skipped: set<Table>)
    requires IndexInv(s) && now > s.clock
    ensures var b := Backup(kind, FileName(kind, now), now);
            PlanRestore(Step(s, Take(kind, now, skipped)).index)
            == if kind == Full then Some([b])
               else match PlanRestore(s.index) case None => None case Some(p) => Some(p + [b])
  {
    PlanGrows(s.index, Backup(kind, FileName(kind, now), now));
  }

  lemma {:induction false} AfterIsSorted(index: seq<Backup>, t: int)
    requires forall i, k :: 0 <= i < k < |index| ==> index[i].takenAt < index[k].takenAt
    ensures var after := IncrementalsAfter(index, t);
            && (forall b :: b in after ==> b in index && b.kind == Incremental && b.takenAt > t)
            && (forall i, k :: 0 <= i < k < |after| ==> after[i].takenAt < after[k].takenAt)
  {
    if index != [] {
      AfterIsSorted(index[..|index| - 1], t);
      var after := IncrementalsAfter(index[..|index| - 1], t);
      forall i | 0 <= i < |after| ensures after[i].takenAt < index[|index| - 1].takenAt {
        assert after[i] in after;
      }
    }
  }

  lemma SortedPlan(index: seq<Backup>)
    requires forall i, k :: 0 <= i < k < |index| ==> index[i].takenAt < index[k].takenAt
    requires LastFull(index).Some?
    ensures var plan := PlanRestore(index).value;
            && plan[0].kind == Full && (forall b :: b in plan ==> b in index)
            && forall i, k :: 0 <= i < k < |plan| ==> plan[i].takenAt < plan[k].takenAt && plan[k].kind == Incremental
  {
    LastOfSorted(index);
    var full := LastFull(index).value;
    var after := IncrementalsAfter(index, full.takenAt);
    AfterIsSorted(index, full.takenAt);
    forall k | 0 <= k < |after| ensures after[k].takenAt > full.takenAt && after[k].kind == Incremental {
      assert after[k] in after;
    }
  }

  /** The plan is in the order the files were taken. */
  lemma PlanIsInOrder(es: seq<Event>)
    requires Valid(es) && PlanRestore(Run(es).index).Some?
    ensures var plan := PlanRestore(Run(es).index).value;
            && plan[0].kind == Full
            && forall i, k :: 0 <= i < k < |plan| ==> plan[i].takenAt < plan[k].takenAt && plan[k].kind == Incremental
  {
    RunKeeps(es);
    SortedPlan(Run(es).index);
  }

  /** An incremental that reuses the name of a planned file reuses that of the last one. */
  lemma ReusedNameIsLast(s: State, now: int)
    requires Inv(s) && now > s.clock && PlanRestore(s.index).Some?
    requires Names(PlanRestore(s.index).value, FileName(Incremental, now))
    ensures s.index[|s.index| - 1].name == FileName(Incremental, now)
  {
    var plan := PlanRestore(s.index).value;
    SortedPlan(s.index);
    var i :| 0 <= i < |plan| && plan[i].name == FileName(Incremental, now);
    var last := plan[|plan| - 1];
    assert plan[i] in s.index && last in s.index;
    assert i > 0 && plan[i].takenAt <= last.takenAt <= now;
  }

  // ---- the restore ----

  /** After the new file's rows, it does not matter what the planned entries of its name held. */
  lemma {:induction false} RestoreOver(plan: seq<Backup>, files: Files, name: Name, rows: Tables)
    ensures Restore(plan, files[name := rows]) + rows == Restore(Others(plan, name), files) + rows
  {
    if plan != [] {
      var init, b := plan[..|plan| - 1], plan[|plan| - 1];
      RestoreOver(init, files, name, rows);
      if b.name != name {
        assert (Others(init, name) + [b])[..|Others(init, name) + [b]| - 1] == Others(init, name);
        var f := if b.name in files then files[b.name] else map[];
        SameUnder(Restore(init, files[name := rows]), Restore(Others(init, name), files), f, rows);
      } else {
        assert Others(plan, name) == Others(init, name);
        SameUnder(Restore(init, files[name := rows]), Restore(Others(init, name), files), rows, rows);
      }
    }
  }

  lemma SameUnder(a: Tables, b: Tables, f: Tables, rows: Tables)
    requires a + rows == b + rows
    ensures (a + f) + rows == (b + f) + rows
    ensures f == rows ==> (a + f) + rows == b + rows
  {
    forall id | id !in rows ensures (id in a <==> id in b) && (id in a ==> a[id] == b[id]) {
      assert id in a + rows <==> id in b + rows;
      assert id in a ==> (a + rows)[id] == (b + rows)[id];
    }
  }

  /** A row that the named file does not hold comes from the others. */
  lemma {:induction false} FromOthers(plan: seq<Backup>, files: Files, name: Name, id: RowId)
    requires !Names(plan, name) || name !in files || id !in files[name]
    ensures id in Restore(plan, files) <==> id in Restore(Others(plan, name), files)
    ensures id in Restore(plan, files) ==> Restore(plan, files)[id] == Restore(Others(plan, name), files)[id]
  {
    if plan != [] {
      var init, b := plan[..|plan| - 1], plan[|plan| - 1];
      assert b in plan && forall x :: x in init ==> x in plan;
      FromOthers(init, files, name, id);
      if b.name != name {
        assert (Others(init, name) + [b])[..|Others(init, name) + [b]| - 1] == Others(init, name);
      } else {
        assert Others(plan, name) == Others(init, name);
      }
    }
  }

  /** A restored row is in one of the files restored. */
  lemma {:induction false} RestoredFrom(plan: seq<Backup>, files: Files, id: RowId)
    requires id in Restore(plan, files)
    ensures exists b :: b in plan && b.name in files && Gives(files[b.name], id, Restore(plan, files)[id])
  {
    var init, b := plan[..|plan| - 1], plan[|plan| - 1];
    assert b in plan && forall x :: x in init ==> x in plan;
    if !(b.name in files && id in files[b.name]) {
      RestoredFrom(init, files, id);
    }
  }

  lemma {:induction false} OthersIn(plan: seq<Backup>, name: Name)
    ensures forall b :: b in Others(plan, name) ==> b in plan && b.name != name
  {
    if plan != [] {
      OthersIn(plan[..|plan| - 1], name);
    }
  }

  /** What a backup does to one restored row. */
  lemma TakeRestores(s: State, kind: Kind, now: int, skipped: set<Table>, id: RowId)
    requires IndexInv(s) && now > s.clock
    requires kind == Full || PlanRestore(s.index).Some?
    ensures var s', name, rows := Step(s, Take(kind, now, skipped)), FileName(kind, now), Contents(s, kind, skipped);
            && PlanRestore(s'.index).Some?
            && var r' := Restore(PlanRestore(s'.index).value, s'.files);
               var rest := if kind == Full then map[] else Restore(Others(PlanRestore(s.index).value, name), s.files);
               && (id in r' <==> id in rows || id in rest)
               && (id in r' ==> r'[id] == if id in rows then rows[id] else rest[id])
  {
    var s', name, rows := Step(s, Take(kind, now, skipped)), FileName(kind, now), Contents(s, kind, skipped);
    var b := Backup(kind, name, now);
    TakeExtendsPlan(s, kind, now, skipped);
    var plan := if kind == Full then [] else PlanRestore(s.index).value;
    var plan' := PlanRestore(s'.index).value;
    assert plan' == plan + [b] && plan'[..|plan'| - 1] == plan;
    assert Restore(plan', s'.files) == Restore(plan, s'.files) + rows;
    RestoreOver(plan, s.files, name, rows);
  }

  // ---- each event keeps the invariant ----

  lemma EditKeeps(s: State, e: Event)
    requires Inv(s) && e.now > s.clock && !e.Take?
    ensures Inv(Step(s, e))
  {
    var s' := Step(s, e);
    forall n, id | n in s'.files && id in s'.files[n] ensures FileRowInv(s', s'.files[n][id], id) {
      assert FileRowInv(s, s.files[n][id], id);
    }
  }

  lemma TakeKeepsFiles(s: State, kind: Kind, now: int, skipped: set<Table>)
    requires Inv(s) && now > s.clock
    ensures IndexInv(Step(s, Take(kind, now, skipped))) && FilesInv(Step(s, Take(kind, now, skipped)))
  {
  }

  lemma TakeKeepsNewest(s: State, kind: Kind, now: int, skipped: set<Table>)
    requires Inv(s) && now > s.clock && PlanRestore(Step(s, Take(kind, now, skipped)).index).Some?
    ensures var s' := Step(s, Take(kind, now, skipped)); NewestInv(PlanRestore(s'.index).value, s'.files)
  {
    var s' := Step(s, Take(kind, now, skipped));
    TakeExtendsPlan(s, kind, now, skipped);
    LastOfSorted(s.index);
    var plan, last := PlanRestore(s'.index).value, FileName(kind, now);
    forall n, id | n != last && Names(plan, n) && n in s'.files && id in s'.files[n] && id in s'.files[last]
      ensures Older(s'.files[n][id], s'.files[last][id])
      ensures HasUpdatedAt(id.table) ==> s'.files[n][id].updatedAt < s'.files[last][id].updatedAt
    {
      assert s.files[n][id] == s'.files[n][id];
      assert s'.files[last][id] == s.db[id];
      assert kind == Incremental && s.index != [];
    }
  }

  lemma StepKeeps(s: State, e: Event)
    requires Inv(s) && e.now > s.clock
    ensures Inv(Step(s, e))
  {
    if e.Take? {
      TakeKeepsFiles(s, e.kind, e.now, e.skipped);
      TakeExtendsPlan(s, e.kind, e.now, e.skipped);
      if PlanRestore(Step(s, e).index).Some? {
        TakeKeepsNewest(s, e.kind, e.now, e.skipped);
      }
    } else {
      EditKeeps(s, e);
    }
  }

  lemma {:induction false} RunKeeps(es: seq<Event>)
    requires Valid(es)
    ensures Inv(Run(es))
  {
    if es != [] {
      RunKeeps(es[..|es| - 1]);
      StepKeeps(Run(es[..|es| - 1]), es[|es| - 1]);
    }
  }

  // ---- one row ----

  /** A restored version is the row as it is, or older. */
  lemma RestoredIsOlder(s: State, plan: seq<Backup>, id: RowId)
    requires Inv(s) && id in Restore(plan, s.files)
    ensures s.index != [] && Restore(plan, s.files)[id].updatedAt <= s.index[|s.index| - 1].takenAt
    ensures id in s.db ==> Older(Restore(plan, s.files)[id], s.db[id])
  {
    RestoredFrom(plan, s.files, id);
  }

  lemma EditRow(s: State, e: Event, id: RowId)
    requires Inv(s) && e.now > s.clock && !e.Take? && PlanRestore(s.index).Some? && s.index != []
    requires id in Step(s, e).db && !WrittenSince(Step(s, e), id)
    ensures id in s.db && !WrittenSince(s, id)
    ensures var r := Restore(PlanRestore(s.index).value, s.files);
            Gives(r, id, Step(s, e).db[id]) <==> Gives(r, id, s.db[id]) && !Parts(s, e, id)
  {
    var r := Restore(PlanRestore(s.index).value, s.files);
    if id in r {
      RestoredIsOlder(s, PlanRestore(s.index).value, id);
    }
    assert s.index[|s.index| - 1].takenAt <= s.clock;
  }

  /** A planned file whose name is reused: if the other files give the row as it is, so did it. */
  lemma ReusedRow(s: State, now: int, id: RowId)
    requires Inv(s) && now > s.clock && PlanRestore(s.index).Some? && id in s.db
    requires var name := FileName(Incremental, now);
             Names(PlanRestore(s.index).value, name) && name in s.files && id in s.files[name]
    ensures var plan, name := PlanRestore(s.index).value, FileName(Incremental, now);
            && Gives(Restore(plan, s.files), id, s.files[name][id])
            && (Gives(Restore(Others(plan, name), s.files), id, s.db[id]) ==>
                  s.files[name][id] == s.db[id] && !HasUpdatedAt(id.table))
  {
    var plan, name := PlanRestore(s.index).value, FileName(Incremental, now);
    ReusedNameIsLast(s, now);
    assert plan[|plan| - 1].name == name;
    assert Older(s.files[name][id], s.db[id]);
    var others := Others(plan, name);
    if Gives(Restore(others, s.files), id, s.db[id]) {
      RestoredFrom(others, s.files, id);
      OthersIn(plan, name);
      var b :| b in others && b.name in s.files && Gives(s.files[b.name], id, s.db[id]);
      assert b in plan && Names(plan, b.name);
      assert Older(s.files[b.name][id], s.files[name][id]);
    }
  }

  lemma TakeRow(s: State, kind: Kind, now: int, skipped: set<Table>, id: RowId)
    requires Inv(s) && now > s.clock && id in s.db && id !in Contents(s, kind, skipped)
    requires kind == Full || PlanRestore(s.index).Some?
    ensures var s' := Step(s, Take(kind, now, skipped));
            && PlanRestore(s'.index).Some?
            && (Gives(Restore(PlanRestore(s'.index).value, s'.files), id, s.db[id])
                <==> !Parts(s, Take(kind, now, skipped), id)
                     && Gives(Restore(PlanRestore(s.index).value, s.files), id, s.db[id]))
  {
    TakeRestores(s, kind, now, skipped, id);
    if kind == Incremental {
      var plan, name := PlanRestore(s.index).value, FileName(kind, now);
      var rest := Restore(Others(plan, name), s.files);
      if id in rest {
        RestoredIsOlder(s, Others(plan, name), id);
      }
      if Names(plan, name) && name in s.files && id in s.files[name] {
        ReusedRow(s, now, id);
      } else {
        FromOthers(plan, s.files, name, id);
      }
    }
  }

  lemma RowAfterTake(init: seq<Event>, e: Event, id: RowId)
    requires Inv(Run(init)) && RowRight(init, id) && e.Take? && e.now > Run(init).clock
    requires PlanRestore(Step(Run(init), e).index).Some? && id in Run(init).db
    ensures var s, s' := Run(init), Step(Run(init), e);
            Gives(Restore(PlanRestore(s'.index).value, s'.files), id, s.db[id])
            <==> !(Parts(s, e, id) || (Lost(init, id) && !TakesUp(s, e, id)))
  {
    var s := Run(init);
    TakeExtendsPlan(s, e.kind, e.now, e.skipped);
    if id in Contents(s, e.kind, e.skipped) {
      TakeRestores(s, e.kind, e.now, e.skipped, id);
    } else {
      TakeRow(s, e.kind, e.now, e.skipped, id);
    }
  }

  lemma {:induction false} RowsRight(es: seq<Event>, id: RowId)
    requires Valid(es)
    ensures RowRight(es, id)
  {
    if es != [] {
      var init, e := es[..|es| - 1], es[|es| - 1];
      var s, s' := Run(init), Step(Run(init), e);
      RowsRight(init, id);
      RunKeeps(init);
      LostStep(es, id);
      if id in s'.db && s'.index != [] && PlanRestore(s'.index).Some? && !WrittenSince(s', id) {
        if e.Take? {
          RowAfterTake(init, e, id);
        } else {
          EditRow(s, e, id);
        }
      }
    }
  }

  // ---- the last backup ----

  lemma {:induction false} UpToLastBackup(es: seq<Event>)
    requires Valid(es) && Run(es).index != []
    ensures var seen := UpToLast(es);
            && seen != [] && seen[|seen| - 1].Take? && Valid(seen)
            && Run(seen).index == Run(es).index && Run(seen).files == Run(es).files
            && seen <= es
  {
    if !es[|es| - 1].Take? {
      UpToLastBackup(es[..|es| - 1]);
    }
  }

  lemma NothingWrittenSinceTake(es: seq<Event>, id: RowId)
    requires Valid(es) && es != [] && es[|es| - 1].Take? && id in Run(es).db
    ensures !WrittenSince(Run(es), id)
  {
    RunKeeps(es[..|es| - 1]);
  }

  predicate InSomeFile(plan: seq<Backup>, files: Files, id: RowId) {
    exists b | b in plan :: b.name in files && id in files[b.name]
  }

  lemma {:induction false} RestoredKeys(plan: seq<Backup>, files: Files, id: RowId)
    ensures id in Restore(plan, files) <==> InSomeFile(plan, files, id)
  {
    if plan != [] {
      var n := |plan| - 1;
      RestoredKeys(plan[..n], files, id);
      assert plan == plan[..n] + [plan[n]];
    }
  }

  lemma {:induction false} LiveOrDeleted(es: seq<Event>, id: RowId)
    ensures id in Run(es).db <==> Written(es, id) && !Deleted(es, id)
    ensures forall n :: n in Run(es).files && id in Run(es).files[n] ==> Written(es, id)
  {
    if es != [] {
      var init := es[..|es| - 1];
      LiveOrDeleted(init, id);
      assert es == init + [es[|es| - 1]];
    }
  }

  // ---- main results ----

  /** One row: whatever was deleted, unlinked, skipped or overwritten, the restore gives a row as the
      last backup saw it if and only if the row is not lost. */
  lemma {:induction false} RowIsRestoredExactly(es: seq<Event>, id: RowId)
    requires Valid(es) && PlanRestore(Run(es).index).Some? && id in Run(UpToLast(es)).db
    ensures var s, seen := Run(es), UpToLast(es);
            Gives(Restore(PlanRestore(s.index).value, s.files), id, Run(seen).db[id]) <==> !Lost(seen, id)
  {
    var seen := UpToLast(es);
    PlanHasIndex(Run(es).index);
    UpToLastBackup(es);
    RowsRight(seen, id);
    NothingWrittenSinceTake(seen, id);
  }

  lemma PlanHasIndex(index: seq<Backup>)
    ensures PlanRestore(index).Some? ==> index != []
  {
  }

  /** Nothing the last backup saw is lost, and no planned file holds a row whose last statement
      before that backup was its deletion. */
  ghost predicate NothingLost(es: seq<Event>, plan: seq<Backup>, files: Files) {
    && (forall id :: id in Run(es).db ==> !Lost(es, id))
    && (forall id :: Deleted(es, id) ==> !InSomeFile(plan, files, id))
  }

  /** All rows: restoring the plan yields the tables as of the last backup if and only if no row of
      theirs is lost and no deleted row is in a planned file. */
  lemma {:induction false} RestoreIsFaithful(es: seq<Event>)
    requires Valid(es) && PlanRestore(Run(es).index).Some?
    ensures var s, seen := Run(es), UpToLast(es);
            var plan := PlanRestore(s.index).value;
            Restore(plan, s.files) == Run(seen).db <==> NothingLost(seen, plan, s.files)
  {
    var s, seen := Run(es), UpToLast(es);
    var plan := PlanRestore(s.index).value;
    var r, t := Restore(plan, s.files), Run(seen).db;
    PlanHasIndex(s.index);
    UpToLastBackup(es);
    forall id
      ensures id in t ==> (Gives(r, id, t[id]) <==> !Lost(seen, id))
      ensures id in r <==> InSomeFile(plan, s.files, id)
      ensures id in r ==> (id !in t <==> Deleted(seen, id))
      ensures Deleted(seen, id) ==> id !in t
    {
      if id in t {
        RowIsRestoredExactly(es, id);
      }
      RestoredKeys(plan, s.files, id);
      LiveOrDeleted(seen, id);
    }
    SameTables(r, t);
  }

  lemma SameTables(r: Tables, t: Tables)
    ensures r == t <==> (forall id :: id in t ==> Gives(r, id, t[id])) && (forall id :: id in r ==> id in t)
  {
    if (forall id :: id in t ==> Gives(r, id, t[id])) && (forall id :: id in r ==> id in t) {
      forall id ensures id in r <==> id in t {
        assert id in t ==> Gives(r, id, t[id]);
      }
      forall id | id in r ensures r[id] == t[id] {
        assert Gives(r, id, t[id]);
      }
    }
  }

  predicate LastSkipped(es: seq<Event>, t: Table) {
    es != [] && es[|es| - 1].Take? && t in es[|es| - 1].skipped
  }

  /** A row of a table without updated_at is always right, unless its query failed in the last backup. */
  lemma {:induction false} WholeTablesAreRight(es: seq<Event>, id: RowId)
    requires Valid(es) && PlanRestore(Run(es).index).Some? && id in Run(UpToLast(es)).db
    requires !HasUpdatedAt(id.table)
    requires !LastSkipped(UpToLast(es), id.table)
    ensures Gives(Restore(PlanRestore(Run(es).index).value, Run(es).files), id, Run(UpToLast(es)).db[id])
  {
    var seen := UpToLast(es);
    PlanHasIndex(Run(es).index);
    UpToLastBackup(es);
    RowIsRestoredExactly(es, id);
    LastHoldsRow(seen, id);
  }

  lemma LastHoldsRow(es: seq<Event>, id: RowId)
    requires es != [] && es[|es| - 1].Take? && id in Run(es).db
    requires !HasUpdatedAt(id.table) && !LastSkipped(es, id.table)
    ensures !Lost(es, id)
  {
    LostStep(es, id);
  }

  predicate SameSecond(t: int, u: int) { t / 1_000_000_000 == u / 1_000_000_000 }

  /** Two files have one name if and only if they are of one kind and were taken in one second. */
  lemma NamesDifferBySecond(k: Kind, t: int, l: Kind, u: int)
    ensures FileName(k, t) == FileName(l, u) <==> k == l && SameSecond(t, u)
  {
  }

  /** An incremental of the plan was taken in the second of `now`. */
  predicate SecondIsTaken(plan: seq<Backup>, now: int) {
    exists b | b in plan :: b.kind == Incremental && SameSecond(b.takenAt, now)
  }

  lemma TakenSecondIsTakenName(s: State, now: int)
    requires IndexInv(s) && PlanRestore(s.index).Some?
    ensures var plan := PlanRestore(s.index).value;
            SecondIsTaken(plan, now) <==> Names(plan, FileName(Incremental, now))
  {
    var plan := PlanRestore(s.index).value;
    SortedPlan(s.index);
    forall b | b in plan
      ensures b.name == FileName(Incremental, now) <==> b.kind == Incremental && SameSecond(b.takenAt, now)
    {
      NamesDifferBySecond(b.kind, b.takenAt, Incremental, now);
    }
  }

  /** A statement that stamps its row, or changes none; or a backup in which no query fails, and
      which is full or in a second of its own. */
  predicate Harmless(s: State, e: Event) {
    match e
    case Write(_, _, _, _) => true
    case Unlink(id, _) => id !in s.db || s.db[id].link.None?
    case Delete(id, _) => id !in s.db
    case Take(kind, now, skipped) =>
      && skipped == {}
      && (kind == Full || PlanRestore(s.index).None? || !SecondIsTaken(PlanRestore(s.index).value, now))
  }

  ghost predicate AllHarmless(es: seq<Event>) { forall i :: 0 <= i < |es| ==> Harmless(Run(es[..i]), es[i]) }

  /** With every change stamped and every file kept, restoring the plan yields the tables as of the
      last backup. */
  lemma {:induction false} RestoreIsExact(es: seq<Event>)
    requires Valid(es) && PlanRestore(Run(es).index).Some? && AllHarmless(es)
    ensures Restore(PlanRestore(Run(es).index).value, Run(es).files) == Run(UpToLast(es)).db
  {
    var s, seen := Run(es), UpToLast(es);
    PlanHasIndex(s.index);
    UpToLastBackup(es);
    forall i | 0 <= i < |seen| ensures Harmless(Run(seen[..i]), seen[i]) {
      assert seen[..i] == es[..i] && Harmless(Run(es[..i]), es[i]);
    }
    forall id | id in Run(seen).db ensures !Lost(seen, id) {
      forall i: nat | i < |seen| ensures !PartedAt(seen, i, id) {
        ValidPrefix(seen, i);
        RunKeeps(seen[..i]);
        HarmlessPartsNothing(Run(seen[..i]), seen[i], id);
      }
    }
    forall id | Deleted(seen, id) ensures !InSomeFile(PlanRestore(s.index).value, s.files, id) {
      NeverDeleted(seen, id);
    }
    RestoreIsFaithful(es);
  }

  lemma HarmlessPartsNothing(s: State, e: Event, id: RowId)
    requires IndexInv(s) && Harmless(s, e)
    ensures !Parts(s, e, id)
  {
    LastOfSorted(s.index);
    if e.Take? && PlanRestore(s.index).Some? {
      TakenSecondIsTakenName(s, e.now);
    }
  }

  lemma {:induction false} ValidPrefix(es: seq<Event>, i: nat)
    requires Valid(es) && i <= |es|
    ensures Valid(es[..i])
  {
    if i < |es| {
      ValidPrefix(es[..|es| - 1], i);
      assert es[..|es| - 1][..i] == es[..i];
    } else {
      assert es[..i] == es;
    }
  }

  /** A harmless run deletes only rows that were never written. */
  lemma {:induction false} NeverDeleted(es: seq<Event>, id: RowId)
    requires AllHarmless(es) && Deleted(es, id)
    ensures forall n :: n in Run(es).files ==> id !in Run(es).files[n]
    ensures id !in Run(es).db
  {
    var init, n := es[..|es| - 1], |es| - 1;
    forall i | 0 <= i < n ensures Harmless(Run(init[..i]), init[i]) {
      assert init[..i] == es[..i];
    }
    assert Harmless(Run(es[..n]), es[n]);
    if Deleted(init, id) {
      NeverDeleted(init, id);
    } else {
      LiveOrDeleted(init, id);
    }
  }

  // ---- reusing a file name ----

  /** An incremental of the plan was taken in the second of `now`, and its file has the row as it
      still is, in a table whose rows are dumped only when they are newer. */
  predicate LosesLiveRow(s: State, now: int, id: RowId) {
    && PlanRestore(s.index).Some? && HasUpdatedAt(id.table) && id in s.db
    && exists b | b in PlanRestore(s.index).value ::
         b.kind == Incremental && SameSecond(b.takenAt, now) && b.name in s.files && Gives(s.files[b.name], id, s.db[id])
  }

  lemma LosesByName(s: State, now: int, id: RowId)
    requires IndexInv(s) && PlanRestore(s.index).Some?
    ensures var name := FileName(Incremental, now);
            LosesLiveRow(s, now, id) <==>
              && HasUpdatedAt(id.table) && id in s.db && Names(PlanRestore(s.index).value, name)
              && name in s.files && Gives(s.files[name], id, s.db[id])
  {
    var plan := PlanRestore(s.index).value;
    SortedPlan(s.index);
    forall b | b in plan
      ensures b.name == FileName(Incremental, now) <==> b.kind == Incremental && SameSecond(b.takenAt, now)
    {
      NamesDifferBySecond(b.kind, b.takenAt, Incremental, now);
    }
  }

  /** An incremental loses a row that was not lost before if and only if a planned one was taken in
      the same second, whose file holds the row as it still is, in a table with updated_at. */
  lemma {:induction false} OverwriteLosesExactly(es: seq<Event>, now: int, id: RowId)
    requires Valid(es) && now > Run(es).clock && PlanRestore(Run(es).index).Some?
    requires id in Run(es).db && !Lost(es, id)
    ensures Lost(es + [Take(Incremental, now, {})], id) <==> LosesLiveRow(Run(es), now, id)
  {
    var s, name := Run(es), FileName(Incremental, now);
    var plan := PlanRestore(s.index).value;
    var es' := es + [Take(Incremental, now, {})];
    assert es'[..|es|] == es;
    LostStep(es', id);
    RunKeeps(es);
    PlanHasIndex(s.index);
    LastOfSorted(s.index);
    LosesByName(s, now, id);
    if Names(plan, name) && name in s.files && id in s.files[name] {
      ReusedRow(s, now, id);
      RowsRight(es, id);
      assert FileRowInv(s, s.files[name][id], id);
    }
  }

  /** When nothing is lost so far, an incremental keeps the restore exact if and only if no file of
      the same second has, in a table with updated_at, a row that is still live and unchanged, and no
      planned file is left with a deleted row. */
  lemma {:induction false} ReusedNameExactly(es: seq<Event>, now: int)
    requires Valid(es) && now > Run(es).clock && PlanRestore(Run(es).index).Some?
    requires forall id :: id in Run(es).db ==> !Lost(es, id)
    ensures var s' := Run(es + [Take(Incremental, now, {})]);
            && PlanRestore(s'.index).Some?
            && var plan' := PlanRestore(s'.index).value;
               Restore(plan', s'.files) == Run(es).db
               <==> && (forall id :: !LosesLiveRow(Run(es), now, id))
                    && (forall id :: Deleted(es, id) ==> !InSomeFile(plan', s'.files, id))
  {
    var e := Take(Incremental, now, {});
    var es' := es + [e];
    assert es'[..|es|] == es;
    RunKeeps(es);
    TakeExtendsPlan(Run(es), Incremental, now, {});
    RestoreIsFaithful(es');
    assert UpToLast(es') == es' && Run(es').db == Run(es).db;
    forall id ensures Deleted(es', id) <==> Deleted(es, id) {}
    forall id | id in Run(es).db
      ensures Lost(es', id) <==> LosesLiveRow(Run(es), now, id)
    {
      OverwriteLosesExactly(es, now, id);
    }
  }

  // ---- two runs that lose something ----

  lemma RunNext(es: seq<Event>, n: nat)
    requires n < |es|
    ensures Run(es[..n + 1]) == Step(Run(es[..n]), es[n])
  {
    assert es[..n + 1][..n] == es[..n];
  }

  lemma RunOfFour(es: seq<Event>)
    requires |es| == 4
    ensures Run(es[..1]) == Step(Init(), es[0]) && Run(es[..2]) == Step(Run(es[..1]), es[1])
    ensures Run(es[..3]) == Step(Run(es[..2]), es[2]) && Run(es) == Step(Run(es[..3]), es[3])
  {
    assert es[..0] == [] && es[..4] == es;
    RunNext(es, 0);
    RunNext(es, 1);
    RunNext(es, 2);
    RunNext(es, 3);
  }

  lemma PlanOfTwo(full: Backup, inc: Backup)
    requires full.kind.Full? && inc.kind.Incremental? && full.takenAt < inc.takenAt
    ensures PlanRestore([full, inc]) == Some([full, inc])
  {
    PlanGrows([], full);
    assert [] + [full] == [full];
    PlanGrows([full], inc);
    assert [full] + [inc] == [full, inc];
  }

  /** A campaign with an organizer, a full backup, the organizer's deletion, and an incremental: the
      campaign's foreign key went to NULL without a stamp, so the incremental leaves it out. */
  const CAMPAIGN := RowId(GroupBuys, 0)

  const UNLINK_RUN := [Write(CAMPAIGN, 7, Some(3), 1), Take(Full, 2, {}), Unlink(CAMPAIGN, 3), Take(Incremental, 4, {})]

  const UNLINK_FULL := Backup(Full, Name(Full, 0), 2)
  const UNLINK_INC := Backup(Incremental, Name(Incremental, 0), 4)
  const OWNED: Tables := map[CAMPAIGN := Row(7, Some(3), 1)]
  const ORPHANED: Tables := map[CAMPAIGN := Row(7, None, 1)]
  const UNLINK_FILES: Files := map[UNLINK_FULL.name := OWNED]

  /** An incremental backup in which no query fails. */
  lemma IncrementalStep(s: State, now: int)
    requires s.index != [] && IndexInv(s)
    ensures Step(s, Take(Incremental, now, {}))
            == var name := FileName(Incremental, now);
               var since := Some(s.index[|s.index| - 1].takenAt);
               State(s.db, s.index + [Backup(Incremental, name, now)], s.files[name := Dump(s.db, since, {})], now)
  {
    LastOfSorted(s.index);
  }

  lemma UnlinkDumps()
    ensures Dump(OWNED, None, {}) == OWNED && Dump(ORPHANED, Some(2), {}) == map[]
  {
  }

  const UNLINKED := State(ORPHANED, [UNLINK_FULL], UNLINK_FILES, 3)

  lemma UnlinkBeforeIncremental()
    ensures Run(UNLINK_RUN[..3]) == UNLINKED
  {
    RunOfFour(UNLINK_RUN);
    UnlinkDumps();
    assert Run(UNLINK_RUN[..1]) == State(OWNED, [], map[], 1);
    assert Run(UNLINK_RUN[..2]) == State(OWNED, [UNLINK_FULL], UNLINK_FILES, 2);
  }

  lemma UnlinkState()
    ensures Run(UNLINK_RUN) == State(ORPHANED, [UNLINK_FULL, UNLINK_INC], UNLINK_FILES[UNLINK_INC.name := map[]], 4)
  {
    RunOfFour(UNLINK_RUN);
    UnlinkBeforeIncremental();
    UnlinkDumps();
    IncrementalStep(UNLINKED, 4);
    assert [UNLINK_FULL] + [UNLINK_INC] == [UNLINK_FULL, UNLINK_INC];
  }

  lemma UnlinkIsMissed()
    ensures var s := Run(UNLINK_RUN);
            && PlanRestore(s.index).Some?
            && Gives(s.db, CAMPAIGN, Row(7, None, 1))
            && Gives(Restore(PlanRestore(s.index).value, s.files), CAMPAIGN, Row(7, Some(3), 1))
  {
    UnlinkState();
    PlanOfTwo(UNLINK_FULL, UNLINK_INC);
    var plan, files := [UNLINK_FULL, UNLINK_INC], UNLINK_FILES[UNLINK_INC.name := map[]];
    assert plan[..1] == [UNLINK_FULL] && plan[..1][..0] == [];
    assert Restore(plan[..1], files) == map[] + OWNED;
  }

  /** A full backup, a changed user, and two incrementals in the same second: the second one has the
      first one's file name and overwrites it, and the change is lost to the restore. */
  const USER := RowId(Users, 0)

  const SAME_SECOND_RUN := [Take(Full, 1, {}), Write(USER, 7, None, 2), Take(Incremental, 3, {}), Take(Incremental, 4, {})]

  const FULL_1 := Backup(Full, Name(Full, 0), 1)
  const INC_3 := Backup(Incremental, Name(Incremental, 0), 3)
  const INC_4 := Backup(Incremental, Name(Incremental, 0), 4)
  const CHANGED: Tables := map[USER := Row(7, None, 2)]
  const FIRST_FILE: Files := map[FULL_1.name := map[]]

  const AFTER_CHANGE := State(CHANGED, [FULL_1], FIRST_FILE, 2)
  const AFTER_INC := State(CHANGED, [FULL_1, INC_3], FIRST_FILE[INC_3.name := CHANGED], 3)

  lemma SameSecondDumps()
    ensures Dump(map[], None, {}) == map[] && Dump(CHANGED, Some(1), {}) == CHANGED && Dump(CHANGED, Some(3), {}) == map[]
  {
  }

  lemma SameSecondBefore()
    ensures Run(SAME_SECOND_RUN[..2]) == AFTER_CHANGE
  {
    RunOfFour(SAME_SECOND_RUN);
    SameSecondDumps();
    assert Run(SAME_SECOND_RUN[..1]) == State(map[], [FULL_1], FIRST_FILE, 1);
  }

  lemma SameSecondFirst()
    ensures Run(SAME_SECOND_RUN[..3]) == AFTER_INC
  {
    RunOfFour(SAME_SECOND_RUN);
    SameSecondBefore();
    SameSecondDumps();
    IncrementalStep(AFTER_CHANGE, 3);
    assert [FULL_1] + [INC_3] == [FULL_1, INC_3];
  }

  lemma SameSecondState()
    ensures Run(SAME_SECOND_RUN) == State(CHANGED, [FULL_1, INC_3, INC_4], FIRST_FILE[INC_4.name := map[]], 4)
  {
    RunOfFour(SAME_SECOND_RUN);
    SameSecondFirst();
    SameSecondDumps();
    IncrementalStep(AFTER_INC, 4);
    assert [FULL_1, INC_3] + [INC_4] == [FULL_1, INC_3, INC_4];
  }

  lemma SameSecondPlan()
    ensures PlanRestore([FULL_1, INC_3, INC_4]) == Some([FULL_1, INC_3, INC_4])
  {
    PlanOfTwo(FULL_1, INC_3);
    PlanGrows([FULL_1, INC_3], INC_4);
    assert [FULL_1, INC_3] + [INC_4] == [FULL_1, INC_3, INC_4];
  }

  lemma SameSecondLosesRows()
    ensures var s := Run(SAME_SECOND_RUN);
            && PlanRestore(s.index).Some?
            && USER in s.db && USER !in Restore(PlanRestore(s.index).value, s.files)
  {
    SameSecondState();
    SameSecondPlan();
    RestoredKeys([FULL_1, INC_3, INC_4], FIRST_FILE[INC_4.name := map[]], USER);
  }
}
