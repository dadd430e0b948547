/** The backup service over its index and its directory of files. */
module BackupServer {
  import opened Wrappers
  import opened BackupChain

  const BACKUP_TABLES: seq<Table> := [
    Resources, GroupReservations, Users, Bookings, GroupBuys, GroupBuyParticipants,
    Documents, DocumentRevisions, Notifications, Todos, NotificationDeliveries,
    DataDictionary, Tags, Taggings, ConsentRecords, Webhooks, WebhookDeliveries,
    AnalyticsEvents, AnalyticsHourly, AnomalyAlerts]

  lemma EveryTableIsListed(t: Table)
    ensures t in BACKUP_TABLES
  {
    var ts := BACKUP_TABLES;
    assert ts[0].Resources? && ts[1].GroupReservations? && ts[2].Users? && ts[3].Bookings? && ts[4].GroupBuys?;
    assert ts[5].GroupBuyParticipants? && ts[6].Documents? && ts[7].DocumentRevisions? && ts[8].Notifications?;
    assert ts[9].Todos? && ts[10].NotificationDeliveries? && ts[11].DataDictionary? && ts[12].Tags?;
    assert ts[13].Taggings? && ts[14].ConsentRecords? && ts[15].Webhooks? && ts[16].WebhookDeliveries?;
    assert ts[17].AnalyticsEvents? && ts[18].AnalyticsHourly? && ts[19].AnomalyAlerts?;
  }

  /** The tables with an updated_at column, among those that take part in backups. */
  const STAMPED: set<Table> := {Users, Bookings, GroupReservations, GroupBuys, Documents, Todos}

  predicate WrittenAfter(row: Row, t: int) { t < row.updatedAt }

  /** Every row of every table whose query did not fail, as it is; of the stamped tables, only those
      written after all of `since`. */
  ghost predicate IsDump(db: Tables, dump: Tables, failing: set<Table>, since: set<int>) {
    && (forall id :: id in dump <==>
          id in db && id.table !in failing && (id.table in STAMPED ==> forall t :: t in since ==> WrittenAfter(db[id], t)))
    && forall id :: id in dump ==> dump[id] == db[id]
  }

  /** Newer than the last is newer than all. */
  lemma NewerThanAll(db: Tables, dump: Tables, failing: set<Table>, last: int, times: set<int>)
    requires last in times && (forall t :: t in times ==> t <= last) && IsDump(db, dump, failing, {last})
    ensures IsDump(db, dump, failing, times)
  {
    forall id | id in db
      ensures WrittenAfter(db[id], last) <==> forall t :: t in times ==> WrittenAfter(db[id], t)
    {
    }
  }

  lemma {:induction false} LatestIsGreatest(index: seq<Backup>)
    ensures LastSuccessful(index).None? <==> index == []
    ensures LastSuccessful(index).Some? ==>
              LastSuccessful(index).value in index
              && forall b :: b in index ==> b.takenAt <= LastSuccessful(index).value.takenAt
  {
    if index != [] {
      LatestIsGreatest(index[..|index| - 1]);
      assert index == index[..|index| - 1] + [index[|index| - 1]];
    }
  }

  class Server {
    var db: Tables
    var index: seq<Backup>
    var files: Files
    var clock: int

    ghost function View(): State
      reads this
    {
      State(db, index, files, clock)
    }

    constructor ()
      ensures View() == Init()
    {
      db, index, files, clock := map[], [], map[], 0;
    }

    /** SELECT over one table, newer rows only when the table can tell. */
    function DumpTable(t: Table, since: Option<int>): Tables
      reads this
    {
      if since.Some? && HasUpdatedAt(t)
      then map id | id in db && id.table == t && db[id].updatedAt > since.value :: db[id]
      else map id | id in db && id.table == t :: db[id]
    }

    /** The loop over the tables; one whose query fails is logged and skipped. */
    method DumpAll(since: Option<int>, failing: set<Table>) returns (dump: Tables)
      ensures dump == Dump(db, since, failing)
      ensures IsDump(db, dump, failing, if since.Some? then {since.value} else {})
    {
      dump := map[];
      for i := 0 to |BACKUP_TABLES|
        invariant forall id :: id in dump <==>
                    id in db && id.table !in failing && Dumped(id, db[id], since) && id.table in BACKUP_TABLES[..i]
        invariant forall id :: id in dump ==> dump[id] == db[id]
      {
        assert BACKUP_TABLES[..i + 1] == BACKUP_TABLES[..i] + [BACKUP_TABLES[i]];
        if BACKUP_TABLES[i] in failing {
          continue;
        }
        dump := dump + DumpTable(BACKUP_TABLES[i], since);
      }
      assert BACKUP_TABLES[..|BACKUP_TABLES|] == BACKUP_TABLES;
      forall id | id in db ensures id.table in BACKUP_TABLES {
        EveryTableIsListed(id.table);
      }
    }

    /** Writes the file and appends to the index. When the file cannot be created nothing changes. */
    method Take(kind: Kind, since: Option<int>, now: int, failing: set<Table>, created: bool) returns (r: Option<Backup>)
      requires since == Since(kind, index)
      modifies this
      ensures r == if created then Some(Backup(kind, FileName(kind, now), now)) else None
      ensures View() == if created then Step(old(View()), BackupChain.Take(kind, now, failing)) else old(View())
      ensures created ==>
                var name := Name(kind, now / 1_000_000_000);
                && db == old(db) && index == old(index) + [Backup(kind, name, now)]
                && (forall n :: n in files <==> n in old(files) || n == name)
                && (forall n :: n in old(files) && n != name ==> files[n] == old(files)[n])
                && IsDump(db, files[name], failing, if since.Some? then {since.value} else {})
    {
      var name := FileName(kind, now);
      var dump := DumpAll(since, failing);
      if !created {
        return None;
      }
      files := files[name := dump];
      var b := Backup(kind, name, now);
      index := index + [b];
      clock := now;
      return Some(b);
    }

    method TakeFull(now: int, failing: set<Table>, created: bool) returns (r: Option<Backup>)
      modifies this
      ensures r == if created then Some(Backup(Full, FileName(Full, now), now)) else None
      ensures View() == if created then Step(old(View()), BackupChain.Take(Full, now, failing)) else old(View())
      ensures created ==>
                var name := Name(Full, now / 1_000_000_000);
                && index == old(index) + [Backup(Full, name, now)] && name in files
                && IsDump(db, files[name], failing, {})
    {
      r := Take(Full, None, now, failing, created);
    }

    /** The baseline is the last backup of either kind. */
    method TakeIncremental(now: int, failing: set<Table>, created: bool) returns (r: Option<Backup>)
      modifies this
      ensures r == if created then Some(Backup(Incremental, FileName(Incremental, now), now)) else None
      ensures View() == if created then Step(old(View()), BackupChain.Take(Incremental, now, failing)) else old(View())
      ensures created ==>
                var name := Name(Incremental, now / 1_000_000_000);
                && index == old(index) + [Backup(Incremental, name, now)] && name in files
                && IsDump(db, files[name], failing, set b | b in old(index) :: b.takenAt)
    {
      LatestIsGreatest(index);
      var since: Option<int> := None;
      var last := LastSuccessful(index);
      if last.Some? {
        since := Some(last.value.takenAt);
      }
      ghost var times := set b | b in index :: b.takenAt;
      r := Take(Incremental, since, now, failing, created);
      if created && last.Some? {
        NewerThanAll(db, files[FileName(Incremental, now)], failing, last.value.takenAt, times);
      }
    }

    method Plan() returns (plan: Option<seq<Backup>>)
      ensures plan == PlanRestore(index)
    {
      var full := LastFull(index);
      if full.None? {
        return None;
      }
      var p := [full.value];
      p := p + IncrementalsAfter(index, full.value.takenAt);
      return Some(p);
    }
  }
}
