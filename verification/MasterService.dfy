// The coordinator's three calls. Each holds one mutex for its whole duration; the
// storage failures a call may meet are parameters.
module MasterService {
  import opened Basics
  import opened Wal
  import opened Store
  import opened Database

  class MasterServiceImpl {
    const db: SqliteDatabase

    constructor (db: SqliteDatabase)
      ensures this.db == db
    {
      this.db := db;
    }

    method RegisterDevice(a: Address) returns (id: Result<DeviceId>, fullWal: seq<WalEntry>)
      modifies db
      ensures id.Ok? <==> Store.RegisterDevice(old(db.View()), a).Ok?
      ensures id.Ok? ==> (db.View(), id.value) == Store.RegisterDevice(old(db.View()), a).value
      ensures id.Err? ==> db.View() == Inserted(old(db.View()), a)
      ensures fullWal == if id.Ok? then EntriesSince(db.wal, 0) else []
    {
      fullWal := [];
      id := db.RegisterDevice(a);
      if id.Ok? {
        fullWal := db.GetWalEntriesSince(0);
      }
    }

    method UpdateDB(last: nat) returns (entries: seq<WalEntry>)
      ensures entries == EntriesSince(db.wal, last)
    {
      entries := db.GetWalEntriesSince(last);
    }

    // One transaction per entry: storage gives out at entry `faultAt`, and the entries
    // before it stay committed. The batch as a whole is not atomic.
    method PushWAL(entries: seq<Op>, faultAt: nat) returns (ids: seq<nat>, success: bool)
      modifies db
      ensures |ids| <= |entries| && (success <==> |ids| == |entries|)
      ensures AppendAll(old(db.View()), entries[..|ids|]) == Ok(db.View())
      ensures forall i | 0 <= i < |ids| :: ids[i] == LastSeq(old(db.wal)) + 1 + i
      ensures |ids| < |entries| ==>
                |ids| == faultAt || AppendAll(old(db.View()), entries[..|ids| + 1]).Err?
      ensures (forall op | op in entries :: !op.DeviceUpdate?) ==> success || |ids| == faultAt
    {
      ids := [];
      while |ids| < |entries|
        invariant Appended(old(db.View()), entries, ids, db.View())
      {
        if |ids| == faultAt {
          return ids, false;
        }
        AppendedNext(old(db.View()), entries, ids, db.View());
        var id := db.AddWalEntry(entries[|ids|]);
        if id.Err? {
          if forall op | op in entries :: !op.DeviceUpdate? { BatchAccepted(old(db.View()), entries[..|ids| + 1]); }
          return ids, false;
        }
        ids := ids + [id.value];
      }
      return ids, true;
    }
  }

  // The first entries are in, with consecutive ids from the old end of the log on.
  predicate Appended(start: Db, ops: seq<Op>, ids: seq<nat>, db: Db) {
    && |ids| <= |ops| && AppendAll(start, ops[..|ids|]) == Ok(db)
    && LastSeq(db.wal) == LastSeq(start.wal) + |ids|
    && forall j | 0 <= j < |ids| :: ids[j] == LastSeq(start.wal) + 1 + j
  }

  lemma AppendedNext(start: Db, ops: seq<Op>, ids: seq<nat>, db: Db)
    requires |ids| < |ops| && Appended(start, ops, ids, db)
    ensures AppendAll(start, ops[..|ids| + 1]) == AddEntry(db, ops[|ids|])
    ensures AddEntry(db, ops[|ids|]).Ok? ==>
              Appended(start, ops, ids + [LastSeq(db.wal) + 1], AddEntry(db, ops[|ids|]).value)
  {
    assert ops[..|ids| + 1][..|ids|] == ops[..|ids|];
    NextSeq(db, ops[|ids|]);
  }

  lemma NextSeq(db: Db, op: Op)
    ensures AddEntry(db, op).Ok? ==> LastSeq(AddEntry(db, op).value.wal) == LastSeq(db.wal) + 1
  {
    var id := LastSeq(db.wal) + 1;
    if AddEntry(db, op).Ok? {
      assert id !in db.wal by { assert id in db.wal.Keys ==> id <= LastSeq(db.wal); }
      assert AddEntry(db, op).value.wal.Keys == db.wal.Keys + {id};
    }
  }
}
