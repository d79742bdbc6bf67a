// One node's database as a value: the log table, the materialised tables, the
// AUTOINCREMENT counter of `devices` and the staging area. Each function is the meaning
// of one transaction; Database.dfy has the methods that carry the transactions out.
module Store {
  import opened Basics
  import opened Wal

  datatype WalEntry = WalEntry(seqId: nat, op: Op)
  datatype Staged = Staged(hash: Hash, localPath: string, operation: string, readOnly: bool)
  datatype StagedRow = StagedRow(path: Path, info: Staged)
  datatype FileInfo = FileInfo(path: Path, hash: Hash, version: nat, owner: DeviceId, readOnly: bool)

  datatype Db = Db(wal: map<nat, Op>, tables: Tables, deviceSeq: nat, staging: map<Path, Staged>)

  const FRESH: Db := Db(map[], EMPTY, 0, map[])

  // ----- The log table ---------------------------------------------------------

  function LastSeq(wal: map<nat, Op>): nat { MaxOf(wal.Keys) }

  function InsertOrIgnore(wal: map<nat, Op>, id: nat, op: Op): map<nat, Op> {
    if id in wal then wal else wal[id := op]
  }

  function EntriesBetween(wal: map<nat, Op>, lo: nat, hi: nat): seq<WalEntry> {
    if hi <= lo then []
    else EntriesBetween(wal, lo, hi - 1) + if hi in wal then [WalEntry(hi, wal[hi])] else []
  }

  // SELECT ... WHERE seq_id > last ORDER BY seq_id.
  function EntriesSince(wal: map<nat, Op>, last: nat): seq<WalEntry> {
    EntriesBetween(wal, last, LastSeq(wal))
  }

  // The keys of the log table are 1, 2, ..., n.
  ghost predicate GapFree(wal: map<nat, Op>) { forall i :: i in wal <==> 1 <= i <= |wal| }

  ghost function LogOf(wal: map<nat, Op>): seq<Op>
    requires GapFree(wal)
  {
    seq(|wal|, i requires 0 <= i < |wal| => wal[i + 1])
  }

  // The entries of positions lo .. hi of a log, with their sequence ids.
  ghost function Numbered(log: seq<Op>, lo: nat, hi: nat): seq<WalEntry>
    requires lo <= hi <= |log|
  {
    seq(hi - lo, i requires 0 <= i < hi - lo => WalEntry(lo + i + 1, log[lo + i]))
  }

  lemma LastSeqIsSize(wal: map<nat, Op>)
    requires GapFree(wal)
    ensures LastSeq(wal) == |wal|
  {
    if wal != map[] { assert |wal| in wal.Keys && LastSeq(wal) in wal; }
  }

  lemma {:induction false} SelectedEntries(wal: map<nat, Op>, lo: nat, hi: nat)
    requires GapFree(wal) && lo <= hi <= |wal|
    ensures EntriesBetween(wal, lo, hi) == Numbered(LogOf(wal), lo, hi)
    decreases hi
  {
    if lo < hi {
      SelectedEntries(wal, lo, hi - 1);
      assert hi in wal;
    }
  }

  // ----- applyWalEntries ---------------------------------------------------------

  // The upsert of a device would give two rows the same UNIQUE address.
  predicate Clash(devices: map<DeviceId, Address>, op: Op) {
    op.DeviceUpdate? && exists d | d in devices :: d != op.device && devices[d] == op.address
  }

  function CounterAfter(deviceSeq: nat, op: Op): nat {
    if op.DeviceUpdate? && deviceSeq < op.device then op.device else deviceSeq
  }

  function ApplyEntry(db: Db, e: WalEntry): Result<Db> {
    if Clash(db.tables.devices, e.op) then Err
    else Ok(db.(wal := InsertOrIgnore(db.wal, e.seqId, e.op), tables := ApplyOp(db.tables, e.op),
                deviceSeq := CounterAfter(db.deviceSeq, e.op)))
  }

  // One transaction over a whole reply; Err stands for rollback and a thrown error.
  function ApplyEntries(db: Db, es: seq<WalEntry>): Result<Db> {
    if es == [] then Ok(db)
    else match ApplyEntries(db, es[..|es| - 1])
         case Err => Err
         case Ok(d) => ApplyEntry(d, es[|es| - 1])
  }

  function OpsOf(es: seq<WalEntry>): seq<Op> { seq(|es|, i requires 0 <= i < |es| => es[i].op) }

  // A reply that is accepted replays all its operations on the tables, those of entries the
  // log already has too, and adds to the log those whose ids it does not have, rewriting none.
  lemma {:induction false} AppliedMeans(db: Db, es: seq<WalEntry>)
    requires ApplyEntries(db, es).Ok?
    ensures var d := ApplyEntries(db, es).value;
            && d.tables == Replay(db.tables, OpsOf(es)) && d.staging == db.staging
            && (forall i | i in db.wal :: i in d.wal && d.wal[i] == db.wal[i])
            && (forall i | i in d.wal && i !in db.wal :: WalEntry(i, d.wal[i]) in es)
            && (forall e | e in es :: e.seqId in d.wal)
  {
    if es != [] {
      var init, last := es[..|es| - 1], es[|es| - 1];
      AppliedMeans(db, init);
      assert es == init + [last];
      assert OpsOf(es)[..|es| - 1] == OpsOf(init);
    } else {
      assert OpsOf(es) == [];
    }
  }

  // ----- addWalEntry and registerDevice -------------------------------------------

  function Versions(files: map<FileKey, FileRow>, p: Path): set<nat> {
    set k | k in files && k.path == p :: k.version
  }

  function MaxVersion(files: map<FileKey, FileRow>, p: Path): nat { MaxOf(Versions(files, p)) }

  // The version a pushed file entry carried is replaced by the coordinator's.
  function Stamp(op: Op, files: map<FileKey, FileRow>): Op {
    match op
    case FileUpdate(p, h, _, d, ro) => FileUpdate(p, h, MaxVersion(files, p) + 1, d, ro)
    case FileDelete(p, _, d) => FileDelete(p, MaxVersion(files, p) + 1, d)
    case _ => op
  }

  // A file entry gets the version after the largest its path has.
  lemma StampMeans(op: Op, files: map<FileKey, FileRow>)
    ensures SameButVersion(Stamp(op, files), op)
    ensures op.FileUpdate? || op.FileDelete? ==>
              var v := Stamp(op, files).version;
              && (forall k | k in files && k.path == op.path :: k.version < v)
              && (v > 1 ==> FileKey(op.path, v - 1) in files) && v > 0
  {
    if op.FileUpdate? || op.FileDelete? {
      forall k | k in files && k.path == op.path ensures k.version in Versions(files, op.path) {}
    }
  }

  function AddEntry(db: Db, op: Op): Result<Db> {
    ApplyEntry(db, WalEntry(LastSeq(db.wal) + 1, Stamp(op, db.tables.files)))
  }

  function IdsOf(devices: map<DeviceId, Address>, a: Address): set<DeviceId> {
    set d | d in devices && devices[d] == a
  }

  // The first of the two transactions of a new registration: the row without its log entry.
  function Inserted(db: Db, a: Address): Db {
    var id := db.deviceSeq + 1;
    db.(tables := db.tables.(devices := db.tables.devices[id := a]), deviceSeq := id)
  }

  function RegisterDevice(db: Db, a: Address): Result<(Db, DeviceId)> {
    if IdsOf(db.tables.devices, a) != {} then Ok((db, MaxOf(IdsOf(db.tables.devices, a))))
    else
      var id := db.deviceSeq + 1;
      match AddEntry(Inserted(db, a), DeviceUpdate(id, a))
      case Err => Err
      case Ok(d) => Ok((d, id))
  }

  // ----- cleanupOldFileVersions ------------------------------------------------------

  function Newer(files: map<FileKey, FileRow>, p: Path, v: nat): set<nat> {
    set w | w in Versions(files, p) && v < w
  }

  // Keep the `keep` newest rows of one path.
  function CleanupPath(files: map<FileKey, FileRow>, p: Path, keep: nat): map<FileKey, FileRow> {
    map k | k in files && (k.path == p ==> |Newer(files, p, k.version)| < keep) :: files[k]
  }

  function CleanupPaths(files: map<FileKey, FileRow>, ps: seq<Path>, keep: nat): map<FileKey, FileRow> {
    if ps == [] then files
    else CleanupPath(CleanupPaths(files, ps[..|ps| - 1], keep), ps[|ps| - 1], keep)
  }

  lemma CleanupPathKeepsLatest(files: map<FileKey, FileRow>, p: Path, keep: nat, q: Path)
    ensures MaxVersion(CleanupPath(files, p, keep), q) == MaxVersion(files, q)
            <==> (q == p && keep == 0 ==> MaxVersion(files, q) == 0)
  {
    var rest := CleanupPath(files, p, keep);
    if q != p {
      assert Versions(rest, q) == Versions(files, q) by {
        forall k | k in files && k.path == q ensures k in rest {}
      }
    } else if keep == 0 {
      assert Versions(rest, p) == {};
    } else if Versions(files, p) != {} {
      var top := MaxVersion(files, p);
      assert Newer(files, p, top) == {};
      assert FileKey(p, top) in rest;
      assert top in Versions(rest, p) && Versions(rest, p) <= Versions(files, p);
    } else {
      assert Versions(rest, p) == {};
    }
  }

  lemma {:induction false} CleanupShrinks(files: map<FileKey, FileRow>, ps: seq<Path>, keep: nat)
    ensures forall k | k in CleanupPaths(files, ps, keep) :: k in files && CleanupPaths(files, ps, keep)[k] == files[k]
    ensures forall k | k in files && k.path !in ps :: k in CleanupPaths(files, ps, keep)
  {
    if ps != [] { CleanupShrinks(files, ps[..|ps| - 1], keep); }
  }

  // The newer rows of a path and their versions are as many.
  lemma {:induction false} NewerRows(files: map<FileKey, FileRow>, p: Path, v: nat, rows: set<FileKey>)
    requires forall w :: w in rows <==> w in files && w.path == p && v < w.version
    ensures |rows| == |Newer(files, p, v)|
    decreases rows
  {
    if rows == {} {
      assert Newer(files, p, v) == {};
    } else {
      var w :| w in rows;
      var rest := files - {w};
      NewerRows(rest, p, v, rows - {w});
      assert w.version in Newer(files, p, v);
      assert Newer(rest, p, v) == Newer(files, p, v) - {w.version} by { OtherVersions(files, p, w); }
    }
  }

  lemma OtherVersions(files: map<FileKey, FileRow>, p: Path, w: FileKey)
    requires w in files && w.path == p
    ensures Versions(files - {w}, p) == Versions(files, p) - {w.version}
  {
    forall v | v in Versions(files, p) && v != w.version ensures v in Versions(files - {w}, p) {
      assert FileKey(p, v) in files - {w};
    }
  }

  // A cleanup of some paths keeps exactly the rows of other paths and, of each path it names,
  // the rows with fewer than `keep` newer ones among the rows there were.
  lemma {:induction false} CleanupKeeps(files: map<FileKey, FileRow>, ps: seq<Path>, keep: nat, k: FileKey)
    ensures k in CleanupPaths(files, ps, keep) <==>
            k in files && (k.path in ps ==> |set w | w in files && w.path == k.path && k.version < w.version| < keep)
    ensures k in CleanupPaths(files, ps, keep) ==> CleanupPaths(files, ps, keep)[k] == files[k]
  {
    NewerRows(files, k.path, k.version, set w | w in files && w.path == k.path && k.version < w.version);
    if ps != [] {
      var init, last := ps[..|ps| - 1], ps[|ps| - 1];
      var before := CleanupPaths(files, init, keep);
      CleanupKeeps(files, init, keep, k);
      CleanupShrinks(files, init, keep);
      assert ps == init + [last];
      if k.path == last && k in before { NewerLeft(files, init, keep, k); }
    }
  }

  // Cleaning a path again finds the rows it kept no older than before.
  lemma NewerLeft(files: map<FileKey, FileRow>, ps: seq<Path>, keep: nat, k: FileKey)
    requires k in CleanupPaths(files, ps, keep)
    ensures var before := CleanupPaths(files, ps, keep);
            && |Newer(before, k.path, k.version)| <= |Newer(files, k.path, k.version)|
            && (k.path !in ps ==> Newer(before, k.path, k.version) == Newer(files, k.path, k.version))
  {
    var before := CleanupPaths(files, ps, keep);
    CleanupShrinks(files, ps, keep);
    assert Newer(before, k.path, k.version) <= Newer(files, k.path, k.version);
    Fewer(Newer(before, k.path, k.version), Newer(files, k.path, k.version));
    if k.path !in ps {
      forall v | v in Newer(files, k.path, k.version) ensures v in Newer(before, k.path, k.version) {
        assert FileKey(k.path, v) in before;
      }
    }
  }

  lemma Fewer(a: set<nat>, b: set<nat>)
    requires a <= b
    ensures |a| <= |b|
  {
    assert b == a + (b - a);
  }

  // The next version a path will get survives a cleanup exactly when the cleanup keeps
  // at least one version, does not name the path, or the path has no version yet.
  lemma {:induction false} CleanupKeepsNextVersion(files: map<FileKey, FileRow>, ps: seq<Path>, keep: nat, q: Path)
    ensures MaxVersion(CleanupPaths(files, ps, keep), q) == MaxVersion(files, q)
            <==> (q in ps && keep == 0 ==> MaxVersion(files, q) == 0)
  {
    if ps != [] {
      var init, last := ps[..|ps| - 1], ps[|ps| - 1];
      CleanupKeepsNextVersion(files, init, keep, q);
      CleanupPathKeepsLatest(CleanupPaths(files, init, keep), last, keep, q);
      if keep == 0 && q in ps { CleanupToZero(files, ps, q); }
      assert q in ps <==> q in init || q == last;
    }
  }

  lemma {:induction false} CleanupToZero(files: map<FileKey, FileRow>, ps: seq<Path>, q: Path)
    requires q in ps
    ensures Versions(CleanupPaths(files, ps, 0), q) == {}
  {
    var init, last := ps[..|ps| - 1], ps[|ps| - 1];
    if q != last {
      CleanupToZero(files, init, q);
    }
  }

  // ----- Queries over the newest rows ---------------------------------------------------

  function TextOf(h: Option<Hash>): Hash { if h.Some? then h.value else "" }

  function InfoOf(files: map<FileKey, FileRow>, k: FileKey): FileInfo
    requires k in files
  {
    FileInfo(k.path, TextOf(files[k].hash), k.version, files[k].owner, files[k].readOnly)
  }

  function VersionExists(files: map<FileKey, FileRow>, p: Path): (b: bool)
    ensures b ==> FileKey(p, MaxVersion(files, p)) in files
  {
    Versions(files, p) != {}
  }

  // getFileInfoByPath(path, 0).
  function Latest(files: map<FileKey, FileRow>, p: Path): Option<FileInfo> {
    if !VersionExists(files, p) then None
    else
      var k := FileKey(p, MaxVersion(files, p));
      if files[k].deleted then None else Some(InfoOf(files, k))
  }

  // The row of the path with the largest version.
  ghost predicate IsNewest(files: map<FileKey, FileRow>, p: Path, k: FileKey) {
    k in files && k.path == p && forall j | j in files && j.path == p :: j.version <= k.version
  }

  // A row that is not a deletion, as a query shows it; a missing hash reads as the empty text.
  ghost predicate Shows(files: map<FileKey, FileRow>, k: FileKey, info: FileInfo) {
    && k in files && !files[k].deleted && info.path == k.path && info.version == k.version
    && info.owner == files[k].owner && info.readOnly == files[k].readOnly
    && (files[k].hash == Some(info.hash) || (files[k].hash == None && info.hash == ""))
  }

  // The newest row answers for its path unless it is a deletion, which is answered like a
  // path that has no row.
  lemma LatestMeans(files: map<FileKey, FileRow>, p: Path)
    ensures forall info :: Latest(files, p) == Some(info) <==>
              exists k :: IsNewest(files, p, k) && Shows(files, k, info)
    ensures forall h :: LatestHash(files, p) == Some(h) <==>
              exists k | IsNewest(files, p, k) ::
                !files[k].deleted && (files[k].hash == Some(h) || (files[k].hash == None && h == ""))
    ensures LatestHash(files, p) == None <==> forall k | IsNewest(files, p, k) :: files[k].deleted
  {
    forall k | k in files && k.path == p ensures k.version in Versions(files, p) {}
    if VersionExists(files, p) {
      var k := FileKey(p, MaxVersion(files, p));
      assert IsNewest(files, p, k);
      forall j | IsNewest(files, p, j) ensures j == k {}
      if !files[k].deleted { assert Shows(files, k, InfoOf(files, k)); }
    }
  }

  // getObjectHashByPath.
  function LatestHash(files: map<FileKey, FileRow>, p: Path): Option<Hash> {
    if Latest(files, p).Some? then Some(Latest(files, p).value.hash) else None
  }

  function Paths(files: map<FileKey, FileRow>): set<Path> { set k | k in files :: k.path }

  lemma CleanupKeepsLatestView(files: map<FileKey, FileRow>, ps: seq<Path>, keep: nat, q: Path)
    requires keep > 0
    ensures Latest(CleanupPaths(files, ps, keep), q) == Latest(files, q)
  {
    CleanupKeepsNextVersion(files, ps, keep, q);
    CleanupShrinks(files, ps, keep);
    if VersionExists(files, q) { CleanupKeepsTop(files, ps, keep, q); }
  }

  lemma {:induction false} CleanupKeepsTop(files: map<FileKey, FileRow>, ps: seq<Path>, keep: nat, q: Path)
    requires keep > 0 && VersionExists(files, q)
    ensures FileKey(q, MaxVersion(files, q)) in CleanupPaths(files, ps, keep)
    ensures VersionExists(CleanupPaths(files, ps, keep), q)
  {
    var k := FileKey(q, MaxVersion(files, q));
    if ps != [] {
      var before := CleanupPaths(files, ps[..|ps| - 1], keep);
      CleanupKeepsTop(files, ps[..|ps| - 1], keep, q);
      CleanupShrinks(files, ps[..|ps| - 1], keep);
      assert Versions(before, q) <= Versions(files, q);
      assert Newer(before, q, k.version) == {};
    }
    assert k.version in Versions(CleanupPaths(files, ps, keep), q);
  }

  // ----- ensure_schema ---------------------------------------------------------------

  function FileClaims(files: map<FileKey, FileRow>): set<Claim> {
    set k | k in files && files[k].hash.Some? :: Claim(files[k].hash.value, files[k].owner)
  }

  // Every open of the database re-inserts the owners named by file rows.
  function Backfill(db: Db): Db {
    db.(tables := db.tables.(owners := db.tables.owners + FileClaims(db.tables.files)))
  }

  // Afterwards every pair of a file row is an owner, and no other pair was added.
  lemma BackfillMeans(db: Db)
    ensures forall o :: o in Backfill(db).tables.owners <==>
              o in db.tables.owners
              || exists k | k in db.tables.files ::
                   db.tables.files[k].hash == Some(o.hash) && db.tables.files[k].owner == o.device
    ensures Backfill(db) == db.(tables := db.tables.(owners := Backfill(db).tables.owners))
  {
    forall k | k in db.tables.files && db.tables.files[k].hash.Some?
      ensures Claim(db.tables.files[k].hash.value, db.tables.files[k].owner) in FileClaims(db.tables.files) {}
  }

  // Reopening a database that equals the fold of its log changes it exactly when some
  // file row of the log names a device that has since given the object up.
  lemma BackfillHarmless(db: Db, log: seq<Op>)
    requires db.tables == Fold(log)
    ensures Backfill(db) == db <==>
            forall k, h, d, ro | LastWrite(log, FileCell(k)) == Writes(Row(FileRow(Some(h), d, false, ro))) ::
              Live(log, Claim(h, d))
  {
    forall c { ReadReplay(EMPTY, log, c); }
    forall k | k in db.tables.files { FileRowShape(log, k); }
    if Backfill(db) == db {
      forall k, h, d, ro | LastWrite(log, FileCell(k)) == Writes(Row(FileRow(Some(h), d, false, ro)))
        ensures Live(log, Claim(h, d))
      {
        assert Read(db.tables, FileCell(k)) == Row(FileRow(Some(h), d, false, ro));
        assert k in db.tables.files && db.tables.files[k] == FileRow(Some(h), d, false, ro);
        assert Claim(h, d) in Backfill(db).tables.owners;
        assert Read(db.tables, OwnerCell(Claim(h, d))) == Owned;
      }
    } else {
      var o :| o in FileClaims(db.tables.files) && o !in db.tables.owners;
      var k :| k in db.tables.files && db.tables.files[k].hash.Some? &&
               Claim(db.tables.files[k].hash.value, db.tables.files[k].owner) == o;
      assert Read(db.tables, FileCell(k)) == Row(db.tables.files[k]);
      assert Read(db.tables, OwnerCell(o)) == Absent;
    }
  }

  lemma FileRowShape(log: seq<Op>, k: FileKey)
    requires k in Fold(log).files
    ensures LastWrite(log, FileCell(k)) == Writes(Row(Fold(log).files[k]))
    ensures Fold(log).files[k].hash.Some? <==> !Fold(log).files[k].deleted
  {
    ReadReplay(EMPTY, log, FileCell(k));
    assert Read(Fold(log), FileCell(k)) == Row(Fold(log).files[k]);
    var i := LastWriter(log, FileCell(k));
  }

  // isObjectReferenced: SELECT EXISTS over `files` and `staging_files`.
  predicate Referenced(files: map<FileKey, FileRow>, staging: map<Path, Staged>, h: Hash) {
    (exists k | k in files :: files[k].hash == Some(h)) || exists p | p in staging :: staging[p].hash == h
  }

  // ----- A batch of appends, as one PushWAL request performs it ---------------------------

  function AppendAll(db: Db, ops: seq<Op>): Result<Db> {
    if ops == [] then Ok(db)
    else match AppendAll(db, ops[..|ops| - 1])
         case Err => Err
         case Ok(d) => AddEntry(d, ops[|ops| - 1])
  }

  // A batch without registrations is never refused.
  lemma {:induction false} BatchAccepted(db: Db, ops: seq<Op>)
    requires forall op | op in ops :: !op.DeviceUpdate?
    ensures AppendAll(db, ops).Ok?
  {
    if ops != [] { BatchAccepted(db, ops[..|ops| - 1]); }
  }

  // Equal but for the version of a file entry.
  predicate SameButVersion(a: Op, b: Op) {
    match (a, b)
    case (FileUpdate(p, h, _, d, ro), FileUpdate(p', h', _, d', ro')) => p == p' && h == h' && d == d' && ro == ro'
    case (FileDelete(p, _, d), FileDelete(p', _, d')) => p == p' && d == d'
    case _ => a == b
  }

  ghost predicate SameBatch(a: seq<Op>, b: seq<Op>) {
    |a| == |b| && forall i | 0 <= i < |a| :: SameButVersion(a[i], b[i])
  }

  lemma SnocBatch(a: seq<Op>, b: seq<Op>, x: Op, y: Op)
    requires SameBatch(a, b) && SameButVersion(x, y)
    ensures SameBatch(a + [x], b + [y])
  {}

  lemma AddEntryAppends(db: Db, op: Op, d: Db) returns (stored: Op)
    requires GapFree(db.wal) && AddEntry(db, op) == Ok(d)
    ensures stored == Stamp(op, db.tables.files) && SameButVersion(stored, op)
    ensures GapFree(d.wal) && LogOf(d.wal) == LogOf(db.wal) + [stored]
    ensures d.tables == ApplyOp(db.tables, stored) && d.staging == db.staging
    ensures d.deviceSeq == CounterAfter(db.deviceSeq, stored)
  {
    LastSeqIsSize(db.wal);
    stored := Stamp(op, db.tables.files);
    var n := |db.wal|;
    assert d.wal == db.wal[n + 1 := stored];
    assert |d.wal| == n + 1;
    assert forall i :: i in d.wal <==> 1 <= i <= n + 1;
  }

  lemma BlockGrows(log: seq<Op>, ops: seq<Op>, first: seq<Op>, before: Db, d: Db) returns (stored: seq<Op>)
    requires ops != [] && GapFree(before.wal) && LogOf(before.wal) == log + first
    requires SameBatch(first, ops[..|ops| - 1]) && AddEntry(before, ops[|ops| - 1]) == Ok(d)
    ensures GapFree(d.wal) && LogOf(d.wal) == log + stored && SameBatch(stored, ops)
  {
    var init, op := ops[..|ops| - 1], ops[|ops| - 1];
    var final := AddEntryAppends(before, op, d);
    SnocBatch(first, init, final, op);
    stored := first + [final];
    assert log + first + [final] == log + stored && init + [op] == ops;
  }

  lemma LastAppend(db: Db, ops: seq<Op>, d: Db) returns (before: Db)
    requires ops != [] && AppendAll(db, ops) == Ok(d)
    ensures AppendAll(db, ops[..|ops| - 1]) == Ok(before) && AddEntry(before, ops[|ops| - 1]) == Ok(d)
  {
    before := AppendAll(db, ops[..|ops| - 1]).value;
  }

  // A batch that is not interrupted lands as a block at the end of the log, in order,
  // with nothing but the versions rewritten.
  lemma {:induction false} BatchAppends(db: Db, ops: seq<Op>, d: Db) returns (stored: seq<Op>)
    requires GapFree(db.wal) && AppendAll(db, ops) == Ok(d)
    ensures GapFree(d.wal) && LogOf(d.wal) == LogOf(db.wal) + stored
    ensures SameBatch(stored, ops)
  {
    if ops == [] {
      stored := [];
      assert LogOf(db.wal) + [] == LogOf(db.wal);
    } else {
      var before := LastAppend(db, ops, d);
      var first := BatchAppends(db, ops[..|ops| - 1], before);
      stored := BlockGrows(LogOf(db.wal), ops, first, before, d);
    }
  }
}
