// SqliteDatabase: the tables as fields that each method updates in place, every method
// tied to the transaction of Store.dfy it carries out.
module Database {
  import opened Basics
  import opened Wal
  import opened Store

  class SqliteDatabase {
    var wal: map<nat, Op>
    var files: map<FileKey, FileRow>
    var owners: set<Claim>
    var devices: map<DeviceId, Address>
    var deviceSeq: nat
    var staging: map<Path, Staged>

    ghost function View(): Db
      reads this
    {
      Db(wal, Tables(files, owners, devices), deviceSeq, staging)
    }

    constructor ()
      ensures View() == FRESH
    {
      wal, files, owners, devices, deviceSeq, staging := map[], map[], {}, map[], 0, map[];
    }

    // The part of ensure_schema that runs on every later open.
    method Reopen()
      modifies this
      ensures View() == Backfill(old(View()))
      ensures forall o :: o in owners <==>
                o in old(owners) || exists k | k in files :: files[k].hash == Some(o.hash) && files[k].owner == o.device
    {
      BackfillMeans(View());
      owners := owners + FileClaims(files);
    }

    // ----- The log ---------------------------------------------------------------

    method GetWalEntriesSince(last: nat) returns (out: seq<WalEntry>)
      ensures out == EntriesSince(wal, last)
      ensures forall i, j | 0 <= i < j < |out| :: out[i].seqId < out[j].seqId
      ensures forall e :: e in out <==> e.seqId > last && e.seqId in wal && wal[e.seqId] == e.op
    {
      out := [];
      var cursor := last;
      var end := LastSeq(wal);
      while cursor < end
        invariant cursor == last || last < cursor <= end
        invariant out == EntriesBetween(wal, last, cursor)
        invariant forall i, j | 0 <= i < j < |out| :: out[i].seqId < out[j].seqId
        invariant forall e :: e in out <==> last < e.seqId <= cursor && e.seqId in wal && wal[e.seqId] == e.op
      {
        cursor := cursor + 1;
        if cursor in wal {
          out := out + [WalEntry(cursor, wal[cursor])];
        }
      }
      assert forall i | i in wal :: i in wal.Keys && i <= end;
    }

    // INSERT OR REPLACE into files, INSERT OR IGNORE into or DELETE from object_owners,
    // or the upsert of a device, which alone can fail.
    method ApplyWalEntryToState(op: Op) returns (ok: bool)
      modifies `files, `owners, `devices, `deviceSeq
      ensures ok <==> !Clash(old(devices), op)
      ensures !ok <==>
                op.DeviceUpdate? && exists d | d in old(devices) :: d != op.device && old(devices)[d] == op.address
      ensures ok ==> View() == old(View()).(tables := ApplyOp(old(View()).tables, op),
                                            deviceSeq := CounterAfter(old(deviceSeq), op))
      ensures !ok ==> View() == old(View())
    {
      match op {
        case FileUpdate(p, h, v, d, ro) =>
          files := files[FileKey(p, v) := FileRow(Some(h), d, false, ro)];
          owners := owners + {Claim(h, d)};
        case FileDelete(p, v, d) =>
          files := files[FileKey(p, v) := FileRow(None, d, true, false)];
        case OwnerUpdate(h, d) =>
          owners := owners + {Claim(h, d)};
        case OwnerDelete(h, d) =>
          owners := owners - {Claim(h, d)};
        case DeviceUpdate(d, a) =>
          if exists e | e in devices :: e != d && devices[e] == a {
            return false;
          }
          devices := devices[d := a];
          if deviceSeq < d { deviceSeq := d; }
      }
      return true;
    }

    // All entries of a reply in one transaction.
    method ApplyWalEntries(es: seq<WalEntry>) returns (ok: bool)
      modifies this
      ensures ok <==> ApplyEntries(old(View()), es).Ok?
      ensures View() == if ok then ApplyEntries(old(View()), es).value else old(View())
      ensures ok ==> Tables(files, owners, devices) == Replay(Tables(old(files), old(owners), old(devices)), OpsOf(es))
      ensures forall i | i in old(wal) :: i in wal && wal[i] == old(wal)[i]
      ensures forall i | i in wal && i !in old(wal) :: WalEntry(i, wal[i]) in es
      ensures ok ==> forall e | e in es :: e.seqId in wal
    {
      var w, f, o, ds, dq := wal, files, owners, devices, deviceSeq;
      var i := 0;
      while i < |es|
        invariant 0 <= i <= |es|
        invariant ApplyEntries(old(View()), es[..i]) == Ok(View())
        invariant staging == old(staging)
      {
        assert es[..i + 1][..i] == es[..i];
        if es[i].seqId !in wal {
          wal := wal[es[i].seqId := es[i].op];
        }
        var applied := ApplyWalEntryToState(es[i].op);
        if !applied {
          ApplyErrPersists(old(View()), es, i + 1);
          wal, files, owners, devices, deviceSeq := w, f, o, ds, dq;
          return false;
        }
        i := i + 1;
      }
      assert es[..i] == es;
      AppliedMeans(old(View()), es);
      return true;
    }

    method AddWalEntry(op: Op) returns (r: Result<nat>)
      modifies this
      ensures r == if AddEntry(old(View()), op).Ok? then Ok(LastSeq(old(wal)) + 1) else Err
      ensures View() == if r.Ok? then AddEntry(old(View()), op).value else old(View())
    {
      var before := wal;
      var id := LastSeq(wal) + 1;
      var stored := op;
      match op {
        case FileUpdate(p, h, _, d, ro) => stored := FileUpdate(p, h, MaxVersion(files, p) + 1, d, ro);
        case FileDelete(p, _, d) => stored := FileDelete(p, MaxVersion(files, p) + 1, d);
        case _ =>
      }
      assert id !in wal by { assert id in wal.Keys ==> id <= LastSeq(wal); }
      wal := wal[id := stored];
      var ok := ApplyWalEntryToState(stored);
      if !ok {
        wal := before;
        return Err;
      }
      return Ok(id);
    }

    method RegisterDevice(a: Address) returns (r: Result<DeviceId>)
      modifies this
      ensures r.Ok? <==> Store.RegisterDevice(old(View()), a).Ok?
      ensures r.Ok? ==> (View(), r.value) == Store.RegisterDevice(old(View()), a).value
      ensures r.Err? ==> View() == Inserted(old(View()), a)
    {
      var known := IdsOf(devices, a);
      if known != {} {
        return Ok(MaxOf(known));
      }
      var id := deviceSeq + 1;
      devices, deviceSeq := devices[id := a], id;
      var logged := AddWalEntry(DeviceUpdate(id, a));
      return if logged.Ok? then Ok(id) else Err;
    }

    // ----- Old versions -------------------------------------------------------------

    // SELECT version ... ORDER BY version DESC.
    method SelectVersionsDescending(p: Path) returns (vs: seq<nat>)
      ensures forall v :: v in vs <==> v in Versions(files, p)
      ensures forall v :: v in vs <==> FileKey(p, v) in files
      ensures forall i, j | 0 <= i < j < |vs| :: vs[j] < vs[i]
      ensures |vs| == |Versions(files, p)|
    {
      forall v ensures v in Versions(files, p) <==> FileKey(p, v) in files {
        if v in Versions(files, p) {
          var k :| k in files && k.path == p && k.version == v;
          assert k == FileKey(p, v);
        }
        if FileKey(p, v) in files { assert FileKey(p, v).version in Versions(files, p); }
      }
      vs := [];
      var rest := Versions(files, p);
      while rest != {}
        invariant forall v :: v in Versions(files, p) <==> v in vs || v in rest
        invariant forall v, w | v in vs && w in rest :: w < v
        invariant forall i, j | 0 <= i < j < |vs| :: vs[j] < vs[i]
        invariant |vs| + |rest| == |Versions(files, p)|
        decreases rest
      {
        var top := MaxOf(rest);
        assert forall i | 0 <= i < |vs| :: vs[i] in vs;
        vs, rest := vs + [top], rest - {top};
      }
    }

    method CleanupOldFileVersionsForPath(p: Path, keep: nat) returns (removed: nat)
      modifies `files
      ensures files == CleanupPath(old(files), p, keep)
      ensures removed == |old(files)| - |files|
    {
      var vs := SelectVersionsDescending(p);
      removed := 0;
      KeptRows(files, p, vs, keep);
      if |vs| <= keep {
        return;
      }
      var index := keep;
      while index < |vs|
        invariant keep <= index <= |vs|
        invariant files == DropVersions(old(files), p, vs[keep..index])
        invariant removed == |old(files)| - |files|
      {
        DropOne(old(files), p, vs, keep, index);
        files := files - {FileKey(p, vs[index])};
        removed := removed + 1;
        index := index + 1;
      }
      assert vs[keep..index] == vs[keep..];
    }

    method CleanupOldFileVersions(ps: seq<Path>, keep: nat) returns (removed: nat)
      modifies `files
      ensures files == CleanupPaths(old(files), ps, keep)
      ensures forall k :: k in files <==>
                (k in old(files)
                 && (k.path in ps ==> |set w | w in old(files) && w.path == k.path && k.version < w.version| < keep))
      ensures forall k | k in files :: files[k] == old(files)[k]
      ensures removed == |old(files)| - |files|
    {
      forall k { CleanupKeeps(files, ps, keep, k); }
      removed := 0;
      var i := 0;
      while i < |ps|
        invariant 0 <= i <= |ps|
        invariant files == CleanupPaths(old(files), ps[..i], keep)
        invariant removed == |old(files)| - |files|
      {
        var n := CleanupOldFileVersionsForPath(ps[i], keep);
        removed := removed + n;
        assert ps[..i + 1][..i] == ps[..i];
        i := i + 1;
      }
      assert ps[..i] == ps;
    }

    // ----- Queries ----------------------------------------------------------------------

    method GetFileInfoByPath(p: Path, version: nat) returns (r: Option<FileInfo>)
      ensures version == 0 ==> r == Latest(files, p)
      ensures version == 0 ==>
                forall info :: r == Some(info) <==> exists k :: IsNewest(files, p, k) && Shows(files, k, info)
      ensures version != 0 ==> forall info :: r == Some(info) <==> Shows(files, FileKey(p, version), info)
      ensures version != 0 && r.Some? ==> r.value.path == p && r.value.version == version
      ensures version != 0 ==> (r.Some? <==> FileKey(p, version) in files && !files[FileKey(p, version)].deleted)
      ensures r.Some? ==> var k := FileKey(p, r.value.version); k in files && r.value == InfoOf(files, k)
    {
      LatestMeans(files, p);
      if version == 0 {
        var vs := SelectVersionsDescending(p);
        if vs == [] {
          return None;
        }
        assert vs[0] in Versions(files, p);
        assert vs[0] == MaxVersion(files, p);
        var k := FileKey(p, vs[0]);
        return if files[k].deleted then None else Some(InfoOf(files, k));
      }
      var k := FileKey(p, version);
      return if k in files && !files[k].deleted then Some(InfoOf(files, k)) else None;
    }

    // The join of `files` with MAX(version) per path, ordered by path.
    method GetAllFiles() returns (out: seq<FileInfo>)
      ensures forall i, j | 0 <= i < j < |out| :: TextLess(out[i].path, out[j].path)
      ensures forall info :: info in out <==> Latest(files, info.path) == Some(info)
      ensures forall info :: info in out <==> exists k :: IsNewest(files, info.path, k) && Shows(files, k, info)
    {
      out := [];
      var ps := SortText(Paths(files));
      var i := 0;
      while i < |ps|
        invariant 0 <= i <= |ps|
        invariant forall info | info in out :: info.path in ps[..i]
        invariant forall a, b | 0 <= a < b < |out| :: TextLess(out[a].path, out[b].path)
        invariant forall info :: info in out <==> info.path in ps[..i] && Latest(files, info.path) == Some(info)
      {
        var k := FileKey(ps[i], MaxVersion(files, ps[i]));
        NewestOfPath(files, ps[i]);
        assert forall p | p in ps[..i] :: TextLess(p, ps[i]);
        TextLessTotal(ps[i], ps[i]);
        assert ps[..i + 1] == ps[..i] + [ps[i]];
        if !files[k].deleted {
          out := out + [InfoOf(files, k)];
        }
        i := i + 1;
      }
      assert ps[..i] == ps;
      forall info: FileInfo | Latest(files, info.path) == Some(info) ensures info.path in ps {
        assert FileKey(info.path, info.version) in files;
        assert info.path in Paths(files);
      }
      ListingMeans(files, out);
    }

    // ----- Staging -----------------------------------------------------------------------

    method StageFile(p: Path, s: Staged)
      modifies `staging
      ensures staging == old(staging)[p := s]
    {
      staging := staging[p := s];
    }

    method UnstageFile(p: Path)
      modifies `staging
      ensures staging == old(staging) - {p}
    {
      staging := staging - {p};
    }

    // SELECT * ... ORDER BY path.
    method GetStagedFiles() returns (rows: seq<StagedRow>)
      ensures forall i, j | 0 <= i < j < |rows| :: TextLess(rows[i].path, rows[j].path)
      ensures forall row :: row in rows <==> row.path in staging && staging[row.path] == row.info
    {
      var ps := SortText(staging.Keys);
      rows := [];
      var i := 0;
      while i < |ps|
        invariant 0 <= i == |rows| <= |ps|
        invariant forall k | 0 <= k < i :: ps[k] in staging && rows[k] == StagedRow(ps[k], staging[ps[k]])
      {
        assert ps[i] in staging.Keys;
        rows := rows + [StagedRow(ps[i], staging[ps[i]])];
        i := i + 1;
      }
      forall row: StagedRow | row.path in staging && staging[row.path] == row.info ensures row in rows {
        assert row.path in ps;
        var k :| 0 <= k < |ps| && ps[k] == row.path;
        assert rows[k] == row;
      }
    }
  }

  lemma ListingMeans(files: map<FileKey, FileRow>, out: seq<FileInfo>)
    requires forall info :: info in out <==> Latest(files, info.path) == Some(info)
    ensures forall info :: info in out <==> exists k :: IsNewest(files, info.path, k) && Shows(files, k, info)
  {
    forall info ensures info in out <==> exists k :: IsNewest(files, info.path, k) && Shows(files, k, info) {
      LatestMeans(files, info.path);
    }
  }

  // A path of the table has a newest row, which the newest-version query answers from.
  lemma NewestOfPath(files: map<FileKey, FileRow>, p: Path)
    requires p in Paths(files)
    ensures var k := FileKey(p, MaxVersion(files, p));
            k in files && Latest(files, p) == if files[k].deleted then None else Some(InfoOf(files, k))
  {
    var some :| some in files && some.path == p;
    assert some.version in Versions(files, p);
  }

  // A failed entry fails the whole reply.
  lemma {:induction false} ApplyErrPersists(db: Db, es: seq<WalEntry>, i: nat)
    requires i <= |es| && ApplyEntries(db, es[..i]).Err?
    ensures ApplyEntries(db, es).Err?
    decreases |es| - i
  {
    if i == |es| {
      assert es[..i] == es;
    } else {
      assert es[..i + 1][..i] == es[..i];
      ApplyErrPersists(db, es, i + 1);
    }
  }

  function DropVersions(files: map<FileKey, FileRow>, p: Path, vs: seq<nat>): map<FileKey, FileRow> {
    map k | k in files && !(k.path == p && k.version in vs) :: files[k]
  }

  // One DELETE of the loop removes one row, which is still there.
  lemma DropOne(files: map<FileKey, FileRow>, p: Path, vs: seq<nat>, lo: nat, i: nat)
    requires lo <= i < |vs| && vs[i] in Versions(files, p)
    requires forall i, j | 0 <= i < j < |vs| :: vs[j] < vs[i]
    ensures DropVersions(files, p, vs[lo..i + 1]) == DropVersions(files, p, vs[lo..i]) - {FileKey(p, vs[i])}
    ensures |DropVersions(files, p, vs[lo..i + 1])| == |DropVersions(files, p, vs[lo..i])| - 1
  {
    var before, after, k := DropVersions(files, p, vs[lo..i]), DropVersions(files, p, vs[lo..i + 1]), FileKey(p, vs[i]);
    assert vs[lo..i + 1] == vs[lo..i] + [vs[i]];
    assert vs[i] !in vs[lo..i];
    assert before == after[k := files[k]];
  }

  // Dropping all but the first `keep` of a descending listing keeps the newest rows.
  lemma KeptRows(files: map<FileKey, FileRow>, p: Path, vs: seq<nat>, keep: nat)
    requires forall v :: v in vs <==> v in Versions(files, p)
    requires forall i, j | 0 <= i < j < |vs| :: vs[j] < vs[i]
    ensures CleanupPath(files, p, keep) == if |vs| <= keep then files else DropVersions(files, p, vs[keep..])
    ensures DropVersions(files, p, []) == files
  {
    DescendingRanks(files, p, vs);
    forall k | k in files && k.path == p
      ensures |Newer(files, p, k.version)| < keep <==> |vs| <= keep || k.version !in vs[keep..]
    {
      assert k.version in Versions(files, p);
      var i :| 0 <= i < |vs| && vs[i] == k.version;
      if keep <= i { assert vs[keep..][i - keep] == vs[i]; }
    }
  }

  // In a descending listing the row at position i has exactly i newer rows.
  lemma DescendingRanks(files: map<FileKey, FileRow>, p: Path, vs: seq<nat>)
    requires forall v :: v in vs <==> v in Versions(files, p)
    requires forall i, j | 0 <= i < j < |vs| :: vs[j] < vs[i]
    ensures forall i | 0 <= i < |vs| :: |Newer(files, p, vs[i])| == i
  {
    forall i | 0 <= i < |vs| ensures |Newer(files, p, vs[i])| == i {
      forall w | w in Newer(files, p, vs[i]) ensures w in vs[..i] {
        var j :| 0 <= j < |vs| && vs[j] == w;
      }
      DistinctCount(vs[..i], Newer(files, p, vs[i]));
    }
  }

  lemma {:induction false} DistinctCount(vs: seq<nat>, s: set<nat>)
    requires forall v :: v in vs <==> v in s
    requires forall i, j | 0 <= i < j < |vs| :: vs[j] < vs[i]
    ensures |s| == |vs|
  {
    if vs == [] {
      assert s == {};
    } else {
      var last := |vs| - 1;
      assert vs == vs[..last] + [vs[last]] && vs[last] !in vs[..last];
      DistinctCount(vs[..last], s - {vs[last]});
      assert vs[last] in s;
    }
  }
}
