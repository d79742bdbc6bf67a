// Facts about logs a coordinator produces: dense versions, unique registrations, and
// what delivering a segment of such a log does to a database.
module LogFacts {
  import opened Basics
  import opened Wal
  import opened Store

  // ----- Versions ----------------------------------------------------------------

  predicate OnPath(op: Op, p: Path) { (op.FileUpdate? || op.FileDelete?) && op.path == p }

  function Count(log: seq<Op>, p: Path): nat {
    if log == [] then 0 else Count(log[..|log| - 1], p) + if OnPath(log[|log| - 1], p) then 1 else 0
  }

  // The entries of p carry the versions 1, 2, 3, ... in log order.
  ghost predicate Dense(log: seq<Op>, p: Path) {
    forall i | 0 <= i < |log| && OnPath(log[i], p) :: log[i].version == Count(log[..i + 1], p)
  }

  lemma {:induction false} CountGrows(log: seq<Op>, i: nat, p: Path)
    requires i <= |log|
    ensures Count(log[..i], p) <= Count(log, p)
    ensures (exists j | i <= j < |log| :: OnPath(log[j], p)) <==> Count(log[..i], p) < Count(log, p)
  {
    if i < |log| {
      var init := log[..|log| - 1];
      CountGrows(init, i, p);
      assert init[..i] == log[..i];
    } else {
      assert log[..i] == log;
    }
  }

  lemma DensePrefix(log: seq<Op>, i: nat, p: Path)
    requires i <= |log| && Dense(log, p)
    ensures Dense(log[..i], p)
  {
    forall j | 0 <= j < i && OnPath(log[..i][j], p) ensures log[..i][j].version == Count(log[..i][..j + 1], p) {
      assert log[..i][..j + 1] == log[..j + 1];
    }
  }

  lemma DenseExtends(log: seq<Op>, op: Op, p: Path)
    requires Dense(log, p) && (OnPath(op, p) ==> op.version == Count(log, p) + 1)
    ensures Dense(log + [op], p) && Count(log + [op], p) == Count(log, p) + if OnPath(op, p) then 1 else 0
  {
    var l := log + [op];
    assert l[..|log|] == log;
    forall j | 0 <= j < |l| && OnPath(l[j], p) ensures l[j].version == Count(l[..j + 1], p) {
      if j < |log| {
        assert l[..j + 1] == log[..j + 1];
      } else {
        assert l[..j + 1] == l;
      }
    }
  }

  // In a dense log no two entries of a path share a version, so the entry at i is the
  // only writer of its row.
  lemma {:induction false} DenseWriter(log: seq<Op>, i: nat, p: Path)
    requires Dense(log, p) && i < |log| && OnPath(log[i], p)
    ensures var c := FileCell(FileKey(p, log[i].version)); LastWrite(log, c) == EffectOn(log[i], c)
    ensures forall j | 0 <= j < |log| && OnPath(log[j], p) && log[j].version == log[i].version :: j == i
    ensures 1 <= log[i].version <= Count(log, p)
  {
    var last := |log| - 1;
    DensePrefix(log, last, p);
    assert log[..last + 1] == log;
    if i < last {
      var init := log[..last];
      DenseWriter(init, i, p);
      assert init[i] == log[i];
      forall j | 0 <= j < |log| && OnPath(log[j], p) && log[j].version == log[i].version ensures j == i {
        if j < last { assert init[j] == log[j]; }
      }
    } else {
      forall j | 0 <= j < last && OnPath(log[j], p) ensures log[j].version < log[i].version {
        DenseWriter(log[..last], j, p);
      }
    }
  }

  function LatestInLog(log: seq<Op>, p: Path): Option<FileInfo> {
    if log == [] then None
    else var op := log[|log| - 1];
      if OnPath(op, p) then
        if op.FileUpdate? then Some(FileInfo(p, op.hash, op.version, op.owner, op.readOnly)) else None
      else LatestInLog(log[..|log| - 1], p)
  }

  // The last entry of a path and its view.
  lemma {:induction false} TopWriter(log: seq<Op>, p: Path) returns (i: nat)
    requires Dense(log, p) && Count(log, p) > 0
    ensures i < |log| && OnPath(log[i], p) && log[i].version == Count(log, p)
    ensures forall j | i < j < |log| :: !OnPath(log[j], p)
    ensures LatestInLog(log, p) ==
      if log[i].FileUpdate? then Some(FileInfo(p, log[i].hash, log[i].version, log[i].owner, log[i].readOnly)) else None
  {
    var last := |log| - 1;
    if OnPath(log[last], p) {
      i := last;
      assert log[..last + 1] == log;
    } else {
      DensePrefix(log, last, p);
      i := TopWriter(log[..last], p);
    }
  }

  lemma {:induction false} NoEntryNoView(log: seq<Op>, p: Path)
    requires Count(log, p) == 0
    ensures LatestInLog(log, p) == None
  {
    if log != [] { NoEntryNoView(log[..|log| - 1], p); }
  }

  // ----- Registrations -------------------------------------------------------------

  // No device id and no address is registered twice.
  ghost predicate Registry(log: seq<Op>) {
    forall i, j | 0 <= i < j < |log| && log[i].DeviceUpdate? && log[j].DeviceUpdate? ::
      log[i].device != log[j].device && log[i].address != log[j].address
  }

  lemma {:induction false} RegistryWriter(log: seq<Op>, i: nat)
    requires Registry(log) && i < |log| && log[i].DeviceUpdate?
    ensures LastWrite(log, DeviceCell(log[i].device)) == Writes(At(log[i].address))
  {
    var last := |log| - 1;
    if i < last { RegistryWriter(log[..last], i); }
  }

  // Every device row comes from some registration of the log.
  ghost predicate Listed(devices: map<DeviceId, Address>, log: seq<Op>) {
    forall d | d in devices :: DeviceUpdate(d, devices[d]) in log
  }

  lemma NoClash(devices: map<DeviceId, Address>, log: seq<Op>, i: nat)
    requires Registry(log) && Listed(devices, log) && i < |log|
    ensures !Clash(devices, log[i])
  {
    if log[i].DeviceUpdate? {
      forall d | d in devices && d != log[i].device ensures devices[d] != log[i].address {
        var j :| 0 <= j < |log| && log[j] == DeviceUpdate(d, devices[d]);
        assert i < j || j < i;
      }
    }
  }

  // ----- Delivering a segment --------------------------------------------------------

  function Larger(a: nat, b: nat): nat { if a < b then b else a }

  // The log table holds exactly the first k entries of the log, the device rows are
  // registrations of the log, and the AUTOINCREMENT counter is past every device id.
  ghost predicate Holds(db: Db, log: seq<Op>, k: nat) {
    && k <= |log| && GapFree(db.wal) && LogOf(db.wal) == log[..k]
    && Listed(db.tables.devices, log)
    && forall x | x in db.tables.devices :: x <= db.deviceSeq
  }

  // Entries i+1 .. j of the log, applied to a database that holds a prefix reaching at
  // least to i, never fail, extend the prefix to j if j is beyond it, and replay the
  // segment on the tables.
  lemma {:induction false} DeliverSegment(db: Db, log: seq<Op>, k: nat, i: nat, j: nat) returns (d: Db)
    requires Registry(log) && Holds(db, log, k) && i <= k && i <= j <= |log|
    ensures ApplyEntries(db, Numbered(log, i, j)) == Ok(d)
    ensures Holds(d, log, Larger(k, j))
    ensures d.tables == Replay(db.tables, log[i..j]) && d.staging == db.staging
    decreases j
  {
    if i == j {
      d := db;
    } else {
      var before := DeliverSegment(db, log, k, i, j - 1);
      d := DeliverOne(before, log, Larger(k, j - 1), j);
      SegmentSnoc(db, log, i, j);
    }
  }

  lemma SegmentSnoc(db: Db, log: seq<Op>, i: nat, j: nat)
    requires i < j <= |log|
    ensures ApplyEntries(db, Numbered(log, i, j)) ==
      match ApplyEntries(db, Numbered(log, i, j - 1))
      case Err => Err
      case Ok(d) => ApplyEntry(d, WalEntry(j, log[j - 1]))
    ensures Replay(db.tables, log[i..j]) == ApplyOp(Replay(db.tables, log[i..j - 1]), log[j - 1])
  {
    var es := Numbered(log, i, j);
    assert es[..|es| - 1] == Numbered(log, i, j - 1);
    assert log[i..j][..|log[i..j]| - 1] == log[i..j - 1];
  }

  lemma DeliverOne(db: Db, log: seq<Op>, k: nat, j: nat) returns (d: Db)
    requires Registry(log) && Holds(db, log, k) && 1 <= j <= k + 1 && j <= |log|
    ensures ApplyEntry(db, WalEntry(j, log[j - 1])) == Ok(d)
    ensures Holds(d, log, Larger(k, j))
    ensures d.tables == ApplyOp(db.tables, log[j - 1]) && d.staging == db.staging
  {
    NoClash(db.tables.devices, log, j - 1);
    InsertNext(db.wal, log, k, j);
    d := ApplyEntry(db, WalEntry(j, log[j - 1])).value;
  }

  lemma InsertNext(wal: map<nat, Op>, log: seq<Op>, k: nat, j: nat)
    requires GapFree(wal) && k <= |log| && LogOf(wal) == log[..k] && 1 <= j <= k + 1 && j <= |log|
    ensures var w := InsertOrIgnore(wal, j, log[j - 1]);
            GapFree(w) && LogOf(w) == log[..Larger(k, j)]
  {
    var w := InsertOrIgnore(wal, j, log[j - 1]);
    assert |wal| == |LogOf(wal)| == k;
    if j == k + 1 {
      assert w == wal[k + 1 := log[k]];
      assert |w| == k + 1;
      assert forall x :: x in w <==> 1 <= x <= k + 1;
    }
  }

  // A cell the segment i .. j leaves alone was decided before it.
  lemma UndecidedBy(log: seq<Op>, i: nat, k: nat, j: nat, c: Cell)
    requires i <= k <= j <= |log| && LastWrite(log[i..j], c) == Untouched
    ensures LastWrite(log[..j], c) == LastWrite(log[..k], c)
  {
    assert log[..k] == log[..i] + log[i..k] && log[..j] == log[..i] + log[i..j] && log[i..j] == log[i..k] + log[k..j];
    LastWriteConcat(log[..i], log[i..k], c);
    LastWriteConcat(log[..i], log[i..j], c);
    LastWriteConcat(log[i..k], log[k..j], c);
  }

  // A cell the segment i .. j touches and nothing after j does is decided by the segment.
  lemma DecidedBy(log: seq<Op>, i: nat, j: nat, c: Cell)
    requires i <= j <= |log| && Touched(log[i..j], c)
    ensures LastWrite(log[..j], c) == LastWrite(log[i..j], c)
  {
    assert log[..j] == log[..i] + log[i..j];
    LastWriteConcat(log[..i], log[i..j], c);
  }
}
