// What the tables of one node owe to the coordinator's log, and how each local action
// (delivering a segment, forgetting versions, reopening, appending) keeps it.
module NodeInvariant {
  import opened Basics
  import opened Wal
  import opened Store
  import opened LogFacts

  // What a node has been through, as far as its tables remember it.
  datatype History = History(
    gone: set<Path>,  // cleaned up with keep 0, and no newer word on them received since
    whole: bool,      // no cleanup ever removed a row
    pristine: bool,   // nor did a reopen, a cleanup or a stale reply ever change the tables
    ordered: bool)    // no stale reply ever changed the tables

  const UNTOUCHED: History := History({}, true, true, true)

  // A reply that is not stale restores the newest rows of the paths it speaks of.
  function AfterReply(h: History, stale: bool, changed: bool, seen: set<Path>): History {
    if stale then h.(pristine := h.pristine && !changed, ordered := h.ordered && !changed)
    else h.(gone := h.gone - seen)
  }

  function AfterCleanup(h: History, changed: bool, ps: seq<Path>, keep: nat): History {
    h.(gone := h.gone + if keep == 0 then set p | p in ps else {},
       whole := h.whole && !changed, pristine := h.pristine && !changed)
  }

  ghost predicate Written(own: seq<Op>, c: Cell, v: Content) {
    exists i | 0 <= i < |own| :: EffectOn(own[i], c) == Writes(v)
  }

  // Nothing is in the tables that some entry of the applied prefix did not write.
  ghost predicate Claimed(t: Tables, own: seq<Op>) {
    forall c | Read(t, c) != Absent :: Written(own, c, Read(t, c))
  }

  ghost predicate DevicesExact(t: Tables, own: seq<Op>) {
    forall d :: Read(t, DeviceCell(d)) ==
      if Touched(own, DeviceCell(d)) then LastWrite(own, DeviceCell(d)).content else Absent
  }

  ghost predicate RowsExact(t: Tables, own: seq<Op>, reset: set<Path>) {
    forall k | k in t.files && k.path !in reset :: LastWrite(own, FileCell(k)) == Writes(Row(t.files[k]))
  }

  ghost predicate AllRows(t: Tables, own: seq<Op>) {
    forall k | Touched(own, FileCell(k)) :: k in t.files
  }

  ghost predicate TopPresent(t: Tables, own: seq<Op>, gone: set<Path>) {
    forall p | p !in gone && Count(own, p) > 0 :: FileKey(p, Count(own, p)) in t.files
  }

  ghost predicate OwnersKept(t: Tables, own: seq<Op>) {
    forall o | Live(own, o) :: o in t.owners
  }

  // `reset`: the paths the main node has cleaned up with keep 0, whose versions start over.
  ghost predicate NodeInv(db: Db, log: seq<Op>, reset: set<Path>, h: History) {
    Holds(db, log, |db.wal|) && TablesInv(db.tables, log[..|db.wal|], reset, h)
  }

  ghost predicate TablesInv(t: Tables, own: seq<Op>, reset: set<Path>, h: History) {
    && Claimed(t, own)
    && DevicesExact(t, own)
    && RowsExact(t, own, reset)
    && TopPresent(t, own, reset + h.gone)
    && (h.whole ==> AllRows(t, own))
    && (h.pristine ==> t == Fold(own))
    && (h.ordered ==> OwnersKept(t, own))
  }

  ghost predicate LogInv(log: seq<Op>, reset: set<Path>) {
    Registry(log) && forall p | p !in reset :: Dense(log, p)
  }

  // ----- Delivering entries i+1 .. j to a node that holds 1 .. k ------------------------

  lemma ClaimedDeliver(t: Tables, log: seq<Op>, i: nat, k: nat, j: nat)
    requires i <= k <= |log| && i <= j <= |log| && Claimed(t, log[..k])
    ensures Claimed(Replay(t, log[i..j]), log[..Larger(k, j)])
  {
    var own, t' := log[..Larger(k, j)], Replay(t, log[i..j]);
    forall c | Read(t', c) != Absent ensures Written(own, c, Read(t', c)) {
      ReadReplay(t, log[i..j], c);
      if Touched(log[i..j], c) {
        var w := LastWriter(log[i..j], c);
        assert own[i + w] == log[i..j][w];
      } else {
        var w :| 0 <= w < k && EffectOn(log[..k][w], c) == Writes(Read(t, c));
        assert own[w] == log[..k][w];
      }
    }
  }

  lemma DevicesDeliver(t: Tables, log: seq<Op>, i: nat, k: nat, j: nat)
    requires i <= k <= |log| && i <= j <= |log| && Registry(log) && DevicesExact(t, log[..k])
    ensures DevicesExact(Replay(t, log[i..j]), log[..Larger(k, j)])
  {
    forall d ensures Read(Replay(t, log[i..j]), DeviceCell(d)) ==
      if Touched(log[..Larger(k, j)], DeviceCell(d)) then LastWrite(log[..Larger(k, j)], DeviceCell(d)).content
        else Absent
    {
      var c := DeviceCell(d);
      ReadReplay(t, log[i..j], c);
      if Touched(log[i..j], c) {
        var w := LastWriter(log[i..j], c);
        RegistryWriter(log[..Larger(k, j)], i + w);
      } else if k < j {
        UndecidedBy(log, i, k, j, c);
      }
    }
  }

  lemma RowsDeliver(t: Tables, log: seq<Op>, i: nat, k: nat, j: nat, reset: set<Path>)
    requires i <= k <= |log| && i <= j <= |log| && LogInv(log, reset) && RowsExact(t, log[..k], reset)
    ensures RowsExact(Replay(t, log[i..j]), log[..Larger(k, j)], reset)
  {
    var t' := Replay(t, log[i..j]);
    forall r | r in t'.files && r.path !in reset
      ensures LastWrite(log[..Larger(k, j)], FileCell(r)) == Writes(Row(t'.files[r])) {
      var c := FileCell(r);
      ReadReplay(t, log[i..j], c);
      assert Read(t', c) == Row(t'.files[r]);
      if Touched(log[i..j], c) {
        var w := LastWriter(log[i..j], c);
        DensePrefix(log, Larger(k, j), r.path);
        DenseWriter(log[..Larger(k, j)], i + w, r.path);
      } else if k < j {
        UndecidedBy(log, i, k, j, c);
      }
    }
  }

  // File rows may be overwritten by a segment but never vanish.
  lemma RowsStay(t: Tables, ops: seq<Op>, r: FileKey)
    requires r in t.files || Touched(ops, FileCell(r))
    ensures r in Replay(t, ops).files
  {
    ReadReplay(t, ops, FileCell(r));
    if Touched(ops, FileCell(r)) { var w := LastWriter(ops, FileCell(r)); }
  }

  lemma AllRowsDeliver(t: Tables, log: seq<Op>, i: nat, k: nat, j: nat)
    requires i <= k <= |log| && i <= j <= |log| && AllRows(t, log[..k])
    ensures AllRows(Replay(t, log[i..j]), log[..Larger(k, j)])
  {
    var own := log[..Larger(k, j)];
    forall r | Touched(own, FileCell(r)) ensures r in Replay(t, log[i..j]).files {
      var w := LastWriter(own, FileCell(r));
      if w < k {
        WriterTouches(log[..k], w, FileCell(r));
      } else {
        WriterTouches(log[i..j], w - i, FileCell(r));
      }
      RowsStay(t, log[i..j], r);
    }
  }

  // The paths of the file entries among some operations.
  ghost predicate SpokenOf(ops: seq<Op>, p: Path) { exists x | 0 <= x < |ops| :: OnPath(ops[x], p) }

  // The newest row of a path the segment speaks of is back, if the segment is not stale.
  lemma TopDeliver(t: Tables, log: seq<Op>, i: nat, k: nat, j: nat, reset: set<Path>, gone: set<Path>, seen: set<Path>)
    requires i <= k <= |log| && i <= j <= |log| && LogInv(log, reset) && TopPresent(t, log[..k], reset + gone)
    requires k <= j || seen == {}
    requires forall p | p in seen :: SpokenOf(log[i..j], p)
    ensures TopPresent(Replay(t, log[i..j]), log[..Larger(k, j)], reset + (gone - seen))
  {
    var own := log[..Larger(k, j)];
    forall p | p !in reset + (gone - seen) && Count(own, p) > 0
      ensures FileKey(p, Count(own, p)) in Replay(t, log[i..j]).files
    {
      DensePrefix(log, Larger(k, j), p);
      var w := TopWriter(own, p);
      if p in seen {
        var x :| 0 <= x < j - i && OnPath(log[i..j][x], p);
        assert own[i + x] == log[i..j][x];
      }
      if k <= j && i <= w {
        assert log[i..j][w - i] == own[w];
        WriterTouches(log[i..j], w - i, FileCell(FileKey(p, own[w].version)));
      } else {
        CountGrows(own, k, p);
        assert own[..k] == log[..k];
      }
      RowsStay(t, log[i..j], FileKey(p, Count(own, p)));
    }
  }

  lemma OwnersDeliver(t: Tables, log: seq<Op>, i: nat, k: nat, j: nat)
    requires i <= k <= j <= |log| && OwnersKept(t, log[..k])
    ensures OwnersKept(Replay(t, log[i..j]), log[..j])
  {
    forall o | Live(log[..j], o) ensures o in Replay(t, log[i..j]).owners {
      var c := OwnerCell(o);
      ReadReplay(t, log[i..j], c);
      if Touched(log[i..j], c) {
        DecidedBy(log, i, j, c);
      } else {
        UndecidedBy(log, i, k, j, c);
      }
    }
  }

  lemma TablesDeliver(t: Tables, log: seq<Op>, i: nat, k: nat, j: nat, reset: set<Path>, h: History, seen: set<Path>)
    requires i <= k <= |log| && i <= j <= |log| && LogInv(log, reset) && TablesInv(t, log[..k], reset, h)
    requires forall p | p in seen :: SpokenOf(log[i..j], p)
    ensures var t' := Replay(t, log[i..j]);
            TablesInv(t', log[..Larger(k, j)], reset, AfterReply(h, j < k, t' != t, seen))
  {
    ClaimedDeliver(t, log, i, k, j);
    DevicesDeliver(t, log, i, k, j);
    RowsDeliver(t, log, i, k, j, reset);
    TopDeliver(t, log, i, k, j, reset, h.gone, if j < k then {} else seen);
    if h.whole { AllRowsDeliver(t, log, i, k, j); }
    if k <= j {
      if h.pristine { OverlapConverges(log, i, k, j); }
      if h.ordered { OwnersDeliver(t, log, i, k, j); }
    } else {
      assert h.gone - {} == h.gone;
    }
  }

  lemma NodeDelivers(db: Db, log: seq<Op>, i: nat, j: nat, reset: set<Path>, h: History, seen: set<Path>)
    returns (d: Db, after: History)
    requires LogInv(log, reset) && NodeInv(db, log, reset, h) && i <= |db.wal| && i <= j <= |log|
    requires forall p | p in seen :: SpokenOf(log[i..j], p)
    ensures ApplyEntries(db, Numbered(log, i, j)) == Ok(d)
    ensures |d.wal| == Larger(|db.wal|, j) && d.staging == db.staging
    ensures d.tables == Replay(db.tables, log[i..j])
    ensures after == AfterReply(h, j < |db.wal|, d.tables != db.tables, seen)
    ensures NodeInv(d, log, reset, after)
  {
    var k := |db.wal|;
    d := DeliverSegment(db, log, k, i, j);
    assert |LogOf(d.wal)| == |d.wal|;
    after := AfterReply(h, j < k, d.tables != db.tables, seen);
    TablesDeliver(db.tables, log, i, k, j, reset, h, seen);
  }

  // ----- Forgetting versions and reopening ------------------------------------------------

  // The newest row of a path the node has not lost is the last entry of its prefix.
  lemma NewestRow(t: Tables, own: seq<Op>, reset: set<Path>, gone: set<Path>, p: Path)
    requires RowsExact(t, own, reset) && TopPresent(t, own, reset + gone) && p !in reset + gone && Dense(own, p)
    ensures MaxVersion(t.files, p) == Count(own, p)
  {
    if Count(own, p) > 0 {
      assert FileKey(p, Count(own, p)) in t.files;
      assert Count(own, p) in Versions(t.files, p);
    }
    forall v | v in Versions(t.files, p) ensures v <= Count(own, p) {
      var r := FileKey(p, v);
      assert r in t.files;
      var w := LastWriter(own, FileCell(r));
      DenseWriter(own, w, p);
    }
  }

  lemma NodeForgets(db: Db, log: seq<Op>, reset: set<Path>, h: History, ps: seq<Path>, keep: nat)
    requires LogInv(log, reset) && NodeInv(db, log, reset, h)
    ensures var files := CleanupPaths(db.tables.files, ps, keep);
            NodeInv(db.(tables := db.tables.(files := files)), log, reset,
                    AfterCleanup(h, files != db.tables.files, ps, keep))
  {
    var own, t := log[..|db.wal|], db.tables;
    var t' := t.(files := CleanupPaths(t.files, ps, keep));
    CleanupShrinks(t.files, ps, keep);
    forall c | Read(t', c) != Absent ensures Written(own, c, Read(t', c)) {
      assert Read(t, c) == Read(t', c);
    }
    forall d ensures Read(t', DeviceCell(d)) == Read(t, DeviceCell(d)) {}
    var gone' := h.gone + if keep == 0 then set p | p in ps else {};
    forall p | p !in reset + gone' && Count(own, p) > 0 ensures FileKey(p, Count(own, p)) in t'.files {
      if p in ps {
        DensePrefix(log, |db.wal|, p);
        NewestRow(t, own, reset, h.gone, p);
        assert Count(own, p) in Versions(t.files, p);
        CleanupKeepsTop(t.files, ps, keep, p);
      }
    }
    if t'.files == t.files { assert t' == t; }
  }

  lemma NodeReopens(db: Db, log: seq<Op>, reset: set<Path>, h: History)
    requires NodeInv(db, log, reset, h)
    ensures NodeInv(Backfill(db), log, reset, h.(pristine := h.pristine && Backfill(db) == db))
  {
    var own, t, t' := log[..|db.wal|], db.tables, Backfill(db).tables;
    forall c | Read(t', c) != Absent ensures Written(own, c, Read(t', c)) {
      if Read(t, c) == Absent {
        var r :| r in t.files && t.files[r].hash.Some?
                 && c == OwnerCell(Claim(t.files[r].hash.value, t.files[r].owner));
        assert Read(t, FileCell(r)) == Row(t.files[r]);
        var i :| 0 <= i < |own| && EffectOn(own[i], FileCell(r)) == Writes(Row(t.files[r]));
        assert EffectOn(own[i], c) == Writes(Owned);
      }
    }
    forall d ensures Read(t', DeviceCell(d)) == Read(t, DeviceCell(d)) {}
  }

  // ----- Appending on the main node --------------------------------------------------------

  lemma NodeGrows(db: Db, log: seq<Op>, longer: seq<Op>, reset: set<Path>, h: History)
    requires NodeInv(db, log, reset, h) && log <= longer
    ensures NodeInv(db, longer, reset, h)
  {
    assert longer[..|db.wal|] == log[..|db.wal|];
    forall d | d in db.tables.devices ensures DeviceUpdate(d, db.tables.devices[d]) in longer {
      var i :| 0 <= i < |log| && log[i] == DeviceUpdate(d, db.tables.devices[d]);
      assert longer[i] == log[i];
    }
  }

  lemma NodeLoses(db: Db, log: seq<Op>, reset: set<Path>, h: History, reset': set<Path>)
    requires NodeInv(db, log, reset, h) && reset <= reset'
    ensures NodeInv(db, log, reset', h)
  {}

  // The main node holds the whole log; one more entry is a segment delivered to itself.
  lemma NodeStores(db: Db, log: seq<Op>, stored: Op, reset: set<Path>, h: History) returns (d: Db)
    requires NodeInv(db, log, reset, h) && |db.wal| == |log| && LogInv(log + [stored], reset)
    ensures ApplyEntry(db, WalEntry(|log| + 1, stored)) == Ok(d)
    ensures NodeInv(d, log + [stored], reset, h) && |d.wal| == |log| + 1
    ensures d.staging == db.staging && d.tables == ApplyOp(db.tables, stored)
  {
    var n, longer := |log|, log + [stored];
    NodeGrows(db, log, longer, reset, h);
    var after;
    d, after := NodeDelivers(db, longer, n, n + 1, reset, h, {});
    assert h.gone - {} == h.gone;
    assert Numbered(longer, n, n) == [];
    SegmentSnoc(db, longer, n, n + 1);
  }

  lemma PushedVersion(db: Db, log: seq<Op>, op: Op, reset: set<Path>, h: History)
    requires NodeInv(db, log, reset, h) && |db.wal| == |log| && LogInv(log, reset) && h.gone <= reset
             && !op.DeviceUpdate?
    ensures LogInv(log + [Stamp(op, db.tables.files)], reset)
  {
    var stored := Stamp(op, db.tables.files);
    assert log[..|db.wal|] == log;
    forall p | p !in reset ensures Dense(log + [stored], p) {
      NewestRow(db.tables, log, reset, h.gone, p);
      DenseExtends(log, stored, p);
    }
  }

  lemma MainPushes(db: Db, log: seq<Op>, op: Op, reset: set<Path>, h: History) returns (d: Db)
    requires NodeInv(db, log, reset, h) && |db.wal| == |log| && LogInv(log, reset) && h.gone <= reset
             && !op.DeviceUpdate?
    ensures AddEntry(db, op) == Ok(d)
    ensures LogInv(log + [Stamp(op, db.tables.files)], reset)
    ensures NodeInv(d, log + [Stamp(op, db.tables.files)], reset, h)
    ensures |d.wal| == |log| + 1 && d.staging == db.staging
            && d.tables == ApplyOp(db.tables, Stamp(op, db.tables.files))
  {
    LastSeqIsSize(db.wal);
    PushedVersion(db, log, op, reset, h);
    d := NodeStores(db, log, Stamp(op, db.tables.files), reset, h);
  }

  // A registration the log holds is a row of the main node's device table.
  lemma Registered(db: Db, log: seq<Op>, reset: set<Path>, h: History, i: nat)
    requires NodeInv(db, log, reset, h) && |db.wal| == |log| && Registry(log)
    requires i < |log| && log[i].DeviceUpdate?
    ensures log[i].device in db.tables.devices && db.tables.devices[log[i].device] == log[i].address
  {
    assert log[..|db.wal|] == log;
    RegistryWriter(log, i);
    assert Read(db.tables, DeviceCell(log[i].device)) == At(log[i].address);
  }

  // The row inserted before the log entry does not change what the entry does.
  lemma RegisterInserts(db: Db, a: Address, d: Db)
    requires IdsOf(db.tables.devices, a) == {}
    requires ApplyEntry(db, WalEntry(LastSeq(db.wal) + 1, DeviceUpdate(db.deviceSeq + 1, a))) == Ok(d)
    ensures RegisterDevice(db, a) == Ok((d, db.deviceSeq + 1))
  {
    var id := db.deviceSeq + 1;
    var inserted := db.(tables := db.tables.(devices := db.tables.devices[id := a]), deviceSeq := id);
    forall x | x in db.tables.devices ensures db.tables.devices[x] != a {
      assert x !in IdsOf(db.tables.devices, a);
    }
    assert inserted.tables.devices[id := a] == inserted.tables.devices;
    assert ApplyEntry(inserted, WalEntry(LastSeq(db.wal) + 1, DeviceUpdate(id, a))) == Ok(d);
  }

  lemma FreshRegistration(db: Db, log: seq<Op>, a: Address, reset: set<Path>, h: History)
    requires NodeInv(db, log, reset, h) && |db.wal| == |log| && LogInv(log, reset)
    requires IdsOf(db.tables.devices, a) == {}
    ensures LogInv(log + [DeviceUpdate(db.deviceSeq + 1, a)], reset)
  {
    var op := DeviceUpdate(db.deviceSeq + 1, a);
    forall i | 0 <= i < |log| && log[i].DeviceUpdate? ensures log[i].device != op.device && log[i].address != a {
      Registered(db, log, reset, h, i);
      assert log[i].device !in IdsOf(db.tables.devices, a);
    }
    forall p | p !in reset ensures Dense(log + [op], p) { DenseExtends(log, op, p); }
  }

  lemma MainRegisters(db: Db, log: seq<Op>, a: Address, reset: set<Path>, h: History) returns (d: Db, id: DeviceId)
    requires NodeInv(db, log, reset, h) && |db.wal| == |log| && LogInv(log, reset)
    ensures RegisterDevice(db, a) == Ok((d, id))
    ensures id in d.tables.devices && d.tables.devices[id] == a
    ensures d == db || (id !in db.tables.devices && LogInv(log + [DeviceUpdate(id, a)], reset)
                        && NodeInv(d, log + [DeviceUpdate(id, a)], reset, h) && |d.wal| == |log| + 1
                        && d.tables == ApplyOp(db.tables, DeviceUpdate(id, a)))
    ensures d.staging == db.staging
  {
    if IdsOf(db.tables.devices, a) != {} {
      d, id := db, MaxOf(IdsOf(db.tables.devices, a));
    } else {
      id := db.deviceSeq + 1;
      var op := DeviceUpdate(id, a);
      FreshRegistration(db, log, a, reset, h);
      d := NodeStores(db, log, op, reset, h);
      LastSeqIsSize(db.wal);
      RegisterInserts(db, a, d);
    }
  }
}
