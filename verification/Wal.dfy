// The write-ahead log and the three tables it materialises. Every SQL statement of
// applyWalEntryToState is given as its relational meaning on maps and sets.
module Wal {
  import opened Basics

  type Address = string
  type DeviceId = nat

  datatype Op =
    | FileUpdate(path: Path, hash: Hash, version: nat, owner: DeviceId, readOnly: bool)
    | DeviceUpdate(device: DeviceId, address: Address)
    | FileDelete(path: Path, version: nat, owner: DeviceId)
    | OwnerUpdate(hash: Hash, owner: DeviceId)
    | OwnerDelete(hash: Hash, owner: DeviceId)

  datatype FileKey = FileKey(path: Path, version: nat)
  datatype FileRow = FileRow(hash: Option<Hash>, owner: DeviceId, deleted: bool, readOnly: bool)
  datatype Claim = Claim(hash: Hash, device: DeviceId)

  datatype Tables = Tables(
    files: map<FileKey, FileRow>,
    owners: set<Claim>,
    devices: map<DeviceId, Address>)

  const EMPTY: Tables := Tables(map[], {}, map[])

  // applyWalEntryToState, apart from the UNIQUE(address) failure (see Store.Clash).
  function ApplyOp(t: Tables, op: Op): Tables {
    match op
    case FileUpdate(p, h, v, d, ro) =>
      t.(files := t.files[FileKey(p, v) := FileRow(Some(h), d, false, ro)], owners := t.owners + {Claim(h, d)})
    case FileDelete(p, v, d) =>
      t.(files := t.files[FileKey(p, v) := FileRow(None, d, true, false)])
    case OwnerUpdate(h, d) => t.(owners := t.owners + {Claim(h, d)})
    case OwnerDelete(h, d) => t.(owners := t.owners - {Claim(h, d)})
    case DeviceUpdate(d, a) => t.(devices := t.devices[d := a])
  }

  function Replay(t: Tables, ops: seq<Op>): Tables {
    if ops == [] then t else ApplyOp(Replay(t, ops[..|ops| - 1]), ops[|ops| - 1])
  }

  function Fold(log: seq<Op>): Tables { Replay(EMPTY, log) }

  // ----- An independent reading of the log: last writer wins, cell by cell ----

  datatype Cell = FileCell(key: FileKey) | OwnerCell(claim: Claim) | DeviceCell(device: DeviceId)
  datatype Content = Absent | Row(row: FileRow) | Owned | At(address: Address)
  datatype Effect = Untouched | Writes(content: Content)

  function Read(t: Tables, c: Cell): Content {
    match c
    case FileCell(k) => if k in t.files then Row(t.files[k]) else Absent
    case OwnerCell(o) => if o in t.owners then Owned else Absent
    case DeviceCell(d) => if d in t.devices then At(t.devices[d]) else Absent
  }

  function EffectOn(op: Op, c: Cell): Effect {
    match (op, c)
    case (FileUpdate(p, h, v, d, ro), FileCell(k)) =>
      if k == FileKey(p, v) then Writes(Row(FileRow(Some(h), d, false, ro))) else Untouched
    case (FileUpdate(p, h, v, d, ro), OwnerCell(o)) => if o == Claim(h, d) then Writes(Owned) else Untouched
    case (FileDelete(p, v, d), FileCell(k)) =>
      if k == FileKey(p, v) then Writes(Row(FileRow(None, d, true, false))) else Untouched
    case (OwnerUpdate(h, d), OwnerCell(o)) => if o == Claim(h, d) then Writes(Owned) else Untouched
    case (OwnerDelete(h, d), OwnerCell(o)) => if o == Claim(h, d) then Writes(Absent) else Untouched
    case (DeviceUpdate(d, a), DeviceCell(e)) => if e == d then Writes(At(a)) else Untouched
    case _ => Untouched
  }

  function LastWrite(ops: seq<Op>, c: Cell): Effect {
    if ops == [] then Untouched
    else if EffectOn(ops[|ops| - 1], c) != Untouched then EffectOn(ops[|ops| - 1], c)
    else LastWrite(ops[..|ops| - 1], c)
  }

  // The last owner-affecting operation for the claim makes its device an owner.
  predicate Live(log: seq<Op>, o: Claim) { LastWrite(log, OwnerCell(o)) == Writes(Owned) }

  // Some operation wrote the cell.
  ghost predicate Touched(log: seq<Op>, c: Cell) { LastWrite(log, c) != Untouched }

  // ----- Replay computes the last write of every cell --------------------------

  lemma ReadApply(t: Tables, op: Op, c: Cell)
    ensures Read(ApplyOp(t, op), c) == if EffectOn(op, c) == Untouched then Read(t, c) else EffectOn(op, c).content
  {}

  lemma {:induction false} ReadReplay(t: Tables, ops: seq<Op>, c: Cell)
    ensures Read(Replay(t, ops), c) == if LastWrite(ops, c) == Untouched then Read(t, c) else LastWrite(ops, c).content
  {
    if ops != [] {
      ReadReplay(t, ops[..|ops| - 1], c);
      ReadApply(Replay(t, ops[..|ops| - 1]), ops[|ops| - 1], c);
    }
  }

  lemma {:induction false} LastWriteConcat(a: seq<Op>, b: seq<Op>, c: Cell)
    ensures LastWrite(a + b, c) == if LastWrite(b, c) == Untouched then LastWrite(a, c) else LastWrite(b, c)
  {
    if b == [] {
      assert a + b == a;
    } else {
      LastWriteConcat(a, b[..|b| - 1], c);
      assert (a + b)[..|a + b| - 1] == a + b[..|b| - 1];
    }
  }

  // The operation that decides a touched cell.
  lemma {:induction false} LastWriter(ops: seq<Op>, c: Cell) returns (i: nat)
    requires Touched(ops, c)
    ensures i < |ops| && EffectOn(ops[i], c) == LastWrite(ops, c)
  {
    if EffectOn(ops[|ops| - 1], c) != Untouched {
      i := |ops| - 1;
    } else {
      i := LastWriter(ops[..|ops| - 1], c);
    }
  }

  lemma {:induction false} WriterTouches(ops: seq<Op>, i: nat, c: Cell)
    requires i < |ops| && EffectOn(ops[i], c) != Untouched
    ensures Touched(ops, c)
  {
    if i < |ops| - 1 {
      WriterTouches(ops[..|ops| - 1], i, c);
    }
  }

  // Tables with equal cells are equal.
  lemma SameReads(t: Tables, u: Tables)
    requires forall c :: Read(t, c) == Read(u, c)
    ensures t == u
  {
    assert t.files == u.files by {
      forall k ensures k in t.files <==> k in u.files
               ensures k in t.files ==> k in u.files && t.files[k] == u.files[k] {
        assert Read(t, FileCell(k)) == Read(u, FileCell(k));
      }
    }
    assert t.owners == u.owners by {
      forall o ensures o in t.owners <==> o in u.owners { assert Read(t, OwnerCell(o)) == Read(u, OwnerCell(o)); }
    }
    assert t.devices == u.devices by {
      forall d ensures d in t.devices <==> d in u.devices
               ensures d in t.devices ==> d in u.devices && t.devices[d] == u.devices[d] {
        assert Read(t, DeviceCell(d)) == Read(u, DeviceCell(d));
      }
    }
  }

  // ----- Convergence -----------------------------------------------------------

  // A log in three parts, the middle one applied twice.
  lemma OverlapReads(a: seq<Op>, b: seq<Op>, d: seq<Op>, c: Cell)
    ensures Read(Replay(Fold(a + b), b + d), c) == Read(Fold(a + (b + d)), c)
  {
    ReadReplay(EMPTY, a + b, c);
    ReadReplay(EMPTY, a + (b + d), c);
    ReadReplay(Fold(a + b), b + d, c);
    LastWriteConcat(a, b + d, c);
    LastWriteConcat(a, b, c);
    LastWriteConcat(b, d, c);
  }

  // A segment that starts inside the applied prefix and ends at or beyond it brings
  // any replica exactly to the fold of the longer prefix, for every log whatsoever.
  lemma OverlapConverges(w: seq<Op>, i: nat, k: nat, j: nat)
    requires i <= k <= j <= |w|
    ensures Replay(Fold(w[..k]), w[i..j]) == Fold(w[..j])
  {
    var a, b, d := w[..i], w[i..k], w[k..j];
    assert w[..k] == a + b && w[i..j] == b + d && w[..j] == a + (b + d);
    forall c ensures Read(Replay(Fold(a + b), b + d), c) == Read(Fold(a + (b + d)), c) {
      OverlapReads(a, b, d, c);
    }
    SameReads(Replay(Fold(a + b), b + d), Fold(a + (b + d)));
  }

  // Replaying the whole log onto tables whose every occupied cell was written by the
  // log yields exactly the fold: rows lost locally come back, stray owners are settled.
  lemma FullReplayHeals(t: Tables, w: seq<Op>)
    ensures Replay(t, w) == Fold(w) <==> forall c | Read(t, c) != Absent :: Touched(w, c)
  {
    forall c ensures Read(Replay(t, w), c) == Read(Fold(w), c) <==> Read(t, c) != Absent ==> Touched(w, c) {
      ReadReplay(t, w, c);
      ReadReplay(EMPTY, w, c);
    }
    if forall c | Read(t, c) != Absent :: Touched(w, c) {
      SameReads(Replay(t, w), Fold(w));
    }
  }

  lemma StaleReads(a: seq<Op>, b: seq<Op>, d: seq<Op>, c: Cell)
    ensures Read(Replay(Fold(a + (b + d)), b), c) == Read(Fold(a + (b + d)), c) <==>
            (Touched(b, c) ==> LastWrite(d, c) in {Untouched, LastWrite(b, c)})
  {
    ReadReplay(EMPTY, a + (b + d), c);
    ReadReplay(Fold(a + (b + d)), b, c);
    LastWriteConcat(a, b + d, c);
    LastWriteConcat(b, d, c);
  }

  // A stale segment, ending before the applied prefix, leaves the tables alone exactly
  // when each cell it touches is not overwritten with something else later on.
  lemma StaleSegmentHarmless(w: seq<Op>, i: nat, j: nat, k: nat)
    requires i <= j <= k <= |w|
    ensures Replay(Fold(w[..k]), w[i..j]) == Fold(w[..k]) <==>
            forall c | Touched(w[i..j], c) :: LastWrite(w[j..k], c) in {Untouched, LastWrite(w[i..j], c)}
  {
    var a, b, d := w[..i], w[i..j], w[j..k];
    assert w[..k] == a + (b + d);
    var t, u := Replay(Fold(w[..k]), b), Fold(w[..k]);
    forall c ensures Read(t, c) == Read(u, c) <==> (Touched(b, c) ==> LastWrite(d, c) in {Untouched, LastWrite(b, c)}) {
      StaleReads(a, b, d, c);
    }
    if forall c | Touched(b, c) :: LastWrite(d, c) in {Untouched, LastWrite(b, c)} {
      SameReads(t, u);
    }
  }
}
