// Two runs from the initial state after which a replica holds the coordinator's whole log and
// not its owners: a late reply applied after a newer one, and a database opened again.
module DivergingRuns {
  import opened Basics
  import opened Wal
  import opened Store
  import opened LogFacts
  import opened NodeInvariant
  import opened Replication

  ghost function Last(tr: seq<System>): System
    requires tr != []
  {
    tr[|tr| - 1]
  }

  ghost function Initial(m: NodeId, r: NodeId): System {
    System(m, map[m := FRESH, r := FRESH], {}, map[m := UNTOUCHED, r := UNTOUCHED])
  }

  lemma Begins(m: NodeId, r: NodeId) returns (tr: seq<System>)
    ensures Run(tr) && Inv(Last(tr)) && Last(tr) == Initial(m, r) && Log(Last(tr)) == []
  {
    tr := [Initial(m, r)];
    InitInv(Initial(m, r));
  }

  lemma Goes(tr: seq<System>, step: Step) returns (tr': seq<System>)
    requires Run(tr) && Inv(Last(tr)) && Enabled(Last(tr), step)
    ensures Run(tr') && Last(tr') == Do(Last(tr), step) && Inv(Last(tr'))
  {
    StepAdvances(Last(tr), step);
    RunExtends(tr, Do(Last(tr), step));
    tr' := tr + [Do(Last(tr), step)];
  }

  // What two systems agree on when only the main node's database differs.
  ghost predicate OnlyMain(s: System, s': System) {
    && s'.main == s.main && s'.replies == s.replies && s'.history == s.history && s'.dbs.Keys == s.dbs.Keys
    && forall n | n in s.dbs && n != s.main :: s'.dbs[n] == s.dbs[n]
  }

  lemma Registers(tr: seq<System>, a: Address) returns (tr': seq<System>, id: DeviceId)
    requires Run(tr) && Inv(Last(tr)) && forall i | 0 <= i < |Log(Last(tr))| && Log(Last(tr))[i].DeviceUpdate? ::
               Log(Last(tr))[i].address != a
    ensures Run(tr') && Inv(Last(tr')) && OnlyMain(Last(tr), Last(tr'))
    ensures Log(Last(tr')) == Log(Last(tr)) + [DeviceUpdate(id, a)]
  {
    var d;
    d, id := RegisterAdvances(Last(tr), a);
    tr' := Goes(tr, Register(a));
  }

  lemma Logs(tr: seq<System>, op: Op) returns (tr': seq<System>, stored: Op)
    requires Run(tr) && Inv(Last(tr)) && !op.DeviceUpdate?
    ensures Run(tr') && Inv(Last(tr')) && OnlyMain(Last(tr), Last(tr'))
    ensures Log(Last(tr')) == Log(Last(tr)) + [stored] && SameButVersion(stored, op)
  {
    var d := PushAdvances(Last(tr), op);
    stored := Stamp(op, Last(tr).dbs[Last(tr).main].tables.files);
    tr' := Goes(tr, Push(op));
  }

  lemma Fetches(tr: seq<System>, n: NodeId) returns (tr': seq<System>, r: Reply)
    requires Run(tr) && Inv(Last(tr)) && n in Last(tr).dbs
    ensures Run(tr') && Inv(Last(tr')) && Last(tr') == Last(tr).(replies := Last(tr).replies + {r})
    ensures Log(Last(tr')) == Log(Last(tr)) && r == Reply(n, 0, Numbered(Log(Last(tr)), 0, |Log(Last(tr))|))
  {
    FetchAdvances(Last(tr), n, 0);
    FetchedEntries(Last(tr), n, 0);
    r := Reply(n, 0, EntriesSince(Last(tr).dbs[Last(tr).main].wal, 0));
    tr' := Goes(tr, Fetch(n, 0));
  }

  lemma Receives(tr: seq<System>, r: Reply) returns (tr': seq<System>, d: Db)
    requires Run(tr) && Inv(Last(tr)) && r in Last(tr).replies && r.to in Last(tr).dbs && r.to != Last(tr).main
    requires r.last == 0 && |r.entries| <= |Log(Last(tr))|
    ensures Run(tr') && Inv(Last(tr')) && Log(Last(tr')) == Log(Last(tr)) && Last(tr').main == Last(tr).main
    ensures Last(tr').replies == Last(tr).replies && Last(tr').dbs == Last(tr).dbs[r.to := d]
    ensures Last(tr').history.Keys == Last(tr).history.Keys
    ensures forall n | n in Last(tr).history && n != r.to :: Last(tr').history[n] == Last(tr).history[n]
    ensures d.tables == Replay(Last(tr).dbs[r.to].tables, Log(Last(tr))[..|r.entries|])
    ensures |d.wal| == Larger(|Last(tr).dbs[r.to].wal|, |r.entries|)
  {
    var j;
    d, j := DeliveryApplies(Last(tr), r);
    var same := DeliverAdvances(Last(tr), r);
    tr' := Goes(tr, Deliver(r));
    assert Log(Last(tr))[0..j] == Log(Last(tr))[..j];
  }

  lemma WriteAfter(log: seq<Op>, op: Op, c: Cell)
    ensures LastWrite(log + [op], c) == if EffectOn(op, c) != Untouched then EffectOn(op, c) else LastWrite(log, c)
  {
    assert (log + [op])[..|log|] == log;
  }

  // The replica's log is the main node's, and o is an owner at the replica alone.
  ghost predicate Disagree(s: System, m: NodeId, r: NodeId, o: Claim) {
    && m in s.dbs && r in s.dbs && s.dbs[r].wal == s.dbs[m].wal
    && o in s.dbs[r].tables.owners && o !in s.dbs[m].tables.owners
  }

  lemma WholeLog(s: System, n: NodeId)
    requires Inv(s) && n in s.dbs && |s.dbs[n].wal| == |Log(s)|
    ensures s.dbs[n].wal == s.dbs[s.main].wal
  {
    assert NodeOk(s, n);
    MainIsWhole(s);
    SameLogSameWal(s.dbs[n].wal, s.dbs[s.main].wal);
  }

  // A main node whose tables were never disturbed holds an owner only if its log says so.
  lemma MainForgot(s: System, o: Claim)
    requires Inv(s) && s.history[s.main].pristine && LastWrite(Log(s), OwnerCell(o)) == Writes(Absent)
    ensures o !in s.dbs[s.main].tables.owners
  {
    MainIsWhole(s);
    assert Log(s)[..|Log(s)|] == Log(s);
    ReadReplay(EMPTY, Log(s), OwnerCell(o));
  }

  // A device becomes an owner, the replica asks for news, the device gives the object up.
  lemma OwnsAndDrops(m: NodeId, r: NodeId, h: Hash) returns (tr: seq<System>, o: Claim, early: Reply)
    requires m != r
    ensures Run(tr) && Inv(Last(tr)) && Last(tr).main == m && m in Last(tr).dbs && r in Last(tr).dbs && o.hash == h
    ensures Last(tr).history[m].pristine && Last(tr).dbs[r] == FRESH && early in Last(tr).replies
    ensures |Log(Last(tr))| == 3 && early == Reply(r, 0, Numbered(Log(Last(tr)), 0, 2))
    ensures LastWrite(Log(Last(tr))[..2], OwnerCell(o)) == Writes(Owned)
    ensures LastWrite(Log(Last(tr)), OwnerCell(o)) == Writes(Absent)
  {
    var id, add, drop;
    tr := Begins(m, r);
    tr, id := Registers(tr, m);
    o := Claim(h, id);
    var first := Log(Last(tr));
    tr, add := Logs(tr, OwnerUpdate(h, id));
    WriteAfter(first, add, OwnerCell(o));
    var half := Log(Last(tr));
    tr, early := Fetches(tr, r);
    tr, drop := Logs(tr, OwnerDelete(h, id));
    WriteAfter(half, drop, OwnerCell(o));
    assert Log(Last(tr))[..2] == half;
    assert Numbered(half, 0, 2) == Numbered(Log(Last(tr)), 0, 2);
  }

  // The reply made before the device gave the object up reaches the replica after a later
  // one, and makes the device an owner once more.
  lemma LateReplyDisturbsOwners(m: NodeId, r: NodeId, h: Hash) returns (tr: seq<System>, o: Claim)
    requires m != r
    ensures Run(tr) && o.hash == h && Disagree(Last(tr), m, r, o)
  {
    var early, late, d;
    tr, o, early := OwnsAndDrops(m, r, h);
    tr, late := Fetches(tr, r);
    tr, d := Receives(tr, late);
    var before := d.tables;
    tr, d := Receives(tr, early);
    ReadReplay(before, Log(Last(tr))[..2], OwnerCell(o));
    WholeLog(Last(tr), r);
    MainForgot(Last(tr), o);
  }

  lemma TwoDevices(m: NodeId, r: NodeId) returns (tr: seq<System>, id: DeviceId, other: DeviceId)
    requires m != r
    ensures Run(tr) && Inv(Last(tr)) && OnlyMain(Initial(m, r), Last(tr))
    ensures Log(Last(tr)) == [DeviceUpdate(id, m), DeviceUpdate(other, r)]
  {
    tr := Begins(m, r);
    tr, id := Registers(tr, m);
    tr, other := Registers(tr, r);
  }

  lemma SharesAndMoves(m: NodeId, r: NodeId, p: Path, h: Hash, ro: bool)
    returns (tr: seq<System>, o: Claim, k: FileKey)
    requires m != r
    ensures Run(tr) && Inv(Last(tr)) && OnlyMain(Initial(m, r), Last(tr)) && o.hash == h
    ensures LastWrite(Log(Last(tr)), OwnerCell(o)) == Writes(Absent)
    ensures LastWrite(Log(Last(tr)), FileCell(k)) == Writes(Row(FileRow(Some(h), o.device, false, ro)))
  {
    var id, other, file, add, drop;
    tr, id, other := TwoDevices(m, r);
    o := Claim(h, id);
    var log0 := Log(Last(tr));
    tr, file := Logs(tr, FileUpdate(p, h, 0, id, ro));
    k := FileKey(p, file.version);
    WriteAfter(log0, file, FileCell(k));
    var log1 := Log(Last(tr));
    tr, add := Logs(tr, OwnerUpdate(h, other));
    WriteAfter(log1, add, FileCell(k));
    var log2 := Log(Last(tr));
    tr, drop := Logs(tr, OwnerDelete(h, id));
    WriteAfter(log2, drop, FileCell(k));
    WriteAfter(log2, drop, OwnerCell(o));
  }

  // A file is shared, another device comes to serve it, and the first gives it up. A replica
  // that has received all of this and opens its database again has the first as an owner.
  lemma ReopenDisturbsOwners(m: NodeId, r: NodeId, p: Path, h: Hash, ro: bool) returns (tr: seq<System>, o: Claim)
    requires m != r
    ensures Run(tr) && o.hash == h && Disagree(Last(tr), m, r, o)
  {
    var k, reply, d;
    tr, o, k := SharesAndMoves(m, r, p, h, ro);
    tr, reply := Fetches(tr, r);
    tr, d := Receives(tr, reply);
    var log := Log(Last(tr));
    assert log[..|log|] == log;
    ReadReplay(EMPTY, log, FileCell(k));
    assert k in d.tables.files && d.tables.files[k] == FileRow(Some(h), o.device, false, ro);
    assert o in FileClaims(d.tables.files);
    ReopenAdvances(Last(tr), r);
    tr := Goes(tr, Reopen(r));
    WholeLog(Last(tr), r);
    MainForgot(Last(tr), o);
  }
}
