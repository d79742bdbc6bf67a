// The coordinator carries a PushWAL request out whether or not its client waits for it, and a
// daemon a delete whose cleanup was broken off, so a device can come to own, by the log, what
// it has just deleted or is about to. Two runs of one node, the main one, in which it does.
module LateRun {
  import opened Basics
  import opened Wal
  import opened Store
  import opened LogFacts
  import opened NodeInvariant
  import opened Replication
  import opened Commands
  import opened Ownership
  import opened OwnershipProof

  ghost function Alone(n: NodeId, db: Db, replies: set<Reply>, l: Local): World {
    World(System(n, map[n := db], replies, map[n := UNTOUCHED]), map[n := l])
  }

  ghost function Connected(n: NodeId): Db {
    Db(map[1 := DeviceUpdate(1, n)], Tables(map[], {}, map[1 := n]), 1, map[])
  }

  ghost function NoNews(n: NodeId, db: Db): Reply { Reply(n, LastSeq(db.wal), []) }

  lemma ActsNext(w: World, w': World, n: NodeId)
    requires Acts(w, w', n)
    ensures NextWorld(w, w')
  {}

  lemma Extended(tr: seq<World>, w: World) returns (tr': seq<World>)
    requires WorldRun(tr) && NextWorld(tr[|tr| - 1], w)
    ensures WorldRun(tr') && tr'[|tr'| - 1] == w
  {
    tr' := tr + [w];
    forall i | 0 <= i < |tr'| - 1 ensures WorldStep(tr', i) {
      if i < |tr| - 1 { assert WorldStep(tr, i); }
    }
  }

  // ----- Single steps -----------------------------------------------------------------------

  lemma Connects(n: NodeId)
    ensures NextWorld(Alone(n, FRESH, {}, NEW_NODE), Alone(n, Connected(n), {}, NEW_NODE.(device := Some(1))))
  {
    var w, w' := Alone(n, FRESH, {}, NEW_NODE), Alone(n, Connected(n), {}, NEW_NODE.(device := Some(1)));
    assert IdsOf(FRESH.tables.devices, n) == {} && FRESH.wal.Keys == {};
    assert Inserted(FRESH, n).tables.devices[1 := n] == map[1 := n];
    assert RegisterDevice(FRESH, n) == Ok((Connected(n), 1));
    assert Connect(w, w', n, true);
    ActsNext(w, w', n);
  }

  lemma Stages(n: NodeId, db: Db, replies: set<Reply>, l: Local, p: Path, row: Staged)
    requires l.phase.Idle?
    ensures var l' := l.(objects := l.objects + {row.hash}, prudent := l.prudent && row.hash !in l.deletes);
            NextWorld(Alone(n, db, replies, l), Alone(n, db.(staging := db.staging[p := row]), replies, l'))
  {
    var l' := l.(objects := l.objects + {row.hash}, prudent := l.prudent && row.hash !in l.deletes);
    var w, w' := Alone(n, db, replies, l), Alone(n, db.(staging := db.staging[p := row]), replies, l');
    assert StageOne(w, w', n, p, row, true);
    ActsNext(w, w', n);
  }

  lemma Unstages(n: NodeId, db: Db, replies: set<Reply>, l: Local, p: Path)
    requires l.phase.Idle?
    ensures NextWorld(Alone(n, db, replies, l), Alone(n, db.(staging := db.staging - {p}), replies, l))
  {
    var w, w' := Alone(n, db, replies, l), Alone(n, db.(staging := db.staging - {p}), replies, l);
    assert UnstageSome(w, w', n, {p});
    ActsNext(w, w', n);
  }

  ghost function Starting(l: Local, goal: Goal): Local { l.(prudent := l.prudent && Prudent(true, l, goal)) }

  lemma SyncStarts(n: NodeId, db: Db, replies: set<Reply>, l: Local, goal: Goal)
    requires l.device.Some? && l.phase.Idle? && !goal.ToDelete? && MayClean(db, goal)
    ensures NextWorld(Alone(n, db, replies, l),
                      Alone(n, db, replies + {NoNews(n, db)},
                            Starting(l, goal).(phase := Fetched(NoNews(n, db), goal))))
  {
    var r := NoNews(n, db);
    var w, mid := Alone(n, db, replies, l), Alone(n, db, replies + {r}, Starting(l, goal).(phase := Fetched(r, goal)));
    assert EntriesSince(db.wal, LastSeq(db.wal)) == [];
    assert StartSync(w, mid, n, goal, LastSeq(db.wal));
    ActsNext(w, mid, n);
  }

  lemma SyncEnds(n: NodeId, db: Db, replies: set<Reply>, l: Local, goal: Goal)
    requires l.phase == Fetched(NoNews(n, db), goal) && NoNews(n, db) in replies
    ensures NextWorld(Alone(n, db, replies, l), Alone(n, db, replies, l.(phase := Synced(goal))))
  {
    var w, w' := Alone(n, db, replies, l), Alone(n, db, replies, l.(phase := Synced(goal)));
    assert ApplyEntries(db, []) == Ok(db);
    assert AfterReply(UNTOUCHED, false, false, {}) == UNTOUCHED;
    assert Delivered(w.sys, NoNews(n, db)) == w.sys;
    assert FinishSync(w, w', n);
    ActsNext(w, w', n);
  }

  lemma Syncs(tr: seq<World>, n: NodeId, db: Db, replies: set<Reply>, l: Local, goal: Goal)
    returns (tr': seq<World>, replies': set<Reply>, l': Local)
    requires WorldRun(tr) && tr[|tr| - 1] == Alone(n, db, replies, l)
    requires l.device.Some? && l.phase.Idle? && !goal.ToDelete? && MayClean(db, goal)
    ensures WorldRun(tr') && tr'[|tr'| - 1] == Alone(n, db, replies', l')
    ensures l' == Starting(l, goal).(phase := Synced(goal))
  {
    SyncStarts(n, db, replies, l, goal);
    replies', l' := replies + {NoNews(n, db)}, Starting(l, goal).(phase := Fetched(NoNews(n, db), goal));
    tr' := Extended(tr, Alone(n, db, replies', l'));
    SyncEnds(n, db, replies', l', goal);
    l' := l'.(phase := Synced(goal));
    tr' := Extended(tr', Alone(n, db, replies', l'));
  }

  lemma Pushes(n: NodeId, db: Db, replies: set<Reply>, l: Local, p: Path, h: Hash, ro: bool)
    requires l.phase == Synced(ToPush) && l.device == Some(1) && h in l.objects
    requires db.staging == map[p := Staged(h, p, "add", ro)]
    ensures NextWorld(Alone(n, db, replies, l),
                      Alone(n, db, replies, Sent(l, [FileUpdate(p, h, 0, 1, ro)], |db.wal|, Unstage([p]))))
  {
    var op := FileUpdate(p, h, 0, 1, ro);
    var w, w' := Alone(n, db, replies, l), Alone(n, db, replies, Sent(l, [op], |db.wal|, Unstage([p])));
    assert PushBatch(db, l.objects, 1, [p], [op]);
    assert BeginPush(w, w', n, [p], [op]);
    ActsNext(w, w', n);
  }

  lemma GivesUp(n: NodeId, db: Db, replies: set<Reply>, l: Local)
    ensures NextWorld(Alone(n, db, replies, l), Alone(n, db, replies, l.(phase := Idle)))
  {
    var w, w' := Alone(n, db, replies, l), Alone(n, db, replies, l.(phase := Idle));
    assert Abort(w, w', n);
    ActsNext(w, w', n);
  }

  lemma Executes(n: NodeId, db: Db, d: Db, replies: set<Reply>, l: Local, i: nat, op: Op)
    requires i < |l.calls| && !l.calls[i].closed && l.calls[i].at == [] && l.calls[i].batch == [op]
    requires !op.DeviceUpdate? && AddEntry(db, op) == Ok(d)
    ensures NextWorld(Alone(n, db, replies, l), Alone(n, d, replies, Executed(l, i, |db.wal|)))
  {
    var w, w' := Alone(n, db, replies, l), Alone(n, d, replies, Executed(l, i, |db.wal|));
    assert Do(w.sys, Push(op)).dbs == map[n := d];
    assert Execute(w, w', n, i);
    ActsNext(w, w', n);
  }

  lemma Finishes(n: NodeId, db: Db, replies: set<Reply>, l: Local, id: nat, p: Path)
    requires l.phase == Waiting(id, Unstage([p])) && id < |l.calls| && Granted(l.calls[id])
    ensures NextWorld(Alone(n, db, replies, l), Alone(n, db.(staging := db.staging - {p}), replies, l.(phase := Idle)))
  {
    var w, w' := Alone(n, db, replies, l), Alone(n, db.(staging := db.staging - {p}), replies, l.(phase := Idle));
    assert [p][..1] == [p];
    assert (set q | q in [p]) == {p};
    assert UnstagePushed(w, w', n, 1);
    ActsNext(w, w', n);
  }

  lemma Scans(n: NodeId, db: Db, replies: set<Reply>, l: Local, q: Path, h: Hash)
    requires l.phase == Synced(ToCleanup([q], 1)) && l.device == Some(1)
    requires CleanupPaths(db.tables.files, [q], 1) == db.tables.files && CleanupPlan(db, l.objects, 1, {h}, [])
    ensures NextWorld(Alone(n, db, replies, l), Alone(n, db, replies, l.(phase := Synced(ToDelete({h})))))
  {
    var w, w' := Alone(n, db, replies, l), Alone(n, db, replies, l.(phase := Synced(ToDelete({h}))));
    var sys := Cleaned(w.sys, n, [q], 1);
    assert sys.history[n] == UNTOUCHED && sys.dbs[n] == db;
    assert sys == w.sys;
    assert Scan(w, w', n, {h}, []);
    ActsNext(w, w', n);
  }

  lemma CallsDelete(n: NodeId, db: Db, replies: set<Reply>, l: Local, h: Hash)
    requires l.phase == Synced(ToDelete({h}))
    ensures NextWorld(Alone(n, db, replies, l), Alone(n, db, replies, l.(deletes := l.deletes + {h})))
  {
    var w, w' := Alone(n, db, replies, l), Alone(n, db, replies, l.(deletes := l.deletes + {h}));
    assert CallDelete(w, w', n, h);
    ActsNext(w, w', n);
  }

  lemma Deletes(n: NodeId, db: Db, replies: set<Reply>, l: Local, h: Hash)
    requires h in l.deletes
    ensures NextWorld(Alone(n, db, replies, l),
                      Alone(n, db, replies, l.(objects := l.objects - {h}, deletes := l.deletes - {h})))
  {
    var w := Alone(n, db, replies, l);
    var w' := Alone(n, db, replies, l.(objects := l.objects - {h}, deletes := l.deletes - {h}));
    assert ExecuteDelete(w, w', n, h, false);
    ActsNext(w, w', n);
  }

  // ----- A file q with bytes g is shared first ----------------------------------------------

  // The database when nothing but q is tracked and nothing is staged.
  ghost predicate Tracks(db: Db, q: Path, g: Hash) {
    && GapFree(db.wal) && db.staging == map[] && db.tables.owners == {Claim(g, 1)}
    && exists v: nat :: db.tables.files == map[FileKey(q, v) := FileRow(Some(g), 1, false, false)]
  }

  lemma FirstEntry(n: NodeId, q: Path, g: Hash) returns (d: Db)
    ensures var db := Connected(n).(staging := map[q := Staged(g, q, "add", false)]);
            && AddEntry(db, FileUpdate(q, g, 0, 1, false)) == Ok(d)
            && Tracks(d.(staging := d.staging - {q}), q, g)
  {
    var db := Connected(n).(staging := map[q := Staged(g, q, "add", false)]);
    assert db.wal.Keys == {1} && |db.wal| == |db.wal.Keys|;
    d := FirstFile(db, q, g);
    assert d.staging - {q} == map[];
  }

  lemma FirstFile(db: Db, q: Path, g: Hash) returns (d: Db)
    requires GapFree(db.wal) && db.tables.files == map[] && db.tables.owners == {}
    ensures AddEntry(db, FileUpdate(q, g, 0, 1, false)) == Ok(d) && GapFree(d.wal) && d.staging == db.staging
    ensures d.tables.owners == {Claim(g, 1)}
    ensures exists v: nat :: d.tables.files == map[FileKey(q, v) := FileRow(Some(g), 1, false, false)]
  {
    var op := FileUpdate(q, g, 0, 1, false);
    d := AddEntry(db, op).value;
    var stored := AddEntryAppends(db, op, d);
    assert d.tables.files == map[FileKey(q, stored.version) := FileRow(Some(g), 1, false, false)];
  }

  lemma ToTheStagedFile(n: NodeId, q: Path, g: Hash) returns (tr: seq<World>, l: Local)
    ensures l == NEW_NODE.(device := Some(1), objects := {g})
    ensures var db := Connected(n).(staging := map[q := Staged(g, q, "add", false)]);
            WorldRun(tr) && tr[|tr| - 1] == Alone(n, db, {}, l)
  {
    var row := Staged(g, q, "add", false);
    Connects(n);
    l := NEW_NODE.(device := Some(1));
    tr := [Alone(n, FRESH, {}, NEW_NODE)];
    tr := Extended(tr, Alone(n, Connected(n), {}, l));
    Stages(n, Connected(n), {}, l, q, row);
    assert {} + {g} == {g} && map[][q := row] == map[q := row];
    l := l.(objects := {g});
    tr := Extended(tr, Alone(n, Connected(n).(staging := map[q := row]), {}, l));
  }

  lemma ToTheTrackedFile(n: NodeId, q: Path, g: Hash)
    returns (tr: seq<World>, db: Db, replies: set<Reply>, l: Local)
    ensures l.device == Some(1) && l.phase.Idle? && l.objects == {g} && l.deletes == {} && l.prudent
    ensures |l.calls| == 1 && Granted(l.calls[0])
    ensures Tracks(db, q, g) && WorldRun(tr) && tr[|tr| - 1] == Alone(n, db, replies, l)
  {
    tr, l := ToTheStagedFile(n, q, g);
    db := Connected(n).(staging := map[q := Staged(g, q, "add", false)]);
    tr, replies, l := Syncs(tr, n, db, {}, l, ToPush);
    Pushes(n, db, replies, l, q, g, false);
    var op := FileUpdate(q, g, 0, 1, false);
    l := Sent(l, [op], |db.wal|, Unstage([q]));
    tr := Extended(tr, Alone(n, db, replies, l));
    var d := FirstEntry(n, q, g);
    Executes(n, db, d, replies, l, 0, op);
    l := Executed(l, 0, |db.wal|);
    tr := Extended(tr, Alone(n, d, replies, l));
    Finishes(n, d, replies, l, 0, q);
    db, l := d.(staging := d.staging - {q}), l.(phase := Idle);
    tr := Extended(tr, Alone(n, db, replies, l));
  }

  // A cleanup of q that keeps one version finds h unused and has no owner to retract.
  lemma FindsUnused(db: Db, q: Path, g: Hash, h: Hash)
    requires Tracks(db, q, g) && g != h
    ensures MayClean(db, ToCleanup([q], 1)) && CleanupPaths(db.tables.files, [q], 1) == db.tables.files
    ensures CleanupPlan(db, {g, h}, 1, {h}, [])
  {
    var v: nat :| db.tables.files == map[FileKey(q, v) := FileRow(Some(g), 1, false, false)];
    assert FileKey(q, v) in db.tables.files && q in Paths(db.tables.files);
    assert Versions(db.tables.files, q) == {v} && Newer(db.tables.files, q, v) == {};
    assert CleanupPaths(db.tables.files, [q][..0], 1) == db.tables.files;
    assert Referenced(db.tables.files, db.staging, g) && !Referenced(db.tables.files, db.staging, h);
  }

  // That cleanup, up to its delete call.
  lemma ToTheDeleteCall(tr: seq<World>, n: NodeId, db: Db, replies: set<Reply>, l: Local, q: Path, g: Hash, h: Hash)
    returns (tr': seq<World>, replies': set<Reply>, l': Local)
    requires WorldRun(tr) && tr[|tr| - 1] == Alone(n, db, replies, l) && Tracks(db, q, g) && g != h
    requires l.device == Some(1) && l.phase.Idle? && l.objects == {g, h}
    ensures WorldRun(tr') && tr'[|tr'| - 1] == Alone(n, db, replies', l')
    ensures l'.device == l.device && l'.calls == l.calls && l'.objects == {g, h} && l'.deletes == l.deletes + {h}
  {
    FindsUnused(db, q, g, h);
    tr', replies', l' := Syncs(tr, n, db, replies, l, ToCleanup([q], 1));
    Scans(n, db, replies', l', q, h);
    l' := l'.(phase := Synced(ToDelete({h})));
    tr' := Extended(tr', Alone(n, db, replies', l'));
    CallsDelete(n, db, replies', l', h);
    l' := l'.(deletes := l'.deletes + {h});
    tr' := Extended(tr', Alone(n, db, replies', l'));
  }

  lemma ToTheSentPush(tr: seq<World>, n: NodeId, db: Db, replies: set<Reply>, l: Local, p: Path, h: Hash, ro: bool)
    returns (tr': seq<World>, replies': set<Reply>, l': Local)
    requires WorldRun(tr) && tr[|tr| - 1] == Alone(n, db, replies, l) && db.staging == map[]
    requires l.device == Some(1) && l.phase.Idle?
    ensures WorldRun(tr')
    ensures tr'[|tr'| - 1] == Alone(n, db.(staging := map[p := Staged(h, p, "add", ro)]), replies', l')
    ensures l'.device == l.device && l'.objects == l.objects + {h} && l'.deletes == l.deletes
    ensures l'.calls == l.calls + [Request([FileUpdate(p, h, 0, 1, ro)], |db.wal|, [], false)]
  {
    var row := Staged(h, p, "add", ro);
    Stages(n, db, replies, l, p, row);
    assert map[][p := row] == map[p := row];
    var staged := db.(staging := map[p := row]);
    l' := l.(objects := l.objects + {h}, prudent := l.prudent && h !in l.deletes);
    tr' := Extended(tr, Alone(n, staged, replies, l'));
    tr', replies', l' := Syncs(tr', n, staged, replies, l', ToPush);
    Pushes(n, staged, replies', l', p, h, ro);
    l' := Sent(l', [FileUpdate(p, h, 0, 1, ro)], |staged.wal|, Unstage([p]));
    tr' := Extended(tr', Alone(n, staged, replies', l'));
  }

  // At the end of a run the log names device 1 as an owner of h, and no store has h.
  ghost predicate OwnerWithout(tr: seq<World>, h: Hash) {
    && WorldRun(tr)
    && var w := tr[|tr| - 1];
    && MainHasLog(w.sys) && Live(Log(w.sys), Claim(h, 1))
    && forall m | m in w.locals :: h !in w.locals[m].objects
  }

  lemma EntryOwns(n: NodeId, db: Db, op: Op, d: Db, p: Path, h: Hash, ro: bool)
    requires GapFree(db.wal) && op == FileUpdate(p, h, 0, 1, ro) && AddEntry(db, op) == Ok(d)
    ensures GapFree(d.wal) && Live(LogOf(d.wal), Claim(h, 1))
  {
    var stored := AddEntryAppends(db, op, d);
    LiveAfter(LogOf(db.wal), stored, Claim(h, 1));
  }

  lemma ToTheLostPush(n: NodeId, q: Path, g: Hash, p: Path, h: Hash, ro: bool)
    returns (tr: seq<World>, db: Db, replies: set<Reply>, l: Local)
    ensures WorldRun(tr) && tr[|tr| - 1] == Alone(n, db, replies, l) && Tracks(db, q, g)
    ensures l.device == Some(1) && l.phase.Idle? && l.objects == {g, h} && l.deletes == {}
    ensures |l.calls| == 2 && l.calls[1] == Request([FileUpdate(p, h, 0, 1, ro)], |db.wal|, [], false)
  {
    tr, db, replies, l := ToTheTrackedFile(n, q, g);
    tr, replies, l := ToTheSentPush(tr, n, db, replies, l, p, h, ro);
    var staged := db.(staging := map[p := Staged(h, p, "add", ro)]);
    GivesUp(n, staged, replies, l);
    l := l.(phase := Idle);
    tr := Extended(tr, Alone(n, staged, replies, l));
    Unstages(n, staged, replies, l, p);
    assert staged.staging - {p} == map[];
    tr := Extended(tr, Alone(n, db, replies, l));
  }

  // A push is sent and its client goes away; the file is unstaged, a cleanup deletes its
  // object, and then the push is carried out.
  lemma LateRequestLosesObject(n: NodeId, q: Path, g: Hash, p: Path, h: Hash, ro: bool) returns (tr: seq<World>)
    requires g != h
    ensures OwnerWithout(tr, h)
  {
    var db, replies, l;
    tr, db, replies, l := ToTheLostPush(n, q, g, p, h, ro);
    tr, replies, l := ToTheDeleteCall(tr, n, db, replies, l, q, g, h);
    Deletes(n, db, replies, l, h);
    l := l.(objects := l.objects - {h}, deletes := l.deletes - {h});
    tr := Extended(tr, Alone(n, db, replies, l));
    tr := PushIsCarriedOut(tr, n, db, replies, l, p, h, ro);
  }

  lemma PushIsCarriedOut(tr: seq<World>, n: NodeId, db: Db, replies: set<Reply>, l: Local, p: Path, h: Hash, ro: bool)
    returns (tr': seq<World>)
    requires WorldRun(tr) && tr[|tr| - 1] == Alone(n, db, replies, l) && GapFree(db.wal) && h !in l.objects
    requires |l.calls| == 2 && l.calls[1] == Request([FileUpdate(p, h, 0, 1, ro)], |db.wal|, [], false)
    ensures OwnerWithout(tr', h)
  {
    var op := FileUpdate(p, h, 0, 1, ro);
    var d := AddEntry(db, op).value;
    Executes(n, db, d, replies, l, 1, op);
    tr' := Extended(tr, Alone(n, d, replies, Executed(l, 1, |db.wal|)));
    EntryOwns(n, db, op, d, p, h, ro);
  }

  lemma ToTheLostCleanup(n: NodeId, q: Path, g: Hash, p: Path, h: Hash, ro: bool)
    returns (tr: seq<World>, db: Db, replies: set<Reply>, l: Local)
    requires g != h
    ensures WorldRun(tr) && tr[|tr| - 1] == Alone(n, db, replies, l) && GapFree(db.wal) && db.staging == map[]
    ensures l.device == Some(1) && l.phase.Idle? && l.objects == {g, h} && h in l.deletes && |l.calls| == 1
  {
    tr, db, replies, l := ToTheTrackedFile(n, q, g);
    var row := Staged(h, p, "add", ro);
    Stages(n, db, replies, l, p, row);
    var staged := db.(staging := map[p := row]);
    assert map[][p := row] == map[p := row];
    l := l.(objects := l.objects + {h});
    tr := Extended(tr, Alone(n, staged, replies, l));
    Unstages(n, staged, replies, l, p);
    assert staged.staging - {p} == map[];
    tr := Extended(tr, Alone(n, db, replies, l));
    tr, replies, l := ToTheDeleteCall(tr, n, db, replies, l, q, g, h);
    GivesUp(n, db, replies, l);
    l := l.(phase := Idle);
    tr := Extended(tr, Alone(n, db, replies, l));
  }

  // A cleanup asks for the delete of an object and goes away; the object is staged and shared
  // again, and then the delete is carried out.
  lemma LateDeleteLosesObject(n: NodeId, q: Path, g: Hash, p: Path, h: Hash, ro: bool) returns (tr: seq<World>)
    requires g != h
    ensures OwnerWithout(tr, h)
  {
    var db, replies, l;
    tr, db, replies, l := ToTheLostCleanup(n, q, g, p, h, ro);
    tr, replies, l := ToTheSentPush(tr, n, db, replies, l, p, h, ro);
    var staged, op := db.(staging := map[p := Staged(h, p, "add", ro)]), FileUpdate(p, h, 0, 1, ro);
    var d := AddEntry(staged, op).value;
    Executes(n, staged, d, replies, l, 1, op);
    l := Executed(l, 1, |db.wal|);
    tr := Extended(tr, Alone(n, d, replies, l));
    Deletes(n, d, replies, l, h);
    l := l.(objects := l.objects - {h}, deletes := l.deletes - {h});
    tr := Extended(tr, Alone(n, d, replies, l));
    EntryOwns(n, staged, op, d, p, h, ro);
  }
}
