// What the commands of Ownership.dfy come to when nothing is lost: an announced object is
// owned, a retracted one no longer is, and a push ends with its batch in the log and its
// paths unstaged.
module Undisturbed {
  import opened Basics
  import opened Wal
  import opened Store
  import opened LogFacts
  import opened NodeInvariant
  import opened Replication
  import opened Commands
  import opened Ownership
  import opened OwnershipProof
  import opened LateCalls

  // The entry of a request that is carried out decides, there and then, whether the log names
  // its sender an owner.
  lemma ExecuteDecides(w: World, w': World, n: NodeId, i: nat)
    requires Placed(w, n) && Execute(w, w', n, i)
    ensures Placed(w', n) && w'.locals[n].device == w.locals[n].device
    ensures var op, d := w.locals[n].calls[i].batch[|w.locals[n].calls[i].at|], w.locals[n].device.value;
            && (op.FileUpdate? || op.OwnerUpdate? ==> Live(Log(w'.sys), Claim(op.hash, d)))
            && (op.OwnerDelete? ==> !Live(Log(w'.sys), Claim(op.hash, d)))
            && forall h | !op.FileDelete? && op.hash != h ::
                 Live(Log(w'.sys), Claim(h, d)) <==> Live(Log(w.sys), Claim(h, d))
  {
    var stored := ExecuteAppends(w, w', n, i);
    ActorOk(w, n);
    var d, r := w.locals[n].device.value, w.locals[n].calls[i];
    assert CallOk(Log(w.sys), d, r);
    forall h { LiveAfter(Log(w.sys), stored, Claim(h, d)); }
  }

  // A pulled object that is announced is owned once the announcement is carried out.
  lemma AnnounceMakesOwner(w: World, n: NodeId, h: Hash) returns (sent: World, done: World)
    requires Placed(w, n) && w.locals[n].phase == Synced(ToPull) && h in w.locals[n].objects
    requires Claim(h, w.locals[n].device.value) !in w.sys.dbs[n].tables.owners
    ensures BeginAnnounce(w, sent, n, h) && Execute(sent, done, n, |w.locals[n].calls|)
    ensures Placed(done, n) && Live(Log(done.sys), Claim(h, w.locals[n].device.value))
  {
    var l := w.locals[n];
    NodeSize(w.sys, n);
    sent := World(w.sys, w.locals[n := Sent(l, [OwnerUpdate(h, l.device.value)], LogLength(w), Announce)]);
    assert BeginAnnounce(w, sent, n, h);
    SendingKeeps(w, sent, n);
    var stored;
    done, stored := CanExecute(sent, n, |l.calls|);
    ExecuteDecides(sent, done, n, |l.calls|);
  }

  // An open request can be carried out to its end.
  lemma {:induction false} CarriedOut(w: World, n: NodeId, i: nat) returns (tr: seq<World>)
    requires Placed(w, n) && i < |w.locals[n].calls| && !w.locals[n].calls[i].closed
    requires |w.locals[n].calls[i].at| <= |w.locals[n].calls[i].batch|
    ensures ServerRun(tr, w, n) && Placed(tr[|tr| - 1], n)
    ensures var l, l' := w.locals[n], tr[|tr| - 1].locals[n];
            && |l'.calls| == |l.calls| && Granted(l'.calls[i]) && l'.calls[i].batch == l.calls[i].batch
            && l'.phase == l.phase && l'.device == l.device
    ensures tr[|tr| - 1].sys.dbs.Keys == w.sys.dbs.Keys && n in w.sys.dbs
    ensures tr[|tr| - 1].sys.dbs[n].staging == w.sys.dbs[n].staging
    decreases |w.locals[n].calls[i].batch| - |w.locals[n].calls[i].at|
  {
    NodeSize(w.sys, n);
    if Granted(w.locals[n].calls[i]) {
      tr := [w];
    } else {
      var w', stored := CanExecute(w, n, i);
      StagingStays(w, w', n, i);
      var rest := CarriedOut(w', n, i);
      tr := Before(w, w', rest, n);
    }
  }

  lemma StagingStays(w: World, w': World, n: NodeId, i: nat)
    requires Placed(w, n) && Execute(w, w', n, i)
    ensures w'.sys.dbs.Keys == w.sys.dbs.Keys && n in w.sys.dbs
    ensures w'.sys.dbs[n].staging == w.sys.dbs[n].staging
  {
    var op := w.locals[n].calls[i].batch[|w.locals[n].calls[i].at|];
    var d := PushAdvances(w.sys, op);
  }

  // A push that is sent, and whose request is not closed, ends with its whole batch in the
  // log and none of its paths staged.
  lemma PushCompletes(w: World, n: NodeId) returns (tr: seq<World>, end: World)
    requires Placed(w, n) && w.locals[n].phase.Waiting? && w.locals[n].phase.after.Unstage?
    requires var id := w.locals[n].phase.id; id < |w.locals[n].calls| && !w.locals[n].calls[id].closed
    ensures ServerRun(tr, w, n) && UnstagePushed(tr[|tr| - 1], end, n, |w.locals[n].phase.after.paths|)
    ensures Placed(end, n) && end.locals[n].phase.Idle? && n in end.sys.dbs
    ensures forall p | p in w.locals[n].phase.after.paths :: p !in end.sys.dbs[n].staging
    ensures forall op | op in w.locals[n].calls[w.locals[n].phase.id].batch :: Recorded(Log(end.sys), op)
  {
    ActorOk(w, n);
    var id, ps := w.locals[n].phase.id, w.locals[n].phase.after.paths;
    assert CallOk(Log(w.sys), w.locals[n].device.value, w.locals[n].calls[id]);
    tr := CarriedOut(w, n, id);
    var last := tr[|tr| - 1];
    end := Unstaged(last, n, ps);
    assert ps[..|ps|] == ps;
    GrantedIsRecorded(last, n, id);
  }

  // Some entry of the log is this one, but for the version.
  ghost predicate Recorded(log: seq<Op>, op: Op) { exists t | 0 <= t < |log| :: SameButVersion(log[t], op) }

  lemma Unstaged(w: World, n: NodeId, ps: seq<Path>) returns (end: World)
    requires Placed(w, n) && w.locals[n].phase.Waiting? && w.locals[n].phase.after == Unstage(ps)
    requires w.locals[n].phase.id < |w.locals[n].calls| && Granted(w.locals[n].calls[w.locals[n].phase.id])
    ensures UnstagePushed(w, end, n, |ps|) && Placed(end, n) && end.locals[n].phase.Idle? && n in end.sys.dbs
    ensures n in w.sys.dbs && end.sys.dbs[n].staging == w.sys.dbs[n].staging - (set p | p in ps[..|ps|])
    ensures Log(end.sys) == Log(w.sys)
  {
    NodeSize(w.sys, n);
    var staging := w.sys.dbs[n].staging - (set p | p in ps[..|ps|]);
    end := World(Do(w.sys, Restage(n, staging)), w.locals[n := w.locals[n].(phase := Idle)]);
    assert UnstagePushed(w, end, n, |ps|);
    StagingKeeps(w, end, n);
    RestageAdvances(w.sys, n, staging);
  }

  lemma GrantedIsRecorded(w: World, n: NodeId, i: nat)
    requires Placed(w, n) && i < |w.locals[n].calls| && Granted(w.locals[n].calls[i])
    ensures forall op | op in w.locals[n].calls[i].batch :: Recorded(Log(w.sys), op)
  {
    ActorOk(w, n);
    var r := w.locals[n].calls[i];
    assert CallOk(Log(w.sys), w.locals[n].device.value, r);
    forall op | op in r.batch ensures Recorded(Log(w.sys), op) {
      var k :| 0 <= k < |r.batch| && r.batch[k] == op;
      assert SameButVersion(Log(w.sys)[r.at[k]], op);
    }
  }
}
