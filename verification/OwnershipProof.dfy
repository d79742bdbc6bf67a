// Every action keeps the invariant of Ownership.dfy; the theorems follow.
module OwnershipProof {
  import opened Basics
  import opened Wal
  import opened Store
  import opened LogFacts
  import opened NodeInvariant
  import opened Replication
  import opened Commands
  import opened Ownership

  // ----- Framing -------------------------------------------------------------------

  // One node acted, the log is the same.
  lemma SameLogKeeps(log: seq<Op>, main: NodeId, dbs: map<NodeId, Db>, dbs': map<NodeId, Db>,
                     locals: map<NodeId, Local>, replies: set<Reply>, replies': set<Reply>, n: NodeId, l': Local)
    requires LocalsInv(log, main, dbs, locals, replies) && n in locals && n in dbs'
    requires dbs' == dbs[n := dbs'[n]] && replies <= replies'
    requires locals[n].device == None || l'.device == locals[n].device
    requires LocalOk(log, dbs'[n], n, n == main, l', replies')
    ensures LocalsInv(log, main, dbs', locals[n := l'], replies')
  {
    var locals' := locals[n := l'];
    forall t | 0 <= t < |log| && Names(log[t]).Some?
      ensures exists m | m in locals' :: locals'[m].device == Names(log[t])
    {
      var m :| m in locals && locals[m].device == Names(log[t]);
      assert locals'[m].device == Names(log[t]);
    }
    forall m | m in locals' ensures LocalOk(log, dbs'[m], m, m == main, locals'[m], replies') {
      if m != n {
        assert LocalOk(log, dbs[m], m, m == main, locals[m], replies);
        MoreReplies(log, dbs[m], m, m == main, locals[m], replies, replies');
      }
    }
  }

  lemma MoreReplies(log: seq<Op>, db: Db, n: NodeId, isMain: bool, l: Local, replies: set<Reply>, replies': set<Reply>)
    requires LocalOk(log, db, n, isMain, l, replies) && replies <= replies'
    ensures LocalOk(log, db, n, isMain, l, replies')
  {}

  lemma OneDevicePerNode(log: seq<Op>, d: DeviceId, e: DeviceId, n: NodeId, m: NodeId)
    requires Registry(log) && DeviceUpdate(d, n) in log && DeviceUpdate(e, m) in log
    ensures d == e <==> n == m
  {
    var i :| 0 <= i < |log| && log[i] == DeviceUpdate(d, n);
    var j :| 0 <= j < |log| && log[j] == DeviceUpdate(e, m);
    assert i < j || j < i || i == j;
  }

  // The main node takes an entry in; nobody else changes.
  ghost predicate Takes(log: seq<Op>, op: Op, isMain: bool, db: Db, db': Db) {
    && db'.staging == db.staging
    && (db' == db || (isMain && |db.wal| == |log| && |db'.wal| == |log| + 1 && db'.tables == ApplyOp(db.tables, op)))
  }

  ghost predicate Took(log: seq<Op>, op: Op, main: NodeId, dbs: map<NodeId, Db>, dbs': map<NodeId, Db>) {
    dbs'.Keys == dbs.Keys && forall m | m in dbs :: Takes(log, op, m == main, dbs[m], dbs'[m])
  }

  lemma TookEntry(s: System, s': System, d: Db, op: Op)
    requires Inv(s) && Inv(s') && MainTook(s, s', d, op)
    ensures Took(Log(s), op, s.main, s.dbs, s'.dbs) && s'.replies == s.replies && s'.history == s.history
    ensures s'.main == s.main && Log(s') == Log(s) + [op]
  {}

  lemma GrownLogKeeps(log: seq<Op>, op: Op, main: NodeId, dbs: map<NodeId, Db>, dbs': map<NodeId, Db>,
                      locals: map<NodeId, Local>, replies: set<Reply>, n: NodeId, l': Local)
    requires LocalsInv(log, main, dbs, locals, replies) && n in locals && Registry(log)
             && Took(log, op, main, dbs, dbs')
    requires locals[n].device == None || l'.device == locals[n].device
    requires Names(op) == None || Names(op) == l'.device == locals[n].device
    requires LocalOk(log + [op], dbs'[n], n, n == main, l', replies)
    ensures LocalsInv(log + [op], main, dbs', locals[n := l'], replies)
  {
    var log', locals' := log + [op], locals[n := l'];
    forall t | 0 <= t < |log'| && Names(log'[t]).Some?
      ensures exists m | m in locals' :: locals'[m].device == Names(log'[t])
    {
      if t < |log| {
        assert log'[t] == log[t];
        var m :| m in locals && locals[m].device == Names(log[t]);
        assert locals'[m].device == Names(log'[t]);
      } else {
        assert locals'[n].device == Names(log'[t]);
      }
    }
    forall m | m in locals' ensures LocalOk(log', dbs'[m], m, m == main, locals'[m], replies) {
      if m != n {
        OthersDevice(log, op, main, dbs, locals, replies, n, m);
        assert Takes(log, op, m == main, dbs[m], dbs'[m]);
        OthersEntry(log, op, dbs[m], dbs'[m], m, m == main, locals[m], replies);
      }
    }
  }

  lemma OthersDevice(log: seq<Op>, op: Op, main: NodeId, dbs: map<NodeId, Db>, locals: map<NodeId, Local>,
                     replies: set<Reply>, n: NodeId, m: NodeId)
    requires LocalsInv(log, main, dbs, locals, replies) && n in locals && m in locals && m != n && Registry(log)
    requires Names(op) == None || Names(op) == locals[n].device
    ensures LocalOk(log, dbs[m], m, m == main, locals[m], replies)
    ensures Names(op) == None || Names(op) != locals[m].device
  {
    assert LocalOk(log, dbs[m], m, m == main, locals[m], replies)
           && LocalOk(log, dbs[n], n, n == main, locals[n], replies);
    if Names(op).Some? && locals[m].device.Some? {
      OneDevicePerNode(log, locals[n].device.value, locals[m].device.value, n, m);
    }
  }

  // ----- A longer log ----------------------------------------------------------------

  lemma LiveAfter(log: seq<Op>, op: Op, o: Claim)
    ensures Live(log + [op], o) <==>
              if EffectOn(op, OwnerCell(o)) == Untouched then Live(log, o)
                else EffectOn(op, OwnerCell(o)) == Writes(Owned)
    ensures Names(op) != Some(o.device) ==> EffectOn(op, OwnerCell(o)) == Untouched
  {
    assert (log + [op])[..|log + [op]| - 1] == log;
  }

  lemma {:induction false} QuietKeepsLive(log: seq<Op>, i: nat, k: nat, o: Claim)
    requires i <= k <= |log| && Quiet(log, i, o.device)
    ensures LastWrite(log[..k], OwnerCell(o)) == LastWrite(log[..i], OwnerCell(o))
    decreases k
  {
    if i < k {
      QuietKeepsLive(log, i, k - 1, o);
      assert log[..k][..k - 1] == log[..k - 1];
    }
  }

  lemma CallsAfter(log: seq<Op>, op: Op, d: DeviceId, calls: seq<Request>)
    requires CallsOk(log, d, calls)
    ensures CallsOk(log + [op], d, calls)
  {
    forall i | 0 <= i < |calls| ensures CallOk(log + [op], d, calls[i]) { assert CallOk(log, d, calls[i]); }
  }

  lemma OwnKeptAfter(log: seq<Op>, op: Op, isMain: bool, db: Db, db': Db, d: DeviceId)
    requires OwnKept(log, db, d) && Takes(log, op, isMain, db, db')
    ensures OwnKept(log + [op], db', d)
  {
    if db' == db {
      assert (log + [op])[..|db.wal|] == log[..|db.wal|];
    } else {
      assert (log + [op])[..|db'.wal|] == log + [op] && log[..|db.wal|] == log;
      forall h | Live(log + [op], Claim(h, d)) ensures Claim(h, d) in db'.tables.owners {
        LiveAfter(log, op, Claim(h, d));
        ReadApply(db.tables, op, OwnerCell(Claim(h, d)));
        assert Read(db'.tables, OwnerCell(Claim(h, d))) == Owned;
      }
    }
  }

  lemma SafeAfter(log: seq<Op>, op: Op, db: Db, db': Db, isMain: bool, d: DeviceId, l: Local)
    requires SafeOk(log, db, isMain, d, l) && Names(op) != Some(d) && Takes(log, op, isMain, db, db')
    ensures SafeOk(log + [op], db', isMain, d, l)
  {
    forall h ensures Live(log + [op], Claim(h, d)) == Live(log, Claim(h, d)) { LiveAfter(log, op, Claim(h, d)); }
    forall i | 0 <= i <= |log| && Quiet(log, i, d) ensures Quiet(log + [op], i, d) {}
    OwnKeptAfter(log, op, isMain, db, db', d);
  }

  // An entry about somebody else leaves a node's standing alone, even on the main node,
  // whose own tables take the entry in.
  lemma OthersEntry(log: seq<Op>, op: Op, db: Db, db': Db, n: NodeId, isMain: bool, l: Local, replies: set<Reply>)
    requires LocalOk(log, db, n, isMain, l, replies) && (Names(op) == None || Names(op) != l.device)
    requires Takes(log, op, isMain, db, db')
    ensures LocalOk(log + [op], db', n, isMain, l, replies)
  {
    if l.device.Some? {
      var d := l.device.value;
      var i :| 0 <= i < |log| && log[i] == DeviceUpdate(d, n);
      assert (log + [op])[i] == log[i];
      CallsAfter(log, op, d, l.calls);
      if l.prudent { SafeAfter(log, op, db, db', isMain, d, l); }
    }
  }

  // ----- What each action does to the acting node ------------------------------------------

  // No entry speaks about a device no node holds yet.
  lemma UnknownDevice(log: seq<Op>, log': seq<Op>, main: NodeId, dbs: map<NodeId, Db>, locals: map<NodeId, Local>,
                      replies: set<Reply>, n: NodeId, id: DeviceId, k: nat)
    requires LocalsInv(log, main, dbs, locals, replies) && n in locals && locals[n].device == None
    requires Registry(log') && DeviceUpdate(id, n) in log' && k <= |log'|
    requires log' == log || log' == log + [DeviceUpdate(id, n)]
    ensures forall h :: !Live(log'[..k], Claim(h, id))
  {
    forall h ensures !Live(log'[..k], Claim(h, id)) {
      if Touched(log'[..k], OwnerCell(Claim(h, id))) {
        var t := LastWriter(log'[..k], OwnerCell(Claim(h, id)));
        assert Names(log'[t]) == Some(id) && log[t] == log'[t];
        var m :| m in locals && locals[m].device == Some(id);
        assert LocalOk(log, dbs[m], m, m == main, locals[m], replies);
        OneDevicePerNode(log', id, id, n, m);
      }
    }
  }

  lemma ConnectedOk(log: seq<Op>, log': seq<Op>, main: NodeId, dbs: map<NodeId, Db>, locals: map<NodeId, Local>,
                    replies: set<Reply>, n: NodeId, db': Db, id: DeviceId)
    requires LocalsInv(log, main, dbs, locals, replies) && n in locals && locals[n].phase.Idle?
    requires Registry(log') && DeviceUpdate(id, n) in log' && |db'.wal| <= |log'|
    requires log' == log || log' == log + [DeviceUpdate(id, n)]
    requires LocalOk(log, dbs[n], n, n == main, locals[n], replies)
    requires locals[n].device.Some? ==> LocalOk(log', db', n, n == main, locals[n], replies)
    ensures LocalOk(log', db', n, n == main, locals[n].(device := Some(id)), replies)
    ensures locals[n].device == None || locals[n].device == Some(id)
  {
    if locals[n].device == None {
      UnknownDevice(log, log', main, dbs, locals, replies, n, id, |log'|);
      assert log'[..|log'|] == log';
      UnknownDevice(log, log', main, dbs, locals, replies, n, id, |db'.wal|);
    } else {
      OneDevicePerNode(log', locals[n].device.value, id, n, n);
    }
  }

  lemma FetchedOk(log: seq<Op>, db: Db, n: NodeId, isMain: bool, l: Local, r: Reply, replies: set<Reply>, goal: Goal)
    requires LocalOk(log, db, n, isMain, l, replies) && l.device.Some? && MaySync(l, goal) && |db.wal| <= |log|
    requires r.to == n && r.last <= |db.wal| && r.last + |r.entries| == |log|
    ensures LocalOk(log, db, n, isMain, l.(phase := Fetched(r, goal), prudent := l.prudent && Prudent(isMain, l, goal)),
                    replies + {r})
  {
    if l.phase.Waiting? { assert l.calls[l.phase.id].batch[|l.calls[l.phase.id].at|..] == []; }
  }

  // A delivered reply leaves the node's own standing owners in its table, wherever it
  // begins, if it ends at or beyond what the node holds, or nothing about the node was
  // logged after it was made.
  lemma DeliverKeepsOwn(log: seq<Op>, db: Db, db': Db, i: nat, j: nat, d: DeviceId)
    requires i <= |db.wal| <= |log| && i <= j <= |log| && |db'.wal| == Larger(|db.wal|, j)
    requires db'.tables == Replay(db.tables, log[i..j])
    requires OwnKept(log, db, d) && (|db.wal| <= j || Quiet(log, j, d))
    ensures OwnKept(log, db', d)
  {
    var k := |db.wal|;
    forall h | Live(log[..Larger(k, j)], Claim(h, d)) ensures Claim(h, d) in db'.tables.owners {
      var c := OwnerCell(Claim(h, d));
      ReadReplay(db.tables, log[i..j], c);
      if j < k { QuietKeepsLive(log, j, k, Claim(h, d)); }
      if Touched(log[i..j], c) {
        DecidedBy(log, i, j, c);
      } else if k < j {
        UndecidedBy(log, i, k, j, c);
      }
      assert Read(db'.tables, c) == Owned;
    }
  }

  lemma SyncedOk(log: seq<Op>, db: Db, db': Db, n: NodeId, isMain: bool, l: Local, replies: set<Reply>, j: nat)
    requires LocalOk(log, db, n, isMain, l, replies) && l.phase.Fetched? && |db.wal| <= |log|
    requires j == l.phase.reply.last + |l.phase.reply.entries| <= |log|
    requires |db'.wal| == Larger(|db.wal|, j) && db'.staging == db.staging
    requires db'.tables == Replay(db.tables, log[l.phase.reply.last..j])
    ensures LocalOk(log, db', n, isMain, l.(phase := Synced(l.phase.goal)), replies)
  {
    if l.prudent { DeliverKeepsOwn(log, db, db', l.phase.reply.last, j, l.device.value); }
  }

  // Owners gained, or staging changed between commands, disturb nothing.
  lemma ReopenedOk(log: seq<Op>, db: Db, n: NodeId, isMain: bool, l: Local, replies: set<Reply>)
    requires LocalOk(log, db, n, isMain, l, replies)
    ensures LocalOk(log, Backfill(db), n, isMain, l, replies)
  {}

  lemma RestagedOk(log: seq<Op>, db: Db, n: NodeId, isMain: bool, l: Local, replies: set<Reply>,
                   staging: map<Path, Staged>, more: set<Hash>, prudent: bool)
    requires LocalOk(log, db, n, isMain, l, replies) && (prudent ==> l.prudent)
    requires prudent ==> forall p | p in staging ::
               staging[p].hash !in l.deletes || (p in db.staging && staging[p] == db.staging[p])
    ensures LocalOk(log, db.(staging := staging), n, isMain,
                    l.(phase := Idle, objects := l.objects + more, prudent := prudent), replies)
  {}

  lemma SentPromises(calls: seq<Request>, r: Request, h: Hash)
    ensures Promised(calls + [r], h) <==> Promised(calls, h) || Promises(r, h)
  {
    var more := calls + [r];
    if i :| 0 <= i < |more| && Promises(more[i], h) {
      assert i < |calls| ==> Promises(calls[i], h);
    }
    if i :| 0 <= i < |calls| && Promises(calls[i], h) { assert Promises(more[i], h); }
    if Promises(r, h) { assert Promises(more[|calls|], h); }
  }

  lemma SentCalls(log: seq<Op>, d: DeviceId, calls: seq<Request>, batch: seq<Op>)
    requires CallsOk(log, d, calls) && forall k | 0 <= k < |batch| :: Names(batch[k]) == Some(d)
    ensures CallsOk(log, d, calls + [Request(batch, |log|, [], false)])
  {
    var more := calls + [Request(batch, |log|, [], false)];
    forall i | 0 <= i < |more| ensures CallOk(log, d, more[i]) {
      if i < |calls| { assert CallOk(log, d, calls[i]); }
    }
  }

  lemma BegunOk(log: seq<Op>, db: Db, n: NodeId, isMain: bool, l: Local, replies: set<Reply>, ps: seq<Path>,
                batch: seq<Op>)
    requires LocalOk(log, db, n, isMain, l, replies) && l.device.Some? && l.phase == Synced(ToPush)
    requires PushBatch(db, l.objects, l.device.value, ps, batch)
    ensures LocalOk(log, db, n, isMain, Sent(l, batch, |log|, Unstage(ps)), replies)
  {
    SentCalls(log, l.device.value, l.calls, batch);
    if l.prudent {
      var r := Request(batch, |log|, [], false);
      forall h { SentPromises(l.calls, r, h); }
      forall h | Promises(r, h) ensures h in l.objects {
        var k :| 0 <= k < |batch| && Adds(batch[k], h);
        assert ps[k] in ps;
      }
    }
  }

  lemma AnnouncedOk(log: seq<Op>, db: Db, n: NodeId, isMain: bool, l: Local, replies: set<Reply>, h: Hash)
    requires LocalOk(log, db, n, isMain, l, replies) && l.device.Some? && l.phase == Synced(ToPull) && h in l.objects
    ensures LocalOk(log, db, n, isMain, Sent(l, [OwnerUpdate(h, l.device.value)], |log|, Announce), replies)
  {
    SentCalls(log, l.device.value, l.calls, [OwnerUpdate(h, l.device.value)]);
    forall g { SentPromises(l.calls, Request([OwnerUpdate(h, l.device.value)], |log|, [], false), g); }
  }

  lemma ScannedOk(log: seq<Op>, db: Db, db': Db, n: NodeId, isMain: bool, l: Local, replies: set<Reply>,
                  unused: set<Hash>, batch: seq<Op>)
    requires LocalOk(log, db, n, isMain, l, replies) && l.device.Some? && l.phase.Synced? && l.phase.goal.ToCleanup?
    requires db'.wal == db.wal && db'.staging == db.staging && db'.tables.owners == db.tables.owners
    requires CleanupPlan(db', l.objects, l.device.value, unused, batch)
    ensures LocalOk(log, db', n, isMain, if batch == [] then l.(phase := Synced(ToDelete(unused)))
                                         else Sent(l, batch, |log|, Retract(unused)), replies)
  {
    var d := l.device.value;
    assert forall k | 0 <= k < |batch| :: batch[k] in batch;
    SentCalls(log, d, l.calls, batch);
    if l.prudent {
      forall h | h in unused ensures OwnerDelete(h, d) in batch || !Live(log, Claim(h, d)) {
        if Claim(h, d) !in db.tables.owners {
          QuietKeepsLive(log, |db.wal|, |log|, Claim(h, d));
          assert log[..|log|] == log;
        }
      }
      assert batch[0..] == batch;
      forall h { SentPromises(l.calls, Request(batch, |log|, [], false), h); }
    }
  }

  // ----- A request is carried out one entry further --------------------------------------

  function Executed(l: Local, i: nat, at: nat): Local
    requires i < |l.calls|
  {
    l.(calls := l.calls[i := l.calls[i].(at := l.calls[i].at + [at])])
  }

  lemma ExecutedCalls(log: seq<Op>, stored: Op, d: DeviceId, l: Local, i: nat)
    requires CallsOk(log, d, l.calls) && i < |l.calls| && Open(l.calls[i])
    requires SameButVersion(stored, l.calls[i].batch[|l.calls[i].at|])
    ensures CallsOk(log + [stored], d, Executed(l, i, |log|).calls)
  {
    CallsAfter(log, stored, d, l.calls);
    var calls := Executed(l, i, |log|).calls;
    forall k | 0 <= k < |calls| ensures CallOk(log + [stored], d, calls[k]) {
      assert CallOk(log, d, l.calls[i]) && CallOk(log + [stored], d, l.calls[k]);
    }
  }

  // It promises no more than before.
  lemma ExecutedPromises(l: Local, i: nat, at: nat, h: Hash)
    requires i < |l.calls| && Promised(Executed(l, i, at).calls, h)
    ensures Promised(l.calls, h)
  {
    var calls := Executed(l, i, at).calls;
    var k :| 0 <= k < |calls| && Promises(calls[k], h);
    assert Promises(l.calls[k], h);
  }

  lemma ExecutedPhase(log: seq<Op>, stored: Op, db: Db, db': Db, isMain: bool, d: DeviceId, l: Local, i: nat)
    requires PhaseSafe(log, db, isMain, d, l) && i < |l.calls| && Open(l.calls[i])
             && Takes(log, stored, isMain, db, db')
    requires SameButVersion(stored, l.calls[i].batch[|l.calls[i].at|])
    ensures PhaseSafe(log + [stored], db', isMain, d, Executed(l, i, |log|))
  {
    if l.phase.Waiting? && l.phase.after.Retract? {
      assert i == l.phase.id;
      var r := l.calls[i];
      assert r.batch[|r.at|..] == [r.batch[|r.at|]] + r.batch[|r.at| + 1..];
      forall h | h in l.phase.after.unused && Live(log + [stored], Claim(h, d))
        ensures OwnerDelete(h, d) in r.batch[|r.at| + 1..] { LiveAfter(log, stored, Claim(h, d)); }
    }
  }

  lemma ExecutedOk(log: seq<Op>, stored: Op, db: Db, db': Db, n: NodeId, isMain: bool, l: Local, replies: set<Reply>,
                   i: nat)
    requires LocalOk(log, db, n, isMain, l, replies) && l.device.Some? && i < |l.calls| && Open(l.calls[i])
    requires SameButVersion(stored, l.calls[i].batch[|l.calls[i].at|]) && Takes(log, stored, isMain, db, db')
    ensures LocalOk(log + [stored], db', n, isMain, Executed(l, i, |log|), replies)
    ensures Names(stored) == l.device
  {
    var d, r := l.device.value, l.calls[i];
    assert CallOk(log, d, r);
    ExecutedCalls(log, stored, d, l, i);
    var t :| 0 <= t < |log| && log[t] == DeviceUpdate(d, n);
    assert (log + [stored])[t] == log[t];
    if l.prudent {
      OwnKeptAfter(log, stored, isMain, db, db', d);
      ExecutedPhase(log, stored, db, db', isMain, d, l, i);
      forall h | Promised(Executed(l, i, |log|).calls, h)
        ensures Promised(l.calls, h) { ExecutedPromises(l, i, |log|, h); }
      forall h | Live(log + [stored], Claim(h, d)) ensures Live(log, Claim(h, d)) || Promised(l.calls, h) {
        LiveAfter(log, stored, Claim(h, d));
        if !Live(log, Claim(h, d)) { assert Adds(r.batch[|r.at|], h) && Promises(r, h); }
      }
    }
  }

  lemma ClosedOk(log: seq<Op>, db: Db, n: NodeId, isMain: bool, l: Local, replies: set<Reply>, i: nat)
    requires LocalOk(log, db, n, isMain, l, replies) && i < |l.calls|
    ensures LocalOk(log, db, n, isMain, l.(calls := l.calls[i := l.calls[i].(closed := true)]), replies)
  {
    var d, calls := l.device.value, l.calls[i := l.calls[i].(closed := true)];
    forall k | 0 <= k < |calls| ensures CallOk(log, d, calls[k]) { assert CallOk(log, d, l.calls[k]); }
    if l.prudent {
      forall h | Promised(calls, h) ensures Promised(l.calls, h) {
        var k :| 0 <= k < |calls| && Promises(calls[k], h);
        assert Promises(l.calls[k], h);
      }
    }
  }

  // ----- Every action keeps the invariant ----------------------------------------------

  lemma ActorOk(w: World, n: NodeId)
    requires WorldInv(w) && n in w.locals
    ensures LocalOk(Log(w.sys), w.sys.dbs[n], n, n == w.sys.main, w.locals[n], w.sys.replies)
    ensures LogLength(w) == |Log(w.sys)| && |w.sys.dbs[n].wal| <= |Log(w.sys)|
  {
    NodeSize(w.sys, n);
  }

  lemma ConnectKnown(w: World, w': World, n: NodeId, answered: bool, id: DeviceId)
    requires WorldInv(w) && Connect(w, w', n, answered) && w'.sys == w.sys
    requires DeviceUpdate(id, n) in Log(w.sys)
    requires w'.locals == w.locals || w'.locals == w.locals[n := w.locals[n].(device := Some(id))]
    ensures WorldInv(w')
  {
    ActorOk(w, n);
    ConnectedOk(Log(w.sys), Log(w.sys), w.sys.main, w.sys.dbs, w.locals, w.sys.replies, n, w.sys.dbs[n], id);
    if w'.locals != w.locals {
      SameLogKeeps(Log(w.sys), w.sys.main, w.sys.dbs, w.sys.dbs, w.locals, w.sys.replies, w.sys.replies, n,
                   w.locals[n].(device := Some(id)));
    }
  }

  lemma ConnectNew(w: World, w': World, n: NodeId, answered: bool, d: Db, id: DeviceId)
    requires WorldInv(w) && Connect(w, w', n, answered) && Inv(w'.sys)
    requires MainTook(w.sys, w'.sys, d, DeviceUpdate(id, n)) && |w'.sys.dbs[n].wal| <= |Log(w'.sys)|
    requires w'.locals == w.locals[n := w.locals[n]] || w'.locals == w.locals[n := w.locals[n].(device := Some(id))]
    ensures WorldInv(w')
  {
    ActorOk(w, n);
    var main, log, op := w.sys.main, Log(w.sys), DeviceUpdate(id, n);
    TookEntry(w.sys, w'.sys, d, op);
    assert Takes(log, op, n == main, w.sys.dbs[n], w'.sys.dbs[n]);
    assert (log + [op])[|log|] == op;
    OthersEntry(log, op, w.sys.dbs[n], w'.sys.dbs[n], n, n == main, w.locals[n], w.sys.replies);
    ConnectedOk(log, log + [op], main, w.sys.dbs, w.locals, w.sys.replies, n, w'.sys.dbs[n], id);
    GrownLogKeeps(log, op, main, w.sys.dbs, w'.sys.dbs, w.locals, w.sys.replies, n, w'.locals[n]);
  }

  lemma ConnectKeeps(w: World, w': World, n: NodeId, answered: bool)
    requires WorldInv(w) && Connect(w, w', n, answered)
    ensures WorldInv(w')
  {
    var d, id := RegisterAdvances(w.sys, n);
    ConnectShape(w, w', n, answered, d, id);
    if w'.sys == w.sys {
      ConnectKnown(w, w', n, answered, id);
    } else {
      NodeSize(w'.sys, n);
      ConnectNew(w, w', n, answered, d, id);
    }
  }

  lemma ConnectShape(w: World, w': World, n: NodeId, answered: bool, d: Db, id: DeviceId)
    requires Connect(w, w', n, answered) && RegisterDevice(w.sys.dbs[w.sys.main], n) == Ok((d, id))
    ensures w'.sys == Do(w.sys, Register(n))
    ensures w'.locals == w.locals || w'.locals == w.locals[n := w.locals[n].(device := Some(id))]
    ensures w.locals[n := w.locals[n]] == w.locals
  {}

  lemma StartSyncKeeps(w: World, w': World, n: NodeId, goal: Goal, last: nat)
    requires WorldInv(w) && StartSync(w, w', n, goal, last)
    ensures WorldInv(w')
  {
    ActorOk(w, n);
    var main, log := w.sys.main, Log(w.sys);
    FetchAdvances(w.sys, n, last);
    FetchedEntries(w.sys, n, last);
    FetchedOk(log, w.sys.dbs[n], n, n == main, w.locals[n], w'.locals[n].phase.reply, w.sys.replies, goal);
    NodeActKeeps(w, w', n);
  }

  lemma FinishSyncKeeps(w: World, w': World, n: NodeId)
    requires WorldInv(w) && FinishSync(w, w', n)
    ensures WorldInv(w')
  {
    ActorOk(w, n);
    var main, log, r := w.sys.main, Log(w.sys), w.locals[n].phase.reply;
    var d, j := DeliveryApplies(w.sys, r);
    var _ := DeliverAdvances(w.sys, r);
    NodeSize(w.sys, n);
    SyncedOk(log, w.sys.dbs[n], d, n, n == main, w.locals[n], w.sys.replies, j);
    NodeActKeeps(w, w', n);
  }

  lemma ReopenShape(s: System, n: NodeId)
    requires s.main in s.dbs && Known(s, n)
    ensures var s' := Do(s, Reopen(n));
            && s'.main == s.main && s'.replies == s.replies && s'.dbs == s.dbs[n := Backfill(s.dbs[n])]
            && s'.history.Keys == s.history.Keys
            && forall m | m in s.history :: s'.history[m].ordered == s.history[m].ordered
  {}

  lemma ReopensKeeps(w: World, w': World, n: NodeId)
    requires WorldInv(w) && Reopens(w, w', n)
    ensures WorldInv(w')
  {
    ActorOk(w, n);
    ReopenAdvances(w.sys, n);
    ReopenShape(w.sys, n);
    ReopenedOk(Log(w.sys), w.sys.dbs[n], n, n == w.sys.main, w.locals[n], w.sys.replies);
    NodeActKeeps(w, w', n);
  }

  // One node's database and phase changed, the log did not.
  lemma NodeActKeeps(w: World, w': World, n: NodeId)
    requires WorldInv(w) && Ready(w, n) && Inv(w'.sys) && Log(w'.sys) == Log(w.sys) && w'.sys.main == w.sys.main
    requires n in w'.sys.dbs && n in w'.locals
    requires w'.locals == w.locals[n := w'.locals[n]] && w'.sys.dbs == w.sys.dbs[n := w'.sys.dbs[n]]
    requires w.sys.replies <= w'.sys.replies
             && (w.locals[n].device == None || w'.locals[n].device == w.locals[n].device)
    requires LocalOk(Log(w.sys), w'.sys.dbs[n], n, n == w.sys.main, w'.locals[n], w'.sys.replies)
    requires InOrder(w'.sys)
    ensures WorldInv(w')
  {
    SameLogKeeps(Log(w.sys), w.sys.main, w.sys.dbs, w'.sys.dbs, w.locals, w.sys.replies, w'.sys.replies, n,
                 w'.locals[n]);
  }

  lemma RestageKeeps(w: World, w': World, n: NodeId, staging: map<Path, Staged>, more: set<Hash>, prudent: bool)
    requires WorldInv(w) && n in w.locals && Enabled(w.sys, Restage(n, staging)) && (prudent ==> w.locals[n].prudent)
    requires prudent ==> forall p | p in staging ::
               staging[p].hash !in w.locals[n].deletes
               || (p in w.sys.dbs[n].staging && staging[p] == w.sys.dbs[n].staging[p])
    requires Moves(w, w', n, Do(w.sys, Restage(n, staging)),
                   w.locals[n].(phase := Idle, objects := w.locals[n].objects + more, prudent := prudent))
    ensures WorldInv(w')
  {
    ActorOk(w, n);
    RestageAdvances(w.sys, n, staging);
    RestagedOk(Log(w.sys), w.sys.dbs[n], n, n == w.sys.main, w.locals[n], w.sys.replies, staging, more, prudent);
    NodeActKeeps(w, w', n);
  }

  lemma StagingKeeps(w: World, w': World, n: NodeId)
    requires WorldInv(w)
    requires || (exists p, row, withObject :: StageOne(w, w', n, p, row, withObject))
             || (exists gone :: UnstageSome(w, w', n, gone))
             || (exists done: nat :: UnstagePushed(w, w', n, done))
    ensures WorldInv(w')
  {
    var l, staging := w.locals[n], w.sys.dbs[n].staging;
    assert l.objects + {} == l.objects;
    if p, row, withObject :| StageOne(w, w', n, p, row, withObject) {
      RestageKeeps(w, w', n, staging[p := row], if withObject then {row.hash} else {},
                   l.prudent && row.hash !in l.deletes);
    } else if gone :| UnstageSome(w, w', n, gone) {
      RestageKeeps(w, w', n, staging - gone, {}, l.prudent);
    } else {
      var done: nat :| UnstagePushed(w, w', n, done);
      RestageKeeps(w, w', n, staging - (set p | p in l.phase.after.paths[..done]), {}, l.prudent);
    }
  }

  lemma ScanKeeps(w: World, w': World, n: NodeId, unused: set<Hash>, batch: seq<Op>)
    requires WorldInv(w) && Scan(w, w', n, unused, batch)
    ensures WorldInv(w')
  {
    ActorOk(w, n);
    var main, log := w.sys.main, Log(w.sys);
    CleanupAdvances(w.sys, n, w.locals[n].phase.goal.paths, w.locals[n].phase.goal.keep);
    ScannedOk(log, w.sys.dbs[n], w'.sys.dbs[n], n, n == main, w.locals[n], w.sys.replies, unused, batch);
    NodeActKeeps(w, w', n);
  }

  lemma ExecuteKeeps(w: World, w': World, n: NodeId, i: nat)
    requires WorldInv(w) && Execute(w, w', n, i)
    ensures WorldInv(w')
  {
    ActorOk(w, n);
    var main, log := w.sys.main, Log(w.sys);
    var op := w.locals[n].calls[i].batch[|w.locals[n].calls[i].at|];
    var d := PushAdvances(w.sys, op);
    var stored := Stamp(op, w.sys.dbs[main].tables.files);
    TookEntry(w.sys, w'.sys, d, stored);
    assert Takes(log, stored, n == main, w.sys.dbs[n], w'.sys.dbs[n]);
    ExecutedOk(log, stored, w.sys.dbs[n], w'.sys.dbs[n], n, n == main, w.locals[n], w.sys.replies, i);
    GrownLogKeeps(log, stored, main, w.sys.dbs, w'.sys.dbs, w.locals, w.sys.replies, n, w'.locals[n]);
  }

  // Actions that touch nothing outside the node's own phase, calls and object store.
  lemma AloneKeeps(w: World, w': World, n: NodeId, l': Local)
    requires WorldInv(w) && n in w.locals && Moves(w, w', n, w.sys, l') && l'.device == w.locals[n].device
    requires LocalOk(Log(w.sys), w.sys.dbs[n], n, n == w.sys.main, l', w.sys.replies)
    ensures WorldInv(w')
  {
    SameLogKeeps(Log(w.sys), w.sys.main, w.sys.dbs, w.sys.dbs, w.locals, w.sys.replies, w.sys.replies, n, l');
  }

  lemma SendingKeeps(w: World, w': World, n: NodeId)
    requires WorldInv(w)
    requires (exists ps, batch :: BeginPush(w, w', n, ps, batch)) || (exists h :: BeginAnnounce(w, w', n, h))
    ensures WorldInv(w')
  {
    ActorOk(w, n);
    var log, db, isMain, l := Log(w.sys), w.sys.dbs[n], n == w.sys.main, w.locals[n];
    if ps, batch :| BeginPush(w, w', n, ps, batch) {
      BegunOk(log, db, n, isMain, l, w.sys.replies, ps, batch);
    } else {
      var h :| BeginAnnounce(w, w', n, h);
      AnnouncedOk(log, db, n, isMain, l, w.sys.replies, h);
    }
    AloneKeeps(w, w', n, w'.locals[n]);
  }

  lemma PhaseStepKeeps(w: World, w': World, n: NodeId)
    requires WorldInv(w) && (Abort(w, w', n) || EndAnnounce(w, w', n))
    ensures WorldInv(w')
  {
    ActorOk(w, n);
    AloneKeeps(w, w', n, w'.locals[n]);
  }

  lemma CloseKeeps(w: World, w': World, n: NodeId, i: nat)
    requires WorldInv(w) && Close(w, w', n, i)
    ensures WorldInv(w')
  {
    ActorOk(w, n);
    ClosedOk(Log(w.sys), w.sys.dbs[n], n, n == w.sys.main, w.locals[n], w.sys.replies, i);
    AloneKeeps(w, w', n, w'.locals[n]);
  }

  lemma ObjectStepKeeps(w: World, w': World, n: NodeId, h: Hash)
    requires WorldInv(w)
    requires StoreObject(w, w', n, h) || PullObject(w, w', n, h) || LoseDelete(w, w', n, h)
             || exists more :: ExecuteDelete(w, w', n, h, more)
    ensures WorldInv(w')
  {
    ActorOk(w, n);
    AloneKeeps(w, w', n, w'.locals[n]);
  }

  lemma CallDeleteKeeps(w: World, w': World, n: NodeId, h: Hash)
    requires WorldInv(w) && CallDelete(w, w', n, h)
    ensures WorldInv(w')
  {
    ActorOk(w, n);
    if w.locals[n].prudent {
      assert forall i, g | 0 <= i < |w.locals[n].calls| :: !Promises(w.locals[n].calls[i], g);
    }
    AloneKeeps(w, w', n, w'.locals[n]);
  }

  lemma AloneActKeeps(w: World, w': World, n: NodeId)
    requires WorldInv(w) && ActsAlone(w, w', n)
    ensures WorldInv(w')
  {
    if Abort(w, w', n) || EndAnnounce(w, w', n) {
      PhaseStepKeeps(w, w', n);
    } else if i: nat :| Close(w, w', n, i) {
      CloseKeeps(w, w', n, i);
    } else if h :| CallDelete(w, w', n, h) {
      CallDeleteKeeps(w, w', n, h);
    } else if h :| StoreObject(w, w', n, h) || PullObject(w, w', n, h) || LoseDelete(w, w', n, h) {
      ObjectStepKeeps(w, w', n, h);
    } else if h, more :| ExecuteDelete(w, w', n, h, more) {
      ObjectStepKeeps(w, w', n, h);
    } else {
      SendingKeeps(w, w', n);
    }
  }

  lemma ActKeeps(w: World, w': World, n: NodeId)
    requires WorldInv(w) && Acts(w, w', n)
    ensures WorldInv(w')
  {
    if ActsAlone(w, w', n) {
      AloneActKeeps(w, w', n);
    } else if answered :| Connect(w, w', n, answered) {
      ConnectKeeps(w, w', n, answered);
    } else if goal, last :| StartSync(w, w', n, goal, last) {
      StartSyncKeeps(w, w', n, goal, last);
    } else if FinishSync(w, w', n) {
      FinishSyncKeeps(w, w', n);
    } else if Reopens(w, w', n) {
      ReopensKeeps(w, w', n);
    } else if i: nat :| Execute(w, w', n, i) {
      ExecuteKeeps(w, w', n, i);
    } else if unused, batch :| Scan(w, w', n, unused, batch) {
      ScanKeeps(w, w', n, unused, batch);
    } else {
      StagingKeeps(w, w', n);
    }
  }

  lemma InitWorldInv(w: World)
    requires InitWorld(w)
    ensures WorldInv(w)
  {
    InitInv(w.sys);
    assert Log(w.sys) == [];
  }

  lemma {:induction false} WorldReachable(tr: seq<World>, t: nat)
    requires WorldRun(tr) && t < |tr|
    ensures WorldInv(tr[t])
  {
    if t == 0 {
      InitWorldInv(tr[0]);
    } else {
      WorldReachable(tr, t - 1);
      assert WorldStep(tr, t - 1);
      var n :| Acts(tr[t - 1], tr[t], n);
      ActKeeps(tr[t - 1], tr[t], n);
    }
  }

  // ----- Theorems over whole runs ------------------------------------------------------

  // A step of the protocol is a replication step or leaves the databases and replies alone.
  lemma ProtocolRefinesReplication(w: World, w': World)
    requires NextWorld(w, w')
    ensures w'.sys == w.sys || Next(w.sys, w'.sys)
  {
    var n :| Acts(w, w', n);
    ConnectionRefines(w, w', n);
    StagingRefines(w, w', n);
    if i: nat :| Execute(w, w', n, i) {
      IsNext(w.sys, Push(w.locals[n].calls[i].batch[|w.locals[n].calls[i].at|]));
    } else if unused, batch :| Scan(w, w', n, unused, batch) {
      IsNext(w.sys, Cleanup(n, w.locals[n].phase.goal.paths, w.locals[n].phase.goal.keep));
    }
  }

  lemma ConnectionRefines(w: World, w': World, n: NodeId)
    ensures (exists answered :: Connect(w, w', n, answered)) ==> Next(w.sys, w'.sys)
    ensures (exists goal, last :: StartSync(w, w', n, goal, last)) ==> Next(w.sys, w'.sys)
    ensures FinishSync(w, w', n) || Reopens(w, w', n) ==> Next(w.sys, w'.sys)
  {
    if answered :| Connect(w, w', n, answered) {
      IsNext(w.sys, Register(n));
    }
    if goal, last :| StartSync(w, w', n, goal, last) {
      IsNext(w.sys, Fetch(n, last));
    }
    if FinishSync(w, w', n) {
      IsNext(w.sys, Deliver(w.locals[n].phase.reply));
    }
    if Reopens(w, w', n) {
      IsNext(w.sys, Reopen(n));
    }
  }

  lemma StagingRefines(w: World, w': World, n: NodeId)
    ensures (exists p, row, withObject :: StageOne(w, w', n, p, row, withObject)) ==> Next(w.sys, w'.sys)
    ensures (exists gone :: UnstageSome(w, w', n, gone)) ==> Next(w.sys, w'.sys)
    ensures (exists done: nat :: UnstagePushed(w, w', n, done)) ==> Next(w.sys, w'.sys)
  {
    if p, row, withObject :| StageOne(w, w', n, p, row, withObject) {
      IsNext(w.sys, Restage(n, w.sys.dbs[n].staging[p := row]));
    }
    if gone :| UnstageSome(w, w', n, gone) {
      IsNext(w.sys, Restage(n, w.sys.dbs[n].staging - gone));
    }
    if done: nat :| UnstagePushed(w, w', n, done) {
      IsNext(w.sys, Restage(n, w.sys.dbs[n].staging - (set p | p in w.locals[n].phase.after.paths[..done])));
    }
  }

  lemma IsNext(s: System, step: Step)
    requires s.main in s.dbs && Enabled(s, step)
    ensures Next(s, Do(s, step))
  {}

  // So every state of a protocol run is reached by a replication run, and every theorem of
  // Replication.dfy holds of it.
  lemma {:induction false} EveryWorldIsAReplicationState(tr: seq<World>, t: nat) returns (run: seq<System>)
    requires WorldRun(tr) && t < |tr|
    ensures Run(run) && run[|run| - 1] == tr[t].sys
  {
    if t == 0 {
      run := [tr[0].sys];
    } else {
      run := EveryWorldIsAReplicationState(tr, t - 1);
      assert WorldStep(tr, t - 1);
      ProtocolRefinesReplication(tr[t - 1], tr[t]);
      if tr[t].sys != tr[t - 1].sys {
        RunExtends(run, tr[t].sys);
        run := run + [tr[t].sys];
      }
    }
  }

  // Whatever the coordinator's log says a device owns, some node is that device, and it has
  // the object in its store if it was prudent: in every reachable state, between any two
  // steps of any commands, with replies lost, batches cut short, commands broken off and
  // their requests carried out later. Other nodes need not be prudent.
  lemma OwnershipSound(tr: seq<World>, t: nat, h: Hash, d: DeviceId)
    requires WorldRun(tr) && t < |tr|
    ensures MainHasLog(tr[t].sys)
    ensures Live(Log(tr[t].sys), Claim(h, d)) ==>
              exists n | n in tr[t].locals ::
                tr[t].locals[n].device == Some(d) && (tr[t].locals[n].prudent ==> h in tr[t].locals[n].objects)
  {
    WorldReachable(tr, t);
    var w := tr[t];
    var log := Log(w.sys);
    if Live(log, Claim(h, d)) {
      var i := LastWriter(log, OwnerCell(Claim(h, d)));
      var n :| n in w.locals && w.locals[n].device == Names(log[i]);
      ActorOk(w, n);
      assert w.locals[n].device == Some(d) && (w.locals[n].prudent ==> h in w.locals[n].objects);
    }
  }

  // Two nodes never share a device id.
  lemma DevicesDiffer(tr: seq<World>, t: nat, n: NodeId, m: NodeId)
    requires WorldRun(tr) && t < |tr| && n in tr[t].locals && m in tr[t].locals
    requires tr[t].locals[n].device.Some? && tr[t].locals[n].device == tr[t].locals[m].device
    ensures n == m
  {
    WorldReachable(tr, t);
    ActorOk(tr[t], n);
    ActorOk(tr[t], m);
    OneDevicePerNode(Log(tr[t].sys), tr[t].locals[n].device.value, tr[t].locals[m].device.value, n, m);
  }

  // A push that unstages paths has put its whole batch into the log, in order, after the
  // point where the push was sent; each path it unstages is one of the batch, which has the
  // staged hash and mode for it.
  lemma PushLosesNothing(tr: seq<World>, t: nat, w': World, n: NodeId, p: Path, done: nat) returns (r: Request, i: nat)
    requires WorldRun(tr) && t < |tr| && UnstagePushed(tr[t], w', n, done)
    requires p in tr[t].sys.dbs[n].staging && p !in w'.sys.dbs[n].staging
    ensures MainHasLog(tr[t].sys) && tr[t].locals[n].device.Some?
    ensures r in tr[t].locals[n].calls && |r.at| == |r.batch| && i < |r.batch|
    ensures forall k | 0 <= k < |r.at| ::
              r.start <= r.at[k] < |Log(tr[t].sys)| && SameButVersion(Log(tr[t].sys)[r.at[k]], r.batch[k])
    ensures forall j, k | 0 <= j < k < |r.at| :: r.at[j] < r.at[k]
    ensures var row := tr[t].sys.dbs[n].staging[p];
            r.batch[i] == FileUpdate(p, row.hash, 0, tr[t].locals[n].device.value, row.readOnly)
  {
    WorldReachable(tr, t);
    ActorOk(tr[t], n);
    r, i := GrantedPush(Log(tr[t].sys), tr[t].sys.dbs[n], n, n == tr[t].sys.main, tr[t].locals[n], tr[t].sys.replies,
                        p);
  }

  lemma GrantedPush(log: seq<Op>, db: Db, n: NodeId, isMain: bool, l: Local, replies: set<Reply>, p: Path)
    returns (r: Request, i: nat)
    requires LocalOk(log, db, n, isMain, l, replies) && l.phase.Waiting? && l.phase.after.Unstage?
    requires l.phase.id < |l.calls| && Granted(l.calls[l.phase.id]) && p in l.phase.after.paths
    ensures l.device.Some? && r in l.calls && Granted(r) && CallOk(log, l.device.value, r) && i < |r.batch|
    ensures p in db.staging
    ensures r.batch[i] == FileUpdate(p, db.staging[p].hash, 0, l.device.value, db.staging[p].readOnly)
  {
    r := l.calls[l.phase.id];
    i :| 0 <= i < |l.phase.after.paths| && l.phase.after.paths[i] == p;
  }

  // `start` is where the log ended when the push was sent, and the batch is what was staged.
  lemma PushStartsAtTheEnd(tr: seq<World>, t: nat, w': World, n: NodeId, ps: seq<Path>, batch: seq<Op>)
    requires WorldRun(tr) && t < |tr| && BeginPush(tr[t], w', n, ps, batch)
    ensures MainHasLog(tr[t].sys) && w'.locals[n].phase == Waiting(|tr[t].locals[n].calls|, Unstage(ps))
    ensures w'.locals[n].calls == tr[t].locals[n].calls + [Request(batch, |Log(tr[t].sys)|, [], false)]
  {
    WorldReachable(tr, t);
    ActorOk(tr[t], n);
  }

  // What a cleanup sets aside is in the store and is the hash of no file row and no staged
  // row the node has at that moment, and each owner it retracts is of such an object.
  lemma ScanSparesRows(w: World, w': World, n: NodeId, unused: set<Hash>, batch: seq<Op>, h: Hash)
    requires Scan(w, w', n, unused, batch)
    ensures h in unused || (exists d :: OwnerDelete(h, d) in batch) ==>
              && h in w.locals[n].objects
              && (forall k | k in w'.sys.dbs[n].tables.files :: w'.sys.dbs[n].tables.files[k].hash != Some(h))
              && (forall p | p in w'.sys.dbs[n].staging :: w'.sys.dbs[n].staging[p].hash != h)
    ensures forall k :: k in w'.sys.dbs[n].tables.files <==>
              (k in w.sys.dbs[n].tables.files
               && (k.path in w.locals[n].phase.goal.paths ==>
                     |set r | r in w.sys.dbs[n].tables.files && r.path == k.path && k.version < r.version|
                     < w.locals[n].phase.goal.keep))
  {
    var goal := w.locals[n].phase.goal;
    forall k { CleanupKeeps(w.sys.dbs[n].tables.files, goal.paths, goal.keep, k); }
  }

  // A delete of a prudent node, whenever it is carried out, hits no object that is staged,
  // that the log has the device down for, or that an open request is about to add.
  lemma DeletionsAreSafe(tr: seq<World>, t: nat, w': World, n: NodeId, h: Hash, more: bool)
    requires WorldRun(tr) && t < |tr| && ExecuteDelete(tr[t], w', n, h, more) && tr[t].locals[n].prudent
    ensures MainHasLog(tr[t].sys) && tr[t].locals[n].device.Some?
    ensures !Live(Log(tr[t].sys), Claim(h, tr[t].locals[n].device.value)) && !Promised(tr[t].locals[n].calls, h)
    ensures forall p | p in tr[t].sys.dbs[n].staging :: tr[t].sys.dbs[n].staging[p].hash != h
  {
    WorldReachable(tr, t);
    ActorOk(tr[t], n);
  }

  // The owner table of every node but the main one lies between the owners its prefix
  // leaves standing and the pairs it ever named, through reopens and cleanups; of a prudent
  // main node, the lower bound holds of its own objects.
  lemma OwnerBoundsInRuns(tr: seq<World>, t: nat, n: NodeId, o: Claim)
    requires WorldRun(tr) && t < |tr| && n in tr[t].locals
    ensures Whole(tr[t].sys) && n in tr[t].sys.dbs && GapFree(tr[t].sys.dbs[n].wal)
    ensures var own, owners := LogOf(tr[t].sys.dbs[n].wal), tr[t].sys.dbs[n].tables.owners;
            && (o in owners ==> exists i | 0 <= i < |own| :: EffectOn(own[i], OwnerCell(o)) == Writes(Owned))
            && (n != tr[t].sys.main && Live(own, o) ==> o in owners)
            && (tr[t].locals[n].prudent && tr[t].locals[n].device == Some(o.device) && Live(own, o) ==> o in owners)
  {
    WorldReachable(tr, t);
    ActorOk(tr[t], n);
    var run := EveryWorldIsAReplicationState(tr, t);
    OwnerBounds(run, |run| - 1, n, o);
    assert NodeOk(tr[t].sys, n);
  }
}
