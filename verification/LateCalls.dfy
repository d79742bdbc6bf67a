// What the calls a node has left behind can still do: exactly when the requests and deletes
// of commands that have ended can make the log wrong about their sender.
module LateCalls {
  import opened Basics
  import opened Wal
  import opened Store
  import opened LogFacts
  import opened NodeInvariant
  import opened Replication
  import opened Commands
  import opened Ownership
  import opened OwnershipProof

  ghost predicate MayOwn(log: seq<Op>, d: DeviceId, l: Local, h: Hash) {
    Live(log, Claim(h, d)) || Promised(l.calls, h)
  }

  predicate MayLose(l: Local, h: Hash) { h !in l.objects || h in l.deletes }

  ghost predicate Placed(w: World, n: NodeId) { WorldInv(w) && n in w.locals && w.locals[n].device.Some? }

  // Some object the node owns, or an open request would make it own, is gone or may go.
  ghost predicate AtRisk(w: World, n: NodeId)
    requires Placed(w, n)
  {
    exists h :: MayOwn(Log(w.sys), w.locals[n].device.value, w.locals[n], h) && MayLose(w.locals[n], h)
  }

  ghost predicate Unsound(w: World, n: NodeId) {
    Placed(w, n) && !Sound(Log(w.sys), w.locals[n].device.value, w.locals[n].objects)
  }

  // Nothing happens but what the servers still have to do for the node.
  ghost predicate ServerStep(w: World, w': World, n: NodeId) {
    (exists i: nat :: Execute(w, w', n, i)) || (exists h, more :: ExecuteDelete(w, w', n, h, more))
  }

  ghost predicate ServerRun(tr: seq<World>, w: World, n: NodeId) {
    tr != [] && tr[0] == w && forall k | 0 <= k < |tr| - 1 :: ServerStep(tr[k], tr[k + 1], n)
  }

  lemma ExecuteKeepsSafe(w: World, w': World, n: NodeId, i: nat)
    requires Placed(w, n) && Execute(w, w', n, i)
    ensures Placed(w', n) && (AtRisk(w', n) ==> AtRisk(w, n))
  {
    var stored := ExecuteAppends(w, w', n, i);
    var log, l, l', d := Log(w.sys), w.locals[n], w'.locals[n], w.locals[n].device.value;
    if AtRisk(w', n) {
      var h :| MayOwn(Log(w'.sys), d, l', h) && MayLose(l', h);
      if Promised(l'.calls, h) { ExecutedPromises(l, i, |log|, h); }
      LiveAfter(log, stored, Claim(h, d));
      if !Live(log, Claim(h, d)) && Live(log + [stored], Claim(h, d)) {
        assert Adds(l.calls[i].batch[|l.calls[i].at|], h) && Promises(l.calls[i], h);
      }
      assert MayOwn(log, d, l, h) && MayLose(l, h);
    }
  }

  lemma DeleteKeepsSafe(w: World, w': World, n: NodeId, h: Hash, more: bool)
    requires Placed(w, n) && ExecuteDelete(w, w', n, h, more)
    ensures Placed(w', n) && (AtRisk(w', n) ==> AtRisk(w, n))
  {
    ObjectStepKeeps(w, w', n, h);
    var l, l', d := w.locals[n], w'.locals[n], w.locals[n].device.value;
    if AtRisk(w', n) {
      var g :| MayOwn(Log(w'.sys), d, l', g) && MayLose(l', g);
      assert MayOwn(Log(w.sys), d, l, g) && MayLose(l, g);
    }
  }

  lemma ServerStepKeeps(w: World, w': World, n: NodeId)
    requires Placed(w, n) && ServerStep(w, w', n)
    ensures Placed(w', n) && (AtRisk(w', n) ==> AtRisk(w, n))
  {
    if i: nat :| Execute(w, w', n, i) {
      ExecuteKeepsSafe(w, w', n, i);
    } else {
      var h, more :| ExecuteDelete(w, w', n, h, more);
      DeleteKeepsSafe(w, w', n, h, more);
    }
  }

  lemma ExecuteAppends(w: World, w': World, n: NodeId, i: nat) returns (stored: Op)
    requires Placed(w, n) && Execute(w, w', n, i)
    ensures WorldInv(w') && Log(w'.sys) == Log(w.sys) + [stored]
    ensures SameButVersion(stored, w.locals[n].calls[i].batch[|w.locals[n].calls[i].at|])
    ensures w'.locals[n] == Executed(w.locals[n], i, |Log(w.sys)|)
  {
    ExecuteKeeps(w, w', n, i);
    ActorOk(w, n);
    var op := w.locals[n].calls[i].batch[|w.locals[n].calls[i].at|];
    var d := PushAdvances(w.sys, op);
    stored := Stamp(op, w.sys.dbs[w.sys.main].tables.files);
  }

  lemma {:induction false} HarmlessRun(tr: seq<World>, w: World, n: NodeId, k: nat)
    requires Placed(w, n) && !AtRisk(w, n) && ServerRun(tr, w, n) && k < |tr|
    ensures Placed(tr[k], n) && !AtRisk(tr[k], n)
  {
    if k > 0 {
      HarmlessRun(tr, w, n, k - 1);
      assert ServerStep(tr[k - 1], tr[k - 1 + 1], n);
      ServerStepKeeps(tr[k - 1], tr[k], n);
    }
  }

  // The server can always carry an open request one entry further.
  lemma CanExecute(w: World, n: NodeId, i: nat) returns (next: World, stored: Op)
    requires Placed(w, n) && i < |w.locals[n].calls| && Open(w.locals[n].calls[i])
    ensures Execute(w, next, n, i) && Placed(next, n) && Log(next.sys) == Log(w.sys) + [stored]
    ensures SameButVersion(stored, w.locals[n].calls[i].batch[|w.locals[n].calls[i].at|])
    ensures Names(stored) == w.locals[n].device
    ensures next.locals[n] == Executed(w.locals[n], i, |Log(w.sys)|)
  {
    var r := w.locals[n].calls[i];
    ActorOk(w, n);
    assert CallOk(Log(w.sys), w.locals[n].device.value, r);
    next := World(Do(w.sys, Push(r.batch[|r.at|])),
                w.locals[n := w.locals[n].(calls := w.locals[n].calls[i := r.(at := r.at + [LogLength(w)])])]);
    stored := ExecuteAppends(w, next, n, i);
  }

  lemma {:induction false} ExecuteUntil(w: World, n: NodeId, i: nat, k: nat, h: Hash) returns (tr: seq<World>)
    requires Placed(w, n) && h !in w.locals[n].objects && i < |w.locals[n].calls| && Open(w.locals[n].calls[i])
    requires |w.locals[n].calls[i].at| <= k < |w.locals[n].calls[i].batch| && Adds(w.locals[n].calls[i].batch[k], h)
    ensures ServerRun(tr, w, n) && Unsound(tr[|tr| - 1], n)
    decreases k - |w.locals[n].calls[i].at|
  {
    var w', stored := CanExecute(w, n, i);
    tr := [w, w'];
    if |w.locals[n].calls[i].at| < k {
      var rest := ExecuteUntil(w', n, i, k, h);
      tr := Before(w, w', rest, n);
    } else {
      LiveAfter(Log(w.sys), stored, Claim(h, w.locals[n].device.value));
    }
  }

  lemma Before(w: World, w': World, rest: seq<World>, n: NodeId) returns (tr: seq<World>)
    requires ServerRun(rest, w', n) && ServerStep(w, w', n)
    ensures ServerRun(tr, w, n) && tr[|tr| - 1] == rest[|rest| - 1]
  {
    tr := [w] + rest;
  }

  lemma RiskRealised(w: World, n: NodeId) returns (tr: seq<World>)
    requires Placed(w, n) && AtRisk(w, n)
    ensures ServerRun(tr, w, n) && Unsound(tr[|tr| - 1], n)
  {
    var l, d := w.locals[n], w.locals[n].device.value;
    var h :| MayOwn(Log(w.sys), d, l, h) && MayLose(l, h);
    if h in l.objects {
      var gone := World(w.sys, w.locals[n := l.(objects := l.objects - {h}, deletes := l.deletes - {h})]);
      assert ExecuteDelete(w, gone, n, h, false);
      ObjectStepKeeps(w, gone, n, h);
      var rest := LossRealised(gone, n, h);
      tr := Before(w, gone, rest, n);
    } else {
      tr := LossRealised(w, n, h);
    }
  }

  lemma LossRealised(w: World, n: NodeId, h: Hash) returns (tr: seq<World>)
    requires Placed(w, n) && h !in w.locals[n].objects
    requires MayOwn(Log(w.sys), w.locals[n].device.value, w.locals[n], h)
    ensures ServerRun(tr, w, n) && Unsound(tr[|tr| - 1], n)
  {
    var l := w.locals[n];
    if Live(Log(w.sys), Claim(h, l.device.value)) {
      tr := [w];
    } else {
      var i :| 0 <= i < |l.calls| && Promises(l.calls[i], h);
      var k :| |l.calls[i].at| <= k < |l.calls[i].batch| && Adds(l.calls[i].batch[k], h);
      tr := ExecuteUntil(w, n, i, k, h);
    }
  }

  // The calls a node has outstanding can make the log wrong about it exactly when it is at
  // risk: a condition on its log, its store, its open requests and its delete calls.
  lemma LateCallsHarmless(tr: seq<World>, t: nat, n: NodeId)
    requires WorldRun(tr) && t < |tr|
    ensures n in tr[t].locals && tr[t].locals[n].device.Some? ==>
              && Placed(tr[t], n)
              && (AtRisk(tr[t], n) <==> exists run | ServerRun(run, tr[t], n) :: Unsound(run[|run| - 1], n))
  {
    WorldReachable(tr, t);
    if n in tr[t].locals && tr[t].locals[n].device.Some? {
      RiskIff(tr[t], n);
    }
  }

  lemma RiskIff(w: World, n: NodeId)
    requires Placed(w, n)
    ensures AtRisk(w, n) <==> exists run | ServerRun(run, w, n) :: Unsound(run[|run| - 1], n)
  {
    if AtRisk(w, n) {
      var run := RiskRealised(w, n);
    } else {
      forall run | ServerRun(run, w, n) ensures !Unsound(run[|run| - 1], n) {
        HarmlessRun(run, w, n, |run| - 1);
        SoundIfSafe(run[|run| - 1], n);
      }
    }
  }

  lemma SoundIfSafe(w: World, n: NodeId)
    requires Placed(w, n) && !AtRisk(w, n)
    ensures !Unsound(w, n)
  {
    var d := w.locals[n].device.value;
    forall h | Live(Log(w.sys), Claim(h, d)) ensures h in w.locals[n].objects {
      assert MayOwn(Log(w.sys), d, w.locals[n], h);
    }
  }

  // A prudent node is never at risk.
  lemma PrudenceSuffices(tr: seq<World>, t: nat, n: NodeId)
    requires WorldRun(tr) && t < |tr|
    ensures n in tr[t].locals && tr[t].locals[n].device.Some? && tr[t].locals[n].prudent ==>
              Placed(tr[t], n) && !AtRisk(tr[t], n)
  {
    WorldReachable(tr, t);
    if n in tr[t].locals { ActorOk(tr[t], n); }
  }

  // Of a node that is not at risk, asking for a delete puts it there exactly when the log has
  // the device down for the object or an open request is about to.
  lemma DeleteCallRisks(w: World, w': World, n: NodeId, h: Hash)
    requires Placed(w, n) && !AtRisk(w, n) && CallDelete(w, w', n, h)
    ensures Placed(w', n)
    ensures AtRisk(w', n) <==> MayOwn(Log(w.sys), w.locals[n].device.value, w.locals[n], h)
  {
    CallDeleteKeeps(w, w', n, h);
    var d, l, l' := w.locals[n].device.value, w.locals[n], w'.locals[n];
    forall g ensures MayOwn(Log(w'.sys), d, l', g) == MayOwn(Log(w.sys), d, l, g) {}
    if MayOwn(Log(w.sys), d, l, h) { assert MayLose(l', h); }
    if g :| MayOwn(Log(w'.sys), d, l', g) && MayLose(l', g) { assert MayOwn(Log(w.sys), d, l, g); }
  }

  // ----- What a step leaves alone -----------------------------------------------------------

  // The actor's own record changed at most, and it does not lose its device id.
  ghost predicate OnlyActor(w: World, w': World, m: NodeId) {
    && m in w.locals && m in w'.locals && w'.locals == w.locals[m := w'.locals[m]]
    && (w.locals[m].device.Some? ==> w'.locals[m].device.Some?)
  }

  lemma DatabaseActShape(w: World, w': World, m: NodeId)
    requires ActsOnDatabase(w, w', m)
    ensures OnlyActor(w, w', m)
    ensures (exists answered :: Connect(w, w', m, answered)) || w'.locals[m].device == w.locals[m].device
  {
    if answered :| Connect(w, w', m, answered) {
    } else if unused, batch :| Scan(w, w', m, unused, batch) {
    } else if i: nat :| Execute(w, w', m, i) {
    }
  }

  lemma AloneActShape(w: World, w': World, m: NodeId)
    requires ActsAlone(w, w', m)
    ensures OnlyActor(w, w', m) && w'.sys == w.sys && w'.locals[m].device == w.locals[m].device
  {
    if ps, batch :| BeginPush(w, w', m, ps, batch) {
    } else if h :| BeginAnnounce(w, w', m, h) {
    }
  }

  lemma ActShape(w: World, w': World, m: NodeId)
    requires Acts(w, w', m)
    ensures OnlyActor(w, w', m)
    ensures (exists answered :: Connect(w, w', m, answered)) || w'.locals[m].device == w.locals[m].device
    ensures ActsOnDatabase(w, w', m) || (w'.sys == w.sys && w'.locals[m].device == w.locals[m].device)
  {
    if ActsOnDatabase(w, w', m) { DatabaseActShape(w, w', m); } else { AloneActShape(w, w', m); }
  }

  // ----- Which steps put a node at risk ---------------------------------------------------

  // The node asks for the delete of an object it owns or is about to, or sends a push or an
  // announcement of one it has a delete outstanding for. It can tell before the step.
  ghost predicate Risky(w: World, w': World, n: NodeId) {
    Placed(w, n) &&
    var l := w.locals[n];
    || (exists h :: CallDelete(w, w', n, h) && MayOwn(Log(w.sys), l.device.value, l, h))
    || (exists ps, batch, h :: BeginPush(w, w', n, ps, batch) && h in l.deletes && AddsSome(batch, h))
    || (exists h :: BeginAnnounce(w, w', n, h) && h in l.deletes)
  }

  ghost predicate AddsSome(batch: seq<Op>, h: Hash) { exists k :: 0 <= k < |batch| && Adds(batch[k], h) }

  lemma RiskyIsRisk(w: World, w': World, n: NodeId)
    requires Placed(w, n) && Placed(w', n) && !AtRisk(w, n) && Risky(w, w', n)
    ensures AtRisk(w', n)
  {
    var l, l', d := w.locals[n], w'.locals[n], w.locals[n].device.value;
    if h :| CallDelete(w, w', n, h) && MayOwn(Log(w.sys), d, l, h) {
      DeleteCallRisks(w, w', n, h);
    } else if ps, batch, h :| BeginPush(w, w', n, ps, batch) && h in l.deletes && AddsSome(batch, h) {
      var r := Request(batch, LogLength(w), [], false);
      SentPromises(l.calls, r, h);
      assert Promises(r, h);
      assert MayOwn(Log(w'.sys), d, l', h) && MayLose(l', h);
    } else {
      var h :| BeginAnnounce(w, w', n, h) && h in l.deletes;
      var r := Request([OwnerUpdate(h, d)], LogLength(w), [], false);
      SentPromises(l.calls, r, h);
      assert Adds(r.batch[0], h) && Promises(r, h);
      assert MayOwn(Log(w'.sys), d, l', h) && MayLose(l', h);
    }
  }

  // Same log, same requests, nothing lost, no new delete.
  lemma QuietStep(w: World, w': World, n: NodeId)
    requires Placed(w, n) && Placed(w', n) && Log(w'.sys) == Log(w.sys)
    requires var l, l' := w.locals[n], w'.locals[n];
             l'.device == l.device && l'.calls == l.calls && l'.deletes <= l.deletes && l.objects <= l'.objects
    ensures AtRisk(w', n) ==> AtRisk(w, n)
  {
    var d := w.locals[n].device.value;
    if h :| MayOwn(Log(w'.sys), d, w'.locals[n], h) && MayLose(w'.locals[n], h) {
      assert MayOwn(Log(w.sys), d, w.locals[n], h) && MayLose(w.locals[n], h);
    }
  }

  // An entry about nobody or about another device was logged.
  lemma ForeignEntry(w: World, w': World, n: NodeId, op: Op)
    requires Placed(w, n) && Placed(w', n) && Log(w'.sys) == Log(w.sys) + [op]
    requires w'.locals[n] == w.locals[n] && (Names(op) == None || Names(op) != w.locals[n].device)
    ensures AtRisk(w', n) ==> AtRisk(w, n)
  {
    var l, d := w.locals[n], w.locals[n].device.value;
    if h :| MayOwn(Log(w'.sys), d, l, h) && MayLose(l, h) {
      LiveAfter(Log(w.sys), op, Claim(h, d));
      assert MayOwn(Log(w.sys), d, l, h) && MayLose(l, h);
    }
  }

  lemma StartSyncQuiet(w: World, w': World, m: NodeId, n: NodeId, goal: Goal, last: nat)
    requires Placed(w, n) && Placed(w', n) && StartSync(w, w', m, goal, last)
    ensures AtRisk(w', n) ==> AtRisk(w, n)
  {
    FetchAdvances(w.sys, m, last);
    QuietStep(w, w', n);
  }

  lemma FinishSyncQuiet(w: World, w': World, m: NodeId, n: NodeId)
    requires Placed(w, n) && Placed(w', n) && FinishSync(w, w', m)
    ensures AtRisk(w', n) ==> AtRisk(w, n)
  {
    var d := DeliverAdvances(w.sys, w.locals[m].phase.reply);
    QuietStep(w, w', n);
  }

  lemma ReopensQuiet(w: World, w': World, m: NodeId, n: NodeId)
    requires Placed(w, n) && Placed(w', n) && Reopens(w, w', m)
    ensures AtRisk(w', n) ==> AtRisk(w, n)
  {
    ReopenAdvances(w.sys, m);
    QuietStep(w, w', n);
  }

  lemma RestageQuiet(w: World, w': World, m: NodeId, n: NodeId, staging: map<Path, Staged>)
    requires Placed(w, n) && Placed(w', n) && Ready(w, m) && w'.sys == Do(w.sys, Restage(m, staging))
    requires var l, l' := w.locals[n], w'.locals[n];
             l'.device == l.device && l'.calls == l.calls && l'.deletes == l.deletes && l.objects <= l'.objects
    ensures AtRisk(w', n) ==> AtRisk(w, n)
  {
    RestageAdvances(w.sys, m, staging);
    QuietStep(w, w', n);
  }

  lemma StagingStepsQuiet(w: World, w': World, m: NodeId, n: NodeId)
    requires Placed(w, n) && Placed(w', n)
    requires || (exists p, row, withObject :: StageOne(w, w', m, p, row, withObject))
             || (exists gone :: UnstageSome(w, w', m, gone))
             || (exists done: nat :: UnstagePushed(w, w', m, done))
    ensures AtRisk(w', n) ==> AtRisk(w, n)
  {
    var staging := w.sys.dbs[m].staging;
    if p, row, withObject :| StageOne(w, w', m, p, row, withObject) {
      RestageQuiet(w, w', m, n, staging[p := row]);
    } else if gone :| UnstageSome(w, w', m, gone) {
      RestageQuiet(w, w', m, n, staging - gone);
    } else {
      var done: nat :| UnstagePushed(w, w', m, done);
      RestageQuiet(w, w', m, n, staging - (set p | p in w.locals[m].phase.after.paths[..done]));
    }
  }

  lemma ConnectQuiet(w: World, w': World, m: NodeId, n: NodeId, answered: bool)
    requires Placed(w, n) && Placed(w', n) && Connect(w, w', m, answered)
    ensures AtRisk(w', n) ==> AtRisk(w, n)
  {
    var d, id := RegisterAdvances(w.sys, m);
    ConnectShape(w, w', m, answered, d, id);
    if m == n { SameDevice(w, w', n, id); }
    if w'.sys == w.sys {
      QuietStep(w, w', n);
    } else {
      ForeignEntry(w, w', n, DeviceUpdate(id, m));
    }
  }

  // Connecting again answers the id the node already has.
  lemma SameDevice(w: World, w': World, n: NodeId, id: DeviceId)
    requires Placed(w, n) && WorldInv(w') && DeviceUpdate(id, n) in Log(w'.sys) && Log(w.sys) <= Log(w'.sys)
    ensures w.locals[n].device == Some(id)
  {
    ActorOk(w, n);
    var d := w.locals[n].device.value;
    var i :| 0 <= i < |Log(w.sys)| && Log(w.sys)[i] == DeviceUpdate(d, n);
    assert Log(w'.sys)[i] == DeviceUpdate(d, n);
    OneDevicePerNode(Log(w'.sys), d, id, n, n);
  }

  lemma ScanQuiet(w: World, w': World, m: NodeId, n: NodeId, unused: set<Hash>, batch: seq<Op>)
    requires Placed(w, n) && Placed(w', n) && Scan(w, w', m, unused, batch)
    ensures AtRisk(w', n) ==> AtRisk(w, n)
  {
    CleanupAdvances(w.sys, m, w.locals[m].phase.goal.paths, w.locals[m].phase.goal.keep);
    if m == n && batch != [] {
      var l, d := w.locals[n], w.locals[n].device.value;
      assert forall k | 0 <= k < |batch| :: batch[k] in batch;
      if h :| MayOwn(Log(w'.sys), d, w'.locals[n], h) && MayLose(w'.locals[n], h) {
        SentPromises(l.calls, Request(batch, LogLength(w), [], false), h);
        assert MayOwn(Log(w.sys), d, l, h) && MayLose(l, h);
      }
    } else {
      QuietStep(w, w', n);
    }
  }

  lemma ExecuteQuiet(w: World, w': World, m: NodeId, n: NodeId, i: nat)
    requires Placed(w, n) && Placed(w', n) && Execute(w, w', m, i)
    ensures AtRisk(w', n) ==> AtRisk(w, n)
  {
    if m == n {
      ExecuteKeepsSafe(w, w', n, i);
    } else {
      ActorOk(w, m);
      ActorOk(w, n);
      assert Placed(w, m);
      var stored := ExecuteAppends(w, w', m, i);
      var e := w.locals[m].device.value;
      assert CallOk(Log(w.sys), e, w.locals[m].calls[i]);
      OneDevicePerNode(Log(w.sys), w.locals[n].device.value, e, n, m);
      ForeignEntry(w, w', n, stored);
    }
  }

  lemma DatabaseActQuiet(w: World, w': World, m: NodeId, n: NodeId)
    requires Placed(w, n) && Placed(w', n) && ActsOnDatabase(w, w', m)
    ensures AtRisk(w', n) ==> AtRisk(w, n)
  {
    if answered :| Connect(w, w', m, answered) {
      ConnectQuiet(w, w', m, n, answered);
    } else if i: nat :| Execute(w, w', m, i) {
      ExecuteQuiet(w, w', m, n, i);
    } else if unused, batch :| Scan(w, w', m, unused, batch) {
      ScanQuiet(w, w', m, n, unused, batch);
    } else if goal, last :| StartSync(w, w', m, goal, last) {
      StartSyncQuiet(w, w', m, n, goal, last);
    } else if FinishSync(w, w', m) {
      FinishSyncQuiet(w, w', m, n);
    } else if Reopens(w, w', m) {
      ReopensQuiet(w, w', m, n);
    } else {
      StagingStepsQuiet(w, w', m, n);
    }
  }

  lemma PushRisks(w: World, w': World, n: NodeId, ps: seq<Path>, batch: seq<Op>)
    requires Placed(w, n) && Placed(w', n) && BeginPush(w, w', n, ps, batch) && !Risky(w, w', n)
    ensures AtRisk(w', n) ==> AtRisk(w, n)
  {
    var l, d, r := w.locals[n], w.locals[n].device.value, Request(batch, LogLength(w), [], false);
    forall h | Promises(r, h) ensures h in l.objects && AddsSome(batch, h) {
      var k :| 0 <= k < |batch| && Adds(batch[k], h);
      assert ps[k] in ps;
    }
    if h :| MayOwn(Log(w'.sys), d, w'.locals[n], h) && MayLose(w'.locals[n], h) {
      SentPromises(l.calls, r, h);
      assert MayOwn(Log(w.sys), d, l, h) && MayLose(l, h);
    }
  }

  lemma AnnounceRisks(w: World, w': World, n: NodeId, g: Hash)
    requires Placed(w, n) && Placed(w', n) && BeginAnnounce(w, w', n, g) && !Risky(w, w', n)
    ensures AtRisk(w', n) ==> AtRisk(w, n)
  {
    var l, d := w.locals[n], w.locals[n].device.value;
    var r := Request([OwnerUpdate(g, d)], LogLength(w), [], false);
    if h :| MayOwn(Log(w'.sys), d, w'.locals[n], h) && MayLose(w'.locals[n], h) {
      SentPromises(l.calls, r, h);
      assert Promises(r, h) ==> h == g;
      assert MayOwn(Log(w.sys), d, l, h) && MayLose(l, h);
    }
  }

  lemma CloseQuiet(w: World, w': World, n: NodeId, i: nat)
    requires Placed(w, n) && Placed(w', n) && Close(w, w', n, i)
    ensures AtRisk(w', n) ==> AtRisk(w, n)
  {
    var l, l', d := w.locals[n], w'.locals[n], w.locals[n].device.value;
    if h :| MayOwn(Log(w'.sys), d, l', h) && MayLose(l', h) {
      if Promised(l'.calls, h) {
        var k :| 0 <= k < |l'.calls| && Promises(l'.calls[k], h);
        assert Promises(l.calls[k], h);
      }
      assert MayOwn(Log(w.sys), d, l, h) && MayLose(l, h);
    }
  }

  lemma AloneActRisks(w: World, w': World, n: NodeId)
    requires Placed(w, n) && Placed(w', n) && ActsAlone(w, w', n) && !Risky(w, w', n)
    ensures AtRisk(w', n) ==> AtRisk(w, n)
  {
    if ps, batch :| BeginPush(w, w', n, ps, batch) {
      PushRisks(w, w', n, ps, batch);
    } else if h :| BeginAnnounce(w, w', n, h) {
      AnnounceRisks(w, w', n, h);
    } else if h :| CallDelete(w, w', n, h) {
      if !AtRisk(w, n) { DeleteCallRisks(w, w', n, h); }
    } else if i: nat :| Close(w, w', n, i) {
      CloseQuiet(w, w', n, i);
    } else {
      StoreActQuiet(w, w', n);
    }
  }

  lemma StoreActQuiet(w: World, w': World, n: NodeId)
    requires Placed(w, n) && Placed(w', n)
    requires || Abort(w, w', n) || EndAnnounce(w, w', n)
             || (exists h :: StoreObject(w, w', n, h) || PullObject(w, w', n, h) || LoseDelete(w, w', n, h))
             || (exists h, more :: ExecuteDelete(w, w', n, h, more))
    ensures AtRisk(w', n) ==> AtRisk(w, n)
  {
    if h, more :| ExecuteDelete(w, w', n, h, more) {
      DeleteKeepsSafe(w, w', n, h, more);
    } else {
      QuietStep(w, w', n);
    }
  }

  // Of a node that is not at risk, a step of anybody puts it there if and only if it is one
  // of the three.
  lemma RiskStepIff(w: World, w': World, m: NodeId, n: NodeId)
    requires Placed(w, n) && !AtRisk(w, n) && Acts(w, w', m)
    ensures Placed(w', n) && (AtRisk(w', n) <==> Risky(w, w', n))
  {
    ActKeeps(w, w', m);
    ActShape(w, w', m);
    if Risky(w, w', n) {
      RiskyIsRisk(w, w', n);
    } else {
      OtherActQuiet(w, w', m, n);
    }
  }

  lemma OtherActQuiet(w: World, w': World, m: NodeId, n: NodeId)
    requires Placed(w, n) && Placed(w', n) && Acts(w, w', m) && !Risky(w, w', n)
    ensures AtRisk(w', n) ==> AtRisk(w, n)
  {
    if ActsOnDatabase(w, w', m) {
      DatabaseActQuiet(w, w', m, n);
    } else if m == n {
      AloneActRisks(w, w', n);
    } else {
      AloneActShape(w, w', m);
      QuietStep(w, w', n);
    }
  }

  lemma OnlyConnectNames(w: World, w': World, m: NodeId, n: NodeId)
    requires n in w.locals && n in w'.locals && w.locals[n].device == None && w'.locals[n].device.Some?
             && Acts(w, w', m)
    ensures m == n && exists answered :: Connect(w, w', n, answered)
  {
    ActShape(w, w', m);
  }

  // A node that is given its device id has nothing to lose yet.
  lemma FirstConnect(w: World, w': World, m: NodeId, n: NodeId)
    requires WorldInv(w) && n in w.locals && w.locals[n].device == None && Acts(w, w', m) && Placed(w', n)
    ensures !AtRisk(w', n)
  {
    OnlyConnectNames(w, w', m, n);
    var answered :| Connect(w, w', n, answered);
    ActorOk(w, n);
    var d, id := RegisterAdvances(w.sys, n);
    var log, log' := Log(w.sys), Log(w'.sys);
    if w'.sys != w.sys { assert log' == log + [DeviceUpdate(id, n)]; }
    UnknownDevice(log, log', w.sys.main, w.sys.dbs, w.locals, w.sys.replies, n, id, |log'|);
    assert log'[..|log'|] == log' && w'.locals[n] == w.locals[n].(device := Some(id));
  }

  // ----- Over whole runs --------------------------------------------------------------------

  // The node has no device id yet or is not at risk.
  ghost predicate Clear(w: World, n: NodeId) {
    WorldInv(w) && n in w.locals && (w.locals[n].device.Some? ==> Placed(w, n) && !AtRisk(w, n))
  }

  ghost predicate RiskyAt(tr: seq<World>, t: nat, n: NodeId) { t + 1 < |tr| && Risky(tr[t], tr[t + 1], n) }

  lemma ClearStep(w: World, w': World, n: NodeId)
    requires Clear(w, n) && NextWorld(w, w')
    ensures Clear(w', n) <==> !Risky(w, w', n)
  {
    var m :| Acts(w, w', m);
    ActKeeps(w, w', m);
    ActShape(w, w', m);
    if w.locals[n].device.Some? {
      RiskStepIff(w, w', m, n);
    } else if w'.locals[n].device.Some? {
      FirstConnect(w, w', m, n);
    }
  }

  lemma {:induction false} ClearUntilRisky(tr: seq<World>, t: nat, n: NodeId)
    requires WorldRun(tr) && t < |tr| && n in tr[0].locals
    requires forall k {:trigger RiskyAt(tr, k, n)} | 0 <= k < t :: !RiskyAt(tr, k, n)
    ensures Clear(tr[t], n)
  {
    if t == 0 {
      WorldReachable(tr, 0);
    } else {
      ClearUntilRisky(tr, t - 1, n);
      assert WorldStep(tr, t - 1) && !RiskyAt(tr, t - 1, n);
      ClearStep(tr[t - 1], tr[t], n);
    }
  }

  // What the log says a node owns is in its store at every moment of a run, and at every
  // moment of whatever the servers may still do after any moment of it, if and only if no
  // step of the run asks for the delete of an object the node owns or is about to, nor sends
  // a push or an announcement of one it has a delete outstanding for.
  lemma OwnershipSoundIff(tr: seq<World>, n: NodeId)
    requires WorldRun(tr) && n in tr[0].locals
    ensures (forall t, run | 0 <= t < |tr| && ServerRun(run, tr[t], n) :: !Unsound(run[|run| - 1], n))
            <==> forall t | 0 <= t < |tr| - 1 :: !RiskyAt(tr, t, n)
  {
    if forall t | 0 <= t < |tr| - 1 :: !RiskyAt(tr, t, n) {
      forall t, run | 0 <= t < |tr| && ServerRun(run, tr[t], n) ensures !Unsound(run[|run| - 1], n) {
        ClearUntilRisky(tr, t, n);
        ClearMeansSound(run, tr[t], n);
      }
    } else {
      var t: nat :| t < |tr| - 1 && RiskyAt(tr, t, n);
      var u := FirstRisky(tr, t, n);
      ClearUntilRisky(tr, u, n);
      assert WorldStep(tr, u);
      ClearStep(tr[u], tr[u + 1], n);
      assert !Clear(tr[u + 1], n);
      WorldReachable(tr, u + 1);
      KeepsNode(tr, u + 1, n);
      var run := RiskRealised(tr[u + 1], n);
      assert ServerRun(run, tr[u + 1], n) && Unsound(run[|run| - 1], n);
    }
  }

  lemma ClearMeansSound(run: seq<World>, w: World, n: NodeId)
    requires Clear(w, n) && ServerRun(run, w, n)
    ensures !Unsound(run[|run| - 1], n)
  {
    if w.locals[n].device.Some? {
      RiskIff(w, n);
    } else {
      ActorOk(w, n);
      NoCallsNoSteps(run, w, n);
    }
  }

  // A node without a device id has sent nothing the servers could still carry out.
  lemma NoCallsNoSteps(run: seq<World>, w: World, n: NodeId)
    requires ServerRun(run, w, n) && n in w.locals && w.locals[n].device == None
    requires w.locals[n].calls == [] && w.locals[n].deletes == {}
    ensures run == [w]
  {
    assert !ServerStep(run[0], if |run| > 1 then run[0 + 1] else w, n);
  }

  lemma {:induction false} FirstRisky(tr: seq<World>, t: nat, n: NodeId) returns (u: nat)
    requires RiskyAt(tr, t, n)
    ensures u <= t && RiskyAt(tr, u, n)
    ensures forall k {:trigger RiskyAt(tr, k, n)} | 0 <= k < u :: !RiskyAt(tr, k, n)
  {
    if k: nat :| k < t && RiskyAt(tr, k, n) {
      u := FirstRisky(tr, k, n);
    } else {
      u := t;
    }
  }

  lemma {:induction false} KeepsNode(tr: seq<World>, t: nat, n: NodeId)
    requires WorldRun(tr) && t < |tr| && n in tr[0].locals
    ensures n in tr[t].locals
  {
    if t > 0 {
      KeepsNode(tr, t - 1, n);
      assert WorldStep(tr, t - 1);
      var m :| Acts(tr[t - 1], tr[t], m);
      ActShape(tr[t - 1], tr[t], m);
    }
  }
}
