// One coordinator and any number of replicas. A reply to UpdateDB, once produced, may be
// delivered late, more than once, or never; commands of one node may run side by side.
// Theorems about every reachable state are at the end.
module Replication {
  import opened Basics
  import opened Wal
  import opened Store
  import opened LogFacts
  import opened NodeInvariant

  type NodeId = Address

  datatype Reply = Reply(to: NodeId, last: nat, entries: seq<WalEntry>)

  datatype System = System(main: NodeId, dbs: map<NodeId, Db>, replies: set<Reply>, history: map<NodeId, History>)

  datatype Step =
    | Register(address: Address)
    | Push(op: Op)
    | Fetch(node: NodeId, last: nat)
    | Deliver(reply: Reply)
    | Cleanup(node: NodeId, paths: seq<Path>, keep: nat)
    | Reopen(node: NodeId)
    | Restage(node: NodeId, staging: map<Path, Staged>)

  ghost predicate Init(s: System) {
    && s.main in s.dbs
    && (forall n | n in s.dbs :: s.dbs[n] == FRESH)
    && s.replies == {}
    && s.history == map n | n in s.dbs :: UNTOUCHED
  }

  predicate Known(s: System, n: NodeId) { n in s.dbs && n in s.history }

  // A request carries the sequence id its node had when it was sent, 0 when connecting.
  ghost predicate Enabled(s: System, step: Step) {
    match step
    case Register(_) => true
    case Push(op) => !op.DeviceUpdate?
    case Fetch(n, last) => n in s.dbs && last <= LastSeq(s.dbs[n].wal)
    case Deliver(r) => r in s.replies && Known(s, r.to)
    case Cleanup(n, _, _) => Known(s, n)
    case Reopen(n) => Known(s, n)
    case Restage(n, _) => n in s.dbs
  }

  // The reply ends before what the node has applied since it asked.
  predicate Stale(db: Db, r: Reply) { r.last + |r.entries| < LastSeq(db.wal) }

  function SpokenPaths(es: seq<WalEntry>): set<Path> {
    set e | e in es && (e.op.FileUpdate? || e.op.FileDelete?) :: e.op.path
  }

  // A reply never makes up for versions the main node itself started over.
  ghost function Delivered(s: System, r: Reply): System
    requires Known(s, r.to)
  {
    var db := s.dbs[r.to];
    match ApplyEntries(db, r.entries)
    case Err => s
    case Ok(d) =>
      var seen := if r.to == s.main then {} else SpokenPaths(r.entries);
      s.(dbs := s.dbs[r.to := d],
         history := s.history[r.to := AfterReply(s.history[r.to], Stale(db, r), d.tables != db.tables, seen)])
  }

  ghost function Cleaned(s: System, n: NodeId, ps: seq<Path>, keep: nat): System
    requires Known(s, n)
  {
    var db := s.dbs[n];
    var files := CleanupPaths(db.tables.files, ps, keep);
    s.(dbs := s.dbs[n := db.(tables := db.tables.(files := files))],
       history := s.history[n := AfterCleanup(s.history[n], files != db.tables.files, ps, keep)])
  }

  ghost function Reopened(s: System, n: NodeId): System
    requires Known(s, n)
  {
    var d := Backfill(s.dbs[n]);
    s.(dbs := s.dbs[n := d],
       history := s.history[n := s.history[n].(pristine := s.history[n].pristine && d == s.dbs[n])])
  }

  ghost function Do(s: System, step: Step): System
    requires s.main in s.dbs && Enabled(s, step)
  {
    var master := s.dbs[s.main];
    match step
    case Register(a) =>
      (match RegisterDevice(master, a)
       case Err => s
       case Ok(r) => s.(dbs := s.dbs[s.main := r.0]))
    case Push(op) =>
      (match AddEntry(master, op)
       case Err => s
       case Ok(d) => s.(dbs := s.dbs[s.main := d]))
    case Fetch(n, last) => s.(replies := s.replies + {Reply(n, last, EntriesSince(master.wal, last))})
    case Deliver(r) => Delivered(s, r)
    case Cleanup(n, ps, keep) => Cleaned(s, n, ps, keep)
    case Reopen(n) => Reopened(s, n)
    case Restage(n, staging) => s.(dbs := s.dbs[n := s.dbs[n].(staging := staging)])
  }

  ghost predicate Next(s: System, s': System) {
    s.main in s.dbs && exists step :: Enabled(s, step) && s' == Do(s, step)
  }

  ghost predicate Run(tr: seq<System>) {
    tr != [] && Init(tr[0]) && forall i {:trigger RunStep(tr, i)} | 0 <= i < |tr| - 1 :: RunStep(tr, i)
  }

  ghost predicate RunStep(tr: seq<System>, i: nat)
    requires i + 1 < |tr|
  {
    Next(tr[i], tr[i + 1])
  }

  lemma RunExtends(tr: seq<System>, s: System)
    requires Run(tr) && Next(tr[|tr| - 1], s)
    ensures Run(tr + [s])
  {
    forall i | 0 <= i < |tr| ensures RunStep(tr + [s], i) {
      if i < |tr| - 1 { assert RunStep(tr, i); }
    }
  }

  // ----- The invariant ---------------------------------------------------------------

  ghost predicate MainHasLog(s: System) { s.main in s.dbs && GapFree(s.dbs[s.main].wal) }

  ghost function Log(s: System): seq<Op>
    requires MainHasLog(s)
  {
    LogOf(s.dbs[s.main].wal)
  }

  ghost predicate ReplyOk(r: Reply, dbs: map<NodeId, Db>, log: seq<Op>) {
    && r.to in dbs && r.last <= |dbs[r.to].wal| && r.last + |r.entries| <= |log|
    && r.entries == Numbered(log, r.last, r.last + |r.entries|)
  }

  ghost predicate Whole(s: System) { MainHasLog(s) && s.dbs.Keys == s.history.Keys }

  // The paths the main node has cleaned up with keep 0.
  ghost function Reset(s: System): set<Path>
    requires Whole(s)
  {
    s.history[s.main].gone
  }

  ghost predicate NodeOk(s: System, n: NodeId)
    requires Whole(s) && n in s.dbs
  {
    NodeInv(s.dbs[n], Log(s), Reset(s), s.history[n])
  }

  ghost predicate Inv(s: System) {
    && Whole(s)
    && LogInv(Log(s), Reset(s))
    && (forall n {:trigger NodeOk(s, n)} | n in s.dbs :: NodeOk(s, n))
    && (forall r {:trigger ReplyOk(r, s.dbs, Log(s))} | r in s.replies :: ReplyOk(r, s.dbs, Log(s)))
  }

  lemma InitInv(s: System)
    requires Init(s)
    ensures Inv(s)
  {
    assert Log(s) == [];
    forall n | n in s.dbs ensures NodeOk(s, n) {
      assert FRESH.wal == map[] && LogOf(FRESH.wal) == [] && Log(s)[..0] == [];
    }
  }

  // The invariant carries over, the log grew at its end only, and so did every prefix.
  ghost predicate Advances(s: System, s': System)
    requires Inv(s)
  {
    && Inv(s') && s'.main == s.main && Log(s) <= Log(s')
    && forall n | n in s.dbs :: n in s'.dbs && |s.dbs[n].wal| <= |s'.dbs[n].wal|
  }

  // The main node's log grew by one entry and nothing else changed.
  lemma MainGrew(s: System, d: Db, stored: Op)
    requires Inv(s) && LogInv(Log(s) + [stored], Reset(s))
    requires NodeInv(d, Log(s) + [stored], Reset(s), s.history[s.main])
    requires |d.wal| == |Log(s)| + 1
    ensures Advances(s, s.(dbs := s.dbs[s.main := d]))
    ensures Log(s.(dbs := s.dbs[s.main := d])) == Log(s) + [stored]
  {
    var s' := s.(dbs := s.dbs[s.main := d]);
    var longer := Log(s) + [stored];
    assert Log(s') == longer by { assert longer[..|d.wal|] == longer; }
    forall n | n in s'.dbs ensures NodeOk(s', n) {
      if n != s.main { OthersKeep(s, n, longer); }
    }
    forall r | r in s'.replies ensures ReplyOk(r, s'.dbs, longer) {
      RepliesKeep(s, r, d, longer);
    }
    MainIsWhole(s);
  }

  lemma OthersKeep(s: System, n: NodeId, longer: seq<Op>)
    requires Inv(s) && n in s.dbs && Log(s) <= longer
    ensures NodeInv(s.dbs[n], longer, Reset(s), s.history[n])
  {
    assert NodeOk(s, n);
    NodeGrows(s.dbs[n], Log(s), longer, Reset(s), s.history[n]);
  }

  lemma RepliesKeep(s: System, r: Reply, d: Db, longer: seq<Op>)
    requires Inv(s) && r in s.replies && Log(s) <= longer && |s.dbs[s.main].wal| <= |d.wal|
    ensures ReplyOk(r, s.dbs[s.main := d], longer)
  {
    assert ReplyOk(r, s.dbs, Log(s));
    assert Numbered(longer, r.last, r.last + |r.entries|) == Numbered(Log(s), r.last, r.last + |r.entries|);
  }

  // One node changed its tables or grew within the log, which stayed as it was.
  lemma NodeChanged(s: System, s': System, n: NodeId)
    requires Inv(s) && n in s.dbs && Known(s', n) && s'.main == s.main && s'.replies == s.replies
    requires s'.dbs == s.dbs[n := s'.dbs[n]] && s'.history == s.history[n := s'.history[n]]
    requires s.history[s.main].gone <= s'.history[s.main].gone
    requires |s.dbs[n].wal| <= |s'.dbs[n].wal| && (n == s.main ==> |s'.dbs[n].wal| == |Log(s)|)
    requires NodeInv(s'.dbs[n], Log(s), Reset(s), s'.history[n])
    ensures Advances(s, s') && Log(s') == Log(s)
  {
    if n == s.main { assert Log(s)[..|Log(s)|] == Log(s); }
    assert Log(s') == Log(s);
    forall m | m in s'.dbs ensures NodeOk(s', m) {
      assert NodeOk(s, m);
      NodeLoses(s'.dbs[m], Log(s), Reset(s), s'.history[m], Reset(s'));
    }
    forall r | r in s'.replies ensures ReplyOk(r, s'.dbs, Log(s)) {
      assert ReplyOk(r, s.dbs, Log(s));
    }
  }

  lemma MainIsWhole(s: System)
    requires Inv(s)
    ensures |s.dbs[s.main].wal| == |Log(s)| && LastSeq(s.dbs[s.main].wal) == |Log(s)|
    ensures NodeInv(s.dbs[s.main], Log(s), Reset(s), s.history[s.main])
  {
    assert NodeOk(s, s.main);
    LastSeqIsSize(s.dbs[s.main].wal);
  }

  // What a request may be answered with: the entries after the id it carries.
  lemma FetchedEntries(s: System, n: NodeId, last: nat)
    requires Inv(s) && n in s.dbs && last <= LastSeq(s.dbs[n].wal)
    ensures last <= |s.dbs[n].wal| <= |Log(s)|
    ensures EntriesSince(s.dbs[s.main].wal, last) == Numbered(Log(s), last, |Log(s)|)
  {
    assert NodeOk(s, n);
    LastSeqIsSize(s.dbs[n].wal);
    MainIsWhole(s);
    SelectedEntries(s.dbs[s.main].wal, last, |Log(s)|);
  }

  ghost function SeenBy(s: System, r: Reply): set<Path> { if r.to == s.main then {} else SpokenPaths(r.entries) }

  lemma SeenInSegment(log: seq<Op>, i: nat, j: nat)
    requires i <= j <= |log|
    ensures forall p | p in SpokenPaths(Numbered(log, i, j)) :: SpokenOf(log[i..j], p)
  {
    var es := Numbered(log, i, j);
    forall p | p in SpokenPaths(es) ensures SpokenOf(log[i..j], p) {
      var x :| 0 <= x < |es| && OnPath(es[x].op, p);
      assert OnPath(log[i..j][x], p);
    }
  }

  lemma DeliveryApplies(s: System, r: Reply) returns (d: Db, j: nat)
    requires Inv(s) && r in s.replies
    ensures ReplyOk(r, s.dbs, Log(s)) && ApplyEntries(s.dbs[r.to], r.entries) == Ok(d)
    ensures j == r.last + |r.entries| <= |Log(s)|
    ensures |d.wal| == Larger(|s.dbs[r.to].wal|, j) && d.staging == s.dbs[r.to].staging
    ensures d.tables == Replay(s.dbs[r.to].tables, Log(s)[r.last..j])
    ensures NodeInv(d, Log(s), Reset(s),
                    AfterReply(s.history[r.to], j < |s.dbs[r.to].wal|, d.tables != s.dbs[r.to].tables, SeenBy(s, r)))
  {
    j := r.last + |r.entries|;
    assert ReplyOk(r, s.dbs, Log(s)) && NodeOk(s, r.to);
    SeenInSegment(Log(s), r.last, j);
    var after;
    d, after := NodeDelivers(s.dbs[r.to], Log(s), r.last, j, Reset(s), s.history[r.to], SeenBy(s, r));
  }

  lemma DeliverAdvances(s: System, r: Reply) returns (d: Db)
    requires Inv(s) && r in s.replies
    ensures ReplyOk(r, s.dbs, Log(s)) && ApplyEntries(s.dbs[r.to], r.entries) == Ok(d)
    ensures Advances(s, Delivered(s, r))
    ensures Log(Delivered(s, r)) == Log(s)
  {
    var j;
    d, j := DeliveryApplies(s, r);
    NodeSize(s, r.to);
    assert Stale(s.dbs[r.to], r) <==> j < |s.dbs[r.to].wal|;
    var s' := Delivered(s, r);
    assert s'.dbs[r.to] == d;
    NodeChanged(s, s', r.to);
  }

  lemma NodeSize(s: System, n: NodeId)
    requires Inv(s) && n in s.dbs
    ensures GapFree(s.dbs[n].wal) && LastSeq(s.dbs[n].wal) == |s.dbs[n].wal| <= |Log(s)|
    ensures n == s.main ==> |s.dbs[n].wal| == |Log(s)|
  {
    assert NodeOk(s, n);
    LastSeqIsSize(s.dbs[n].wal);
  }

  lemma RegisterAdvances(s: System, a: Address) returns (d: Db, id: DeviceId)
    requires Inv(s)
    ensures Advances(s, Do(s, Register(a)))
    ensures RegisterDevice(s.dbs[s.main], a) == Ok((d, id)) && DeviceUpdate(id, a) in Log(Do(s, Register(a)))
    ensures d.staging == s.dbs[s.main].staging
    ensures Do(s, Register(a)) == s || MainTook(s, Do(s, Register(a)), d, DeviceUpdate(id, a))
  {
    MainIsWhole(s);
    d, id := MainRegisters(s.dbs[s.main], Log(s), a, Reset(s), s.history[s.main]);
    if d == s.dbs[s.main] {
      assert Do(s, Register(a)) == s;
    } else {
      MainGrew(s, d, DeviceUpdate(id, a));
      assert Log(Do(s, Register(a)))[|Log(s)|] == DeviceUpdate(id, a);
    }
  }

  // The main node took one entry in and nothing else happened.
  ghost predicate MainTook(s: System, s': System, d: Db, op: Op)
    requires Inv(s) && Inv(s')
  {
    && s' == s.(dbs := s.dbs[s.main := d]) && Log(s') == Log(s) + [op]
    && |s.dbs[s.main].wal| == |Log(s)| && |d.wal| == |Log(s)| + 1
    && d.tables == ApplyOp(s.dbs[s.main].tables, op) && d.staging == s.dbs[s.main].staging
  }

  lemma PushAdvances(s: System, op: Op) returns (d: Db)
    requires Inv(s) && !op.DeviceUpdate?
    ensures Advances(s, Do(s, Push(op)))
    ensures MainTook(s, Do(s, Push(op)), d, Stamp(op, s.dbs[s.main].tables.files))
  {
    MainIsWhole(s);
    d := MainPushes(s.dbs[s.main], Log(s), op, Reset(s), s.history[s.main]);
    MainGrew(s, d, Stamp(op, s.dbs[s.main].tables.files));
  }

  lemma FetchAdvances(s: System, n: NodeId, last: nat)
    requires Inv(s) && n in s.dbs && last <= LastSeq(s.dbs[n].wal)
    ensures Advances(s, Do(s, Fetch(n, last))) && Log(Do(s, Fetch(n, last))) == Log(s)
  {
    FetchedEntries(s, n, last);
    var s' := Do(s, Fetch(n, last));
    forall m | m in s'.dbs ensures NodeOk(s', m) { assert NodeOk(s, m); }
    forall r | r in s'.replies ensures ReplyOk(r, s'.dbs, Log(s)) {
      if r in s.replies { assert ReplyOk(r, s.dbs, Log(s)); }
    }
  }

  lemma CleanupAdvances(s: System, n: NodeId, ps: seq<Path>, keep: nat)
    requires Inv(s) && n in s.dbs
    ensures Advances(s, Cleaned(s, n, ps, keep)) && Log(Cleaned(s, n, ps, keep)) == Log(s)
  {
    assert NodeOk(s, n);
    NodeForgets(s.dbs[n], Log(s), Reset(s), s.history[n], ps, keep);
    NodeChanged(s, Cleaned(s, n, ps, keep), n);
  }

  lemma ReopenAdvances(s: System, n: NodeId)
    requires Inv(s) && n in s.dbs
    ensures Advances(s, Do(s, Reopen(n))) && Log(Do(s, Reopen(n))) == Log(s)
  {
    assert NodeOk(s, n);
    NodeReopens(s.dbs[n], Log(s), Reset(s), s.history[n]);
    NodeChanged(s, Do(s, Reopen(n)), n);
  }

  lemma RestageAdvances(s: System, n: NodeId, staging: map<Path, Staged>)
    requires Inv(s) && n in s.dbs
    ensures Advances(s, Do(s, Restage(n, staging))) && Log(Do(s, Restage(n, staging))) == Log(s)
  {
    assert NodeOk(s, n);
    NodeChanged(s, Do(s, Restage(n, staging)), n);
  }

  lemma StepAdvances(s: System, step: Step)
    requires Inv(s) && Enabled(s, step)
    ensures Advances(s, Do(s, step))
  {
    match step {
      case Register(a) => var d, id := RegisterAdvances(s, a);
      case Push(op) => var d := PushAdvances(s, op);
      case Fetch(n, last) => FetchAdvances(s, n, last);
      case Deliver(r) => var d := DeliverAdvances(s, r);
      case Cleanup(n, ps, keep) => CleanupAdvances(s, n, ps, keep);
      case Reopen(n) => ReopenAdvances(s, n);
      case Restage(n, staging) => RestageAdvances(s, n, staging);
    }
  }

  lemma {:induction false} ReachableInv(tr: seq<System>, t: nat)
    requires Run(tr) && t < |tr|
    ensures Inv(tr[t]) && tr[t].main == tr[0].main
  {
    if t == 0 {
      InitInv(tr[0]);
    } else {
      ReachableInv(tr, t - 1);
      assert RunStep(tr, t - 1);
      var step :| Enabled(tr[t - 1], step) && tr[t] == Do(tr[t - 1], step);
      StepAdvances(tr[t - 1], step);
    }
  }

  // ----- Theorems over whole runs -----------------------------------------------------

  // Every node's log table is a gap-free prefix 1 .. k of the coordinator's.
  lemma PrefixReplication(tr: seq<System>, t: nat, n: NodeId)
    requires Run(tr) && t < |tr| && n in tr[t].dbs
    ensures MainHasLog(tr[t]) && GapFree(tr[t].dbs[n].wal)
    ensures LogOf(tr[t].dbs[n].wal) <= Log(tr[t])
  {
    ReachableInv(tr, t);
    assert NodeOk(tr[t], n);
  }

  lemma StepGrows(s: System, s': System, n: NodeId)
    requires Inv(s) && Next(s, s') && n in s.dbs
    ensures n in s'.dbs && GapFree(s.dbs[n].wal) && GapFree(s'.dbs[n].wal)
    ensures LogOf(s.dbs[n].wal) <= LogOf(s'.dbs[n].wal)
  {
    var step :| Enabled(s, step) && s' == Do(s, step);
    StepAdvances(s, step);
    assert NodeOk(s, n) && NodeOk(s', n);
    assert |LogOf(s.dbs[n].wal)| <= |LogOf(s'.dbs[n].wal)|;
  }

  // No node ever drops or rewrites a log entry, the coordinator included.
  lemma {:induction false} LogsOnlyGrow(tr: seq<System>, t: nat, u: nat, n: NodeId)
    requires Run(tr) && t <= u < |tr| && n in tr[t].dbs
    ensures GapFree(tr[t].dbs[n].wal) && n in tr[u].dbs && GapFree(tr[u].dbs[n].wal)
    ensures LogOf(tr[t].dbs[n].wal) <= LogOf(tr[u].dbs[n].wal)
  {
    if t < u {
      LogsOnlyGrow(tr, t, u - 1, n);
      ReachableInv(tr, u - 1);
      assert RunStep(tr, u - 1);
      StepGrows(tr[u - 1], tr[u], n);
    } else {
      PrefixReplication(tr, t, n);
    }
  }

  // A sync no push comes between leaves the node with the coordinator's whole log.
  lemma SyncCatchesUp(tr: seq<System>, t: nat, n: NodeId) returns (s': System)
    requires Run(tr) && t < |tr| && n in tr[t].dbs
    ensures var s := tr[t];
            var fetch := Fetch(n, LastSeq(s.dbs[n].wal));
            && s.main in s.dbs && Enabled(s, fetch)
            && var r := Reply(n, LastSeq(s.dbs[n].wal), EntriesSince(s.dbs[s.main].wal, LastSeq(s.dbs[n].wal)));
            && Enabled(Do(s, fetch), Deliver(r)) && s' == Do(Do(s, fetch), Deliver(r))
    ensures n in s'.dbs && s'.main in s'.dbs && s'.dbs[n].wal == s'.dbs[s'.main].wal
  {
    var s := tr[t];
    ReachableInv(tr, t);
    var last := LastSeq(s.dbs[n].wal);
    FetchedEntries(s, n, last);
    var mid := Do(s, Fetch(n, last));
    StepAdvances(s, Fetch(n, last));
    var r := Reply(n, last, EntriesSince(s.dbs[s.main].wal, last));
    var d, _ := DeliveryApplies(mid, r);
    var _ := DeliverAdvances(mid, r);
    s' := Do(mid, Deliver(r));
    assert NodeOk(s', n) && NodeOk(s', s'.main);
    MainIsWhole(s');
    SameLogSameWal(s'.dbs[n].wal, s'.dbs[s'.main].wal);
  }

  lemma SameLogSameWal(v: map<nat, Op>, w: map<nat, Op>)
    requires GapFree(v) && GapFree(w) && |v| == |w| && LogOf(v) == LogOf(w)
    ensures v == w
  {
    forall i | i in v ensures i in w && v[i] == w[i] {
      assert LogOf(v)[i - 1] == LogOf(w)[i - 1];
    }
    assert forall i :: i in v <==> i in w;
  }

  // Nodes with logs of one length have equal tables, the fold of the common prefix, however
  // their replies were cut up, as long as no cleanup, reopen or stale reply changed either.
  lemma PristineConverge(tr: seq<System>, t: nat, n: NodeId, m: NodeId)
    requires Run(tr) && t < |tr| && n in tr[t].dbs && m in tr[t].dbs && |tr[t].dbs[n].wal| == |tr[t].dbs[m].wal|
    ensures Whole(tr[t])
    ensures var s := tr[t];
            s.history[n].pristine && s.history[m].pristine ==>
              && s.dbs[n].tables == s.dbs[m].tables
              && GapFree(s.dbs[n].wal) && s.dbs[n].tables == Fold(LogOf(s.dbs[n].wal))
  {
    ReachableInv(tr, t);
    assert NodeOk(tr[t], n) && NodeOk(tr[t], m);
  }

  // However often a node reopened its database and whatever stale replies it got: its
  // device rows are those of its prefix, and so are its file rows of every path the main
  // node did not start over, all of them if no cleanup of the node removed one.
  lemma FilesAndDevicesExact(tr: seq<System>, t: nat, n: NodeId, k: FileKey)
    requires Run(tr) && t < |tr| && n in tr[t].dbs
    ensures Whole(tr[t]) && GapFree(tr[t].dbs[n].wal)
    ensures var s := tr[t];
            var own, tables := Fold(LogOf(s.dbs[n].wal)), s.dbs[n].tables;
            && tables.devices == own.devices
            && (k.path !in Reset(s) && k in tables.files ==> k in own.files && tables.files[k] == own.files[k])
            && (k.path !in Reset(s) && s.history[n].whole ==> (k in tables.files <==> k in own.files))
  {
    var s := tr[t];
    ReachableInv(tr, t);
    assert NodeOk(s, n);
    var own, tables := LogOf(s.dbs[n].wal), s.dbs[n].tables;
    ReadReplay(EMPTY, own, FileCell(k));
    forall d ensures Read(tables, DeviceCell(d)) == Read(Fold(own), DeviceCell(d)) {
      ReadReplay(EMPTY, own, DeviceCell(d));
    }
    assert tables.devices == Fold(own).devices by {
      SameReads(EMPTY.(devices := tables.devices), EMPTY.(devices := Fold(own).devices));
    }
    if k in Fold(own).files { assert Read(Fold(own), FileCell(k)) == Row(Fold(own).files[k]); }
    if k in tables.files && k.path !in Reset(s) { assert LastWrite(own, FileCell(k)) == Writes(Row(tables.files[k])); }
  }

  // Whatever happened to a node, fetching from 0 and applying the answer gives exactly
  // the tables of the whole log.
  lemma ReconnectHeals(tr: seq<System>, t: nat, n: NodeId)
    requires Run(tr) && t < |tr| && n in tr[t].dbs
    ensures MainHasLog(tr[t])
    ensures var r := ApplyEntries(tr[t].dbs[n], EntriesSince(tr[t].dbs[tr[t].main].wal, 0));
            r.Ok? && r.value.tables == Fold(Log(tr[t])) && r.value.wal == tr[t].dbs[tr[t].main].wal
  {
    var s := tr[t];
    ReachableInv(tr, t);
    assert NodeOk(s, n);
    FetchedEntries(s, n, 0);
    var all := |Log(s)|;
    var d, _ := NodeDelivers(s.dbs[n], Log(s), 0, all, Reset(s), s.history[n], {});
    assert Log(s)[0..all] == Log(s) && Log(s)[..all] == Log(s);
    var t0 := s.dbs[n].tables;
    forall c | Read(t0, c) != Absent ensures Touched(Log(s), c) {
      var i :| 0 <= i < |s.dbs[n].wal| && EffectOn(Log(s)[..|s.dbs[n].wal|][i], c) == Writes(Read(t0, c));
      WriterTouches(Log(s), i, c);
    }
    FullReplayHeals(t0, Log(s));
    MainIsWhole(s);
    SameLogSameWal(d.wal, s.dbs[s.main].wal);
  }

  // The owner table lies between the owners the applied prefix leaves standing and the
  // pairs it ever named; the lower bound needs replies applied in order.
  lemma OwnerBounds(tr: seq<System>, t: nat, n: NodeId, o: Claim)
    requires Run(tr) && t < |tr| && n in tr[t].dbs
    ensures GapFree(tr[t].dbs[n].wal)
    ensures o in tr[t].dbs[n].tables.owners ==> exists i | 0 <= i < |tr[t].dbs[n].wal| ::
            EffectOn(LogOf(tr[t].dbs[n].wal)[i], OwnerCell(o)) == Writes(Owned)
    ensures n in tr[t].history
    ensures tr[t].history[n].ordered && Live(LogOf(tr[t].dbs[n].wal), o) ==> o in tr[t].dbs[n].tables.owners
  {
    ReachableInv(tr, t);
    assert NodeOk(tr[t], n);
    if o in tr[t].dbs[n].tables.owners {
      assert Read(tr[t].dbs[n].tables, OwnerCell(o)) == Owned;
    }
  }

  // The entries of a path carry the versions 1, 2, 3, ..., each once, and the main
  // node's newest row carries their number, unless the main node cleaned the path up
  // with keep 0.
  lemma DenseVersions(tr: seq<System>, t: nat, p: Path)
    requires Run(tr) && t < |tr|
    ensures Whole(tr[t])
    ensures p !in Reset(tr[t]) ==>
      && Dense(Log(tr[t]), p)
      && MaxVersion(tr[t].dbs[tr[t].main].tables.files, p) == Count(Log(tr[t]), p)
      && forall i, j | 0 <= i < |Log(tr[t])| && 0 <= j < |Log(tr[t])| && OnPath(Log(tr[t])[i], p)
                       && OnPath(Log(tr[t])[j], p) && Log(tr[t])[i].version == Log(tr[t])[j].version :: i == j
  {
    var s := tr[t];
    ReachableInv(tr, t);
    if p !in Reset(s) {
      MainIsWhole(s);
      assert Log(s)[..|Log(s)|] == Log(s);
      NewestRow(s.dbs[s.main].tables, Log(s), Reset(s), Reset(s), p);
      forall i | 0 <= i < |Log(s)| && OnPath(Log(s)[i], p)
        ensures forall j | 0 <= j < |Log(s)| && OnPath(Log(s)[j], p) && Log(s)[j].version == Log(s)[i].version ::
                  j == i
      {
        DenseWriter(Log(s), i, p);
      }
    }
  }

  // The newest-version view of a node is the last word of its applied prefix on each
  // path, whatever rows cleanups with keep >= 1 removed and in whatever order replies came.
  // A node that cleaned the path up with keep 0 is excused until it hears of it again.
  lemma LatestViewRefinesLog(tr: seq<System>, t: nat, n: NodeId, p: Path)
    requires Run(tr) && t < |tr| && n in tr[t].dbs
    ensures Whole(tr[t]) && GapFree(tr[t].dbs[n].wal)
    ensures p !in tr[t].history[n].gone + Reset(tr[t]) ==>
              Latest(tr[t].dbs[n].tables.files, p) == LatestInLog(LogOf(tr[t].dbs[n].wal), p)
  {
    var s := tr[t];
    ReachableInv(tr, t);
    assert NodeOk(s, n);
    if p !in s.history[n].gone + Reset(s) {
      DensePrefix(Log(s), |s.dbs[n].wal|, p);
      ViewOf(s.dbs[n].tables, LogOf(s.dbs[n].wal), Reset(s), s.history[n].gone, p);
    }
  }

  // Hearing of it again: once a reply that is not stale has an entry for the path, the view
  // is right, whatever cleanups the node performed before.
  lemma ViewComesBack(tr: seq<System>, t: nat, r: Reply, p: Path)
    requires Run(tr) && t < |tr| && r in tr[t].replies && r.to != tr[t].main && p in SpokenPaths(r.entries)
    requires r.to in tr[t].dbs && !Stale(tr[t].dbs[r.to], r)
    ensures Whole(tr[t]) && Known(Delivered(tr[t], r), r.to) && GapFree(Delivered(tr[t], r).dbs[r.to].wal)
    ensures p !in Reset(tr[t]) ==>
              Latest(Delivered(tr[t], r).dbs[r.to].tables.files, p)
              == LatestInLog(LogOf(Delivered(tr[t], r).dbs[r.to].wal), p)
  {
    ReachableInv(tr, t);
    var d := DeliverAdvances(tr[t], r);
    var s' := Delivered(tr[t], r);
    assert NodeOk(s', r.to);
    if p !in Reset(tr[t]) {
      DensePrefix(Log(s'), |d.wal|, p);
      ViewOf(d.tables, LogOf(d.wal), Reset(s'), s'.history[r.to].gone, p);
    }
  }

  lemma ViewOf(t: Tables, own: seq<Op>, reset: set<Path>, gone: set<Path>, p: Path)
    requires RowsExact(t, own, reset) && TopPresent(t, own, reset + gone) && p !in reset + gone && Dense(own, p)
    ensures Latest(t.files, p) == LatestInLog(own, p)
  {
    NewestRow(t, own, reset, gone, p);
    if Count(own, p) == 0 {
      NoEntryNoView(own, p);
      assert Versions(t.files, p) == {} by {
        forall v | v in Versions(t.files, p) ensures false {
          assert FileKey(p, v) in t.files;
          var w := LastWriter(own, FileCell(FileKey(p, v)));
          DenseWriter(own, w, p);
        }
      }
    } else {
      var w := TopWriter(own, p);
      var k := FileKey(p, Count(own, p));
      assert k in t.files && k.version in Versions(t.files, p);
      DenseWriter(own, w, p);
    }
  }

  // Device ids and addresses of the coordinator are in one-to-one correspondence, every
  // registration in its log is one of these rows, and registering an address again
  // answers the id it already has.
  lemma DeviceRegistry(tr: seq<System>, t: nat, d: DeviceId, e: DeviceId)
    requires Run(tr) && t < |tr|
    requires tr[t].main in tr[t].dbs
    requires var ds := tr[t].dbs[tr[t].main].tables.devices; d in ds && e in ds
    ensures var master := tr[t].dbs[tr[t].main];
            && (master.tables.devices[d] == master.tables.devices[e] ==> d == e)
            && RegisterDevice(master, master.tables.devices[d]) == Ok((master, d))
  {
    var s := tr[t];
    ReachableInv(tr, t);
    MainIsWhole(s);
    var devices := s.dbs[s.main].tables.devices;
    assert Listed(devices, Log(s));
    if devices[d] == devices[e] { UniqueAddress(devices, Log(s), d, e); }
    forall x | x in IdsOf(devices, devices[d]) ensures x == d { UniqueAddress(devices, Log(s), d, x); }
    assert d in IdsOf(devices, devices[d]);
  }

  // A device row seen on any node is a row of the coordinator from then on: registrations
  // are never lost or revised, and no id is given out again for another address.
  lemma RegistrationsLast(tr: seq<System>, t: nat, u: nat, n: NodeId, d: DeviceId)
    requires Run(tr) && t <= u < |tr| && n in tr[t].dbs && d in tr[t].dbs[n].tables.devices
    ensures tr[u].main in tr[u].dbs
    ensures var ds := tr[u].dbs[tr[u].main].tables.devices;
            d in ds && ds[d] == tr[t].dbs[n].tables.devices[d]
  {
    ReachableInv(tr, t);
    ReachableInv(tr, u);
    assert NodeOk(tr[t], n);
    LogsOnlyGrow(tr, t, u, tr[t].main);
    var log, a := Log(tr[u]), tr[t].dbs[n].tables.devices[d];
    var i :| 0 <= i < |Log(tr[t])| && Log(tr[t])[i] == DeviceUpdate(d, a);
    RegistryWriter(log, i);
    MainIsWhole(tr[u]);
    assert log[..|log|] == log;
    assert Read(tr[u].dbs[tr[u].main].tables, DeviceCell(d)) == At(a);
  }

  lemma UniqueAddress(devices: map<DeviceId, Address>, log: seq<Op>, d: DeviceId, e: DeviceId)
    requires Registry(log) && Listed(devices, log) && d in devices && e in devices && devices[d] == devices[e]
    ensures d == e
  {
    var i :| 0 <= i < |log| && log[i] == DeviceUpdate(d, devices[d]);
    var j :| 0 <= j < |log| && log[j] == DeviceUpdate(e, devices[e]);
    assert i < j || j < i || i == j;
  }

  // No registration, push or delivery of a reachable state is refused by the UNIQUE
  // address constraint, so no sync is ever rolled back.
  lemma NothingClashes(tr: seq<System>, t: nat, op: Op, a: Address, r: Reply)
    requires Run(tr) && t < |tr| && !op.DeviceUpdate? && r in tr[t].replies
    ensures tr[t].main in tr[t].dbs && r.to in tr[t].dbs
    ensures AddEntry(tr[t].dbs[tr[t].main], op).Ok?
    ensures RegisterDevice(tr[t].dbs[tr[t].main], a).Ok?
    ensures ApplyEntries(tr[t].dbs[r.to], r.entries).Ok?
  {
    var s := tr[t];
    ReachableInv(tr, t);
    MainIsWhole(s);
    var d1 := MainPushes(s.dbs[s.main], Log(s), op, Reset(s), s.history[s.main]);
    var d2, id := MainRegisters(s.dbs[s.main], Log(s), a, Reset(s), s.history[s.main]);
    var d3 := DeliverAdvances(s, r);
  }
}
