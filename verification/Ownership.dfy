// The commands of every node, cut at each message and each transaction, over the system of
// Replication.dfy. Commands of one node run one after another; any of them may end at any
// point, and what it has sent may be carried out long after. OwnershipProof.dfy has the
// theorems, LateRun.dfy and LateCalls.dfy what calls that outlive their command can do.
module Ownership {
  import opened Basics
  import opened Wal
  import opened Store
  import opened LogFacts
  import opened NodeInvariant
  import opened Replication
  import opened Commands

  // What a sync is done for. ToDelete is the second sync of a cleanup.
  datatype Goal = ToUpdate | ToPush | ToPull | ToCleanup(paths: seq<Path>, keep: nat) | ToDelete(unused: set<Hash>)

  // What follows an acknowledged PushWAL.
  datatype After = Unstage(paths: seq<Path>) | Retract(unused: set<Hash>) | Announce

  // A PushWAL request the node has sent. The coordinator carries it out entry by entry, and
  // does not look whether the client is still waiting; `closed` means it will go no further.
  // History: the length of the log when it was sent, the positions its entries were given.
  datatype Request = Request(batch: seq<Op>, start: nat, at: seq<nat>, closed: bool)

  datatype Phase =
    | Idle
    | Fetched(reply: Reply, goal: Goal)
    | Synced(goal: Goal)
    | Waiting(id: nat, after: After)

  // `calls` are all requests the node ever sent, `deletes` the objects its own daemon may
  // still be asked to delete. `prudent` is history: no command so far was started while a
  // call was outstanding that it does not go with.
  datatype Local = Local(
    device: Option<DeviceId>,
    objects: set<Hash>,
    phase: Phase,
    calls: seq<Request>,
    deletes: set<Hash>,
    prudent: bool)

  datatype World = World(sys: System, locals: map<NodeId, Local>)

  const NEW_NODE: Local := Local(None, {}, Idle, [], {}, true)

  ghost predicate InitWorld(w: World) { Init(w.sys) && w.locals == map n | n in w.sys.dbs :: NEW_NODE }

  // ----- Calls that are still outstanding ------------------------------------------------

  predicate Open(r: Request) { !r.closed && |r.at| < |r.batch| }

  predicate Granted(r: Request) { |r.at| == |r.batch| }

  predicate NothingOpen(calls: seq<Request>) { forall i | 0 <= i < |calls| :: !Open(calls[i]) }

  // What a node can check before a sync: a cleanup, and on the main node any sync, begins
  // with no request of its own open; a push or a pull with no delete of its own outstanding.
  predicate Prudent(isMain: bool, l: Local, goal: Goal) {
    && (isMain || goal.ToCleanup? || goal.ToDelete? ==> NothingOpen(l.calls))
    && (goal.ToPush? || goal.ToPull? ==> l.deletes == {})
  }

  // ----- Actions of a node -------------------------------------------------------------

  ghost predicate Ready(w: World, n: NodeId) {
    w.sys.main in w.sys.dbs && Known(w.sys, n) && n in w.locals
  }

  ghost predicate Moves(w: World, w': World, n: NodeId, sys: System, l: Local) {
    w'.sys == sys && w'.locals == w.locals[n := l]
  }

  ghost function LogLength(w: World): nat
    requires w.sys.main in w.sys.dbs
  {
    |w.sys.dbs[w.sys.main].wal|
  }

  // run_connect: registration answers the device id of this address, if the answer arrives.
  ghost predicate Connect(w: World, w': World, n: NodeId, answered: bool) {
    && Ready(w, n) && w.locals[n].phase.Idle?
    && var r := RegisterDevice(w.sys.dbs[w.sys.main], n);
       Moves(w, w', n, Do(w.sys, Register(n)),
             if answered && r.Ok? then w.locals[n].(device := Some(r.value.1)) else w.locals[n])
  }

  // A sync may start for this goal.
  ghost predicate MaySync(l: Local, goal: Goal) {
    match l.phase
    case Idle => !goal.ToDelete?
    case Synced(g) => g == ToPull && goal == ToPull
    case Waiting(id, Retract(unused)) => id < |l.calls| && Granted(l.calls[id]) && goal == ToDelete(unused)
    case _ => false
  }

  // A cleanup is of some paths, each of which has a file row.
  ghost predicate MayClean(db: Db, goal: Goal) {
    goal.ToCleanup? ==> goal.paths != [] && forall p | p in goal.paths :: p in Paths(db.tables.files)
  }

  ghost predicate StartSync(w: World, w': World, n: NodeId, goal: Goal, last: nat) {
    && Ready(w, n) && w.locals[n].device.Some? && MaySync(w.locals[n], goal)
    && last <= LastSeq(w.sys.dbs[n].wal) && MayClean(w.sys.dbs[n], goal)
    && var r := Reply(n, last, EntriesSince(w.sys.dbs[w.sys.main].wal, last));
       var prudent := w.locals[n].prudent && Prudent(n == w.sys.main, w.locals[n], goal);
       Moves(w, w', n, Do(w.sys, Fetch(n, last)), w.locals[n].(phase := Fetched(r, goal), prudent := prudent))
  }

  ghost predicate FinishSync(w: World, w': World, n: NodeId) {
    && Ready(w, n) && w.locals[n].phase.Fetched?
    && w.locals[n].phase.reply in w.sys.replies && w.locals[n].phase.reply.to == n
    && Moves(w, w', n, Delivered(w.sys, w.locals[n].phase.reply),
             w.locals[n].(phase := Synced(w.locals[n].phase.goal)))
  }

  // Some SqliteDatabase is constructed.
  ghost predicate Reopens(w: World, w': World, n: NodeId) {
    Ready(w, n) && Moves(w, w', n, Do(w.sys, Reopen(n)), w.locals[n])
  }

  // A thrown error, a lost reply or a crash ends the command wherever it is; what it has
  // sent is not recalled.
  ghost predicate Abort(w: World, w': World, n: NodeId) {
    Ready(w, n) && Moves(w, w', n, w.sys, w.locals[n].(phase := Idle))
  }

  // run_add, run_readonly: an object is stored before its path is staged.
  ghost predicate StoreObject(w: World, w': World, n: NodeId, h: Hash) {
    && Ready(w, n) && w.locals[n].phase.Idle?
    && Moves(w, w', n, w.sys, w.locals[n].(objects := w.locals[n].objects + {h}))
  }

  // run_add, run_readonly: stage a path, with its object in all but one fallback branch.
  ghost predicate StageOne(w: World, w': World, n: NodeId, p: Path, row: Staged, withObject: bool) {
    && Ready(w, n) && w.locals[n].phase.Idle?
    && Moves(w, w', n, Do(w.sys, Restage(n, w.sys.dbs[n].staging[p := row])),
             w.locals[n].(objects := w.locals[n].objects + if withObject then {row.hash} else {},
                          prudent := w.locals[n].prudent && row.hash !in w.locals[n].deletes))
  }

  ghost predicate UnstageSome(w: World, w': World, n: NodeId, gone: set<Path>) {
    && Ready(w, n) && w.locals[n].phase.Idle?
    && Moves(w, w', n, Do(w.sys, Restage(n, w.sys.dbs[n].staging - gone)), w.locals[n])
  }

  // Send a batch and wait.
  function Sent(l: Local, batch: seq<Op>, start: nat, after: After): Local {
    l.(calls := l.calls + [Request(batch, start, [], false)], phase := Waiting(|l.calls|, after))
  }

  // run_push once synced: fill the batch, send it, unstage when all of it is acknowledged.
  ghost predicate BeginPush(w: World, w': World, n: NodeId, ps: seq<Path>, batch: seq<Op>) {
    && Ready(w, n) && w.locals[n].device.Some? && w.locals[n].phase == Synced(ToPush) && batch != []
    && PushBatch(w.sys.dbs[n], w.locals[n].objects, w.locals[n].device.value, ps, batch)
    && Moves(w, w', n, w.sys, Sent(w.locals[n], batch, LogLength(w), Unstage(ps)))
  }

  // The paths are unstaged one after another, so a crash may leave it at the first `done`.
  ghost predicate UnstagePushed(w: World, w': World, n: NodeId, done: nat) {
    && Ready(w, n) && w.locals[n].phase.Waiting? && w.locals[n].phase.after.Unstage?
    && w.locals[n].phase.id < |w.locals[n].calls| && Granted(w.locals[n].calls[w.locals[n].phase.id])
    && var ps := w.locals[n].phase.after.paths;
    && done <= |ps|
    && Moves(w, w', n, Do(w.sys, Restage(n, w.sys.dbs[n].staging - (set p | p in ps[..done]))),
             w.locals[n].(phase := Idle))
  }

  // run_pull once synced: an object arrives, and is announced unless it already is.
  ghost predicate PullObject(w: World, w': World, n: NodeId, h: Hash) {
    && Ready(w, n) && w.locals[n].phase == Synced(ToPull)
    && Moves(w, w', n, w.sys, w.locals[n].(objects := w.locals[n].objects + {h}))
  }

  ghost predicate BeginAnnounce(w: World, w': World, n: NodeId, h: Hash) {
    && Ready(w, n) && w.locals[n].device.Some? && w.locals[n].phase == Synced(ToPull) && h in w.locals[n].objects
    && Claim(h, w.locals[n].device.value) !in w.sys.dbs[n].tables.owners
    && Moves(w, w', n, w.sys, Sent(w.locals[n], [OwnerUpdate(h, w.locals[n].device.value)], LogLength(w), Announce))
  }

  // Acknowledged or not, the pull goes on.
  ghost predicate EndAnnounce(w: World, w': World, n: NodeId) {
    && Ready(w, n) && w.locals[n].phase.Waiting? && w.locals[n].phase.after == Announce
    && Moves(w, w', n, w.sys, w.locals[n].(phase := Synced(ToPull)))
  }

  // cleanup_versions_and_unused_objects once synced: forget rows, list unused objects.
  ghost predicate Scan(w: World, w': World, n: NodeId, unused: set<Hash>, batch: seq<Op>) {
    && Ready(w, n) && w.locals[n].device.Some? && w.locals[n].phase.Synced? && w.locals[n].phase.goal.ToCleanup?
    && var sys := Cleaned(w.sys, n, w.locals[n].phase.goal.paths, w.locals[n].phase.goal.keep);
    && CleanupPlan(sys.dbs[n], w.locals[n].objects, w.locals[n].device.value, unused, batch)
    && Moves(w, w', n, sys,
             if batch == [] then w.locals[n].(phase := Synced(ToDelete(unused)))
             else Sent(w.locals[n], batch, LogLength(w), Retract(unused)))
  }

  // The daemon is asked to delete one object of the list.
  ghost predicate CallDelete(w: World, w': World, n: NodeId, h: Hash) {
    && Ready(w, n) && w.locals[n].phase.Synced? && w.locals[n].phase.goal.ToDelete?
    && h in w.locals[n].phase.goal.unused
    && Moves(w, w', n, w.sys, w.locals[n].(deletes := w.locals[n].deletes + {h}))
  }

  // ----- Actions of the servers, at any time and whatever the client is at --------------

  ghost predicate Execute(w: World, w': World, n: NodeId, i: nat) {
    && Ready(w, n) && i < |w.locals[n].calls| && Open(w.locals[n].calls[i])
    && var r := w.locals[n].calls[i];
    && !r.batch[|r.at|].DeviceUpdate?
    && Moves(w, w', n, Do(w.sys, Push(r.batch[|r.at|])),
             w.locals[n].(calls := w.locals[n].calls[i := r.(at := r.at + [LogLength(w)])]))
  }

  // Storage gave out, or the request never arrived.
  ghost predicate Close(w: World, w': World, n: NodeId, i: nat) {
    && Ready(w, n) && i < |w.locals[n].calls|
    && Moves(w, w', n, w.sys, w.locals[n].(calls := w.locals[n].calls[i := w.locals[n].calls[i].(closed := true)]))
  }

  // More than one call for the object may be outstanding.
  ghost predicate ExecuteDelete(w: World, w': World, n: NodeId, h: Hash, more: bool) {
    && Ready(w, n) && h in w.locals[n].deletes
    && Moves(w, w', n, w.sys,
             w.locals[n].(objects := w.locals[n].objects - {h},
                          deletes := w.locals[n].deletes - if more then {} else {h}))
  }

  // The object was busy, or the call never arrived.
  ghost predicate LoseDelete(w: World, w': World, n: NodeId, h: Hash) {
    Ready(w, n) && Moves(w, w', n, w.sys, w.locals[n].(deletes := w.locals[n].deletes - {h}))
  }

  ghost predicate ActsOnDatabase(w: World, w': World, n: NodeId) {
    || (exists answered :: Connect(w, w', n, answered))
    || (exists goal, last :: StartSync(w, w', n, goal, last))
    || FinishSync(w, w', n)
    || Reopens(w, w', n)
    || (exists p, row, withObject :: StageOne(w, w', n, p, row, withObject))
    || (exists gone :: UnstageSome(w, w', n, gone))
    || (exists done: nat :: UnstagePushed(w, w', n, done))
    || (exists unused, batch :: Scan(w, w', n, unused, batch))
    || (exists i: nat :: Execute(w, w', n, i))
  }

  ghost predicate ActsAlone(w: World, w': World, n: NodeId) {
    || Abort(w, w', n)
    || (exists ps, batch :: BeginPush(w, w', n, ps, batch))
    || (exists h :: StoreObject(w, w', n, h))
    || (exists h :: PullObject(w, w', n, h))
    || (exists h :: BeginAnnounce(w, w', n, h))
    || EndAnnounce(w, w', n)
    || (exists h :: CallDelete(w, w', n, h))
    || (exists i: nat :: Close(w, w', n, i))
    || (exists h, more :: ExecuteDelete(w, w', n, h, more))
    || (exists h :: LoseDelete(w, w', n, h))
  }

  ghost predicate Acts(w: World, w': World, n: NodeId) { ActsOnDatabase(w, w', n) || ActsAlone(w, w', n) }

  ghost predicate NextWorld(w: World, w': World) { exists n :: Acts(w, w', n) }

  ghost predicate WorldRun(tr: seq<World>) {
    tr != [] && InitWorld(tr[0]) && forall i {:trigger WorldStep(tr, i)} | 0 <= i < |tr| - 1 :: WorldStep(tr, i)
  }

  ghost predicate WorldStep(tr: seq<World>, i: nat)
    requires i + 1 < |tr|
  {
    NextWorld(tr[i], tr[i + 1])
  }

  // ----- The invariant: what holds of every node ----------------------------------------

  // The device whose ownership an operation speaks about.
  function Names(op: Op): Option<DeviceId> {
    match op
    case FileUpdate(_, _, _, d, _) => Some(d)
    case OwnerUpdate(_, d) => Some(d)
    case OwnerDelete(_, d) => Some(d)
    case _ => None
  }

  // A request is about its sender, and its entries lie in order in the log from the point
  // where it was sent.
  ghost predicate CallOk(log: seq<Op>, d: DeviceId, r: Request) {
    && r.start <= |log| && |r.at| <= |r.batch|
    && (forall k | 0 <= k < |r.batch| :: Names(r.batch[k]) == Some(d))
    && (forall k | 0 <= k < |r.at| :: r.start <= r.at[k] < |log| && SameButVersion(log[r.at[k]], r.batch[k]))
    && (forall j, k | 0 <= j < k < |r.at| :: r.at[j] < r.at[k])
  }

  ghost predicate CallsOk(log: seq<Op>, d: DeviceId, calls: seq<Request>) {
    forall i {:trigger CallOk(log, d, calls[i])} | 0 <= i < |calls| :: CallOk(log, d, calls[i])
  }

  ghost predicate PhaseOk(log: seq<Op>, db: Db, n: NodeId, isMain: bool, d: DeviceId, l: Local, replies: set<Reply>) {
    match l.phase
    case Fetched(r, goal) =>
      && r in replies && r.to == n && r.last <= |db.wal| && r.last + |r.entries| <= |log|
      && (!isMain ==> |db.wal| <= r.last + |r.entries|)
    case Waiting(id, Unstage(ps)) =>
      && id < |l.calls| && |ps| == |l.calls[id].batch|
      && forall i | 0 <= i < |ps| :: ps[i] in db.staging
           && l.calls[id].batch[i] == FileUpdate(ps[i], db.staging[ps[i]].hash, 0, d, db.staging[ps[i]].readOnly)
    case Waiting(id, _) => id < |l.calls|
    case _ => true
  }

  // ----- The invariant: what holds of a prudent node -----------------------------------

  // No entry from position i on speaks about d.
  ghost predicate Quiet(log: seq<Op>, i: nat, d: DeviceId) {
    forall t | i <= t < |log| :: Names(log[t]) != Some(d)
  }

  ghost predicate Sound(log: seq<Op>, d: DeviceId, objects: set<Hash>) {
    forall h | Live(log, Claim(h, d)) :: h in objects
  }

  ghost predicate OwnKept(log: seq<Op>, db: Db, d: DeviceId) {
    |db.wal| <= |log| && forall h | Live(log[..|db.wal|], Claim(h, d)) :: Claim(h, d) in db.tables.owners
  }

  predicate Adds(op: Op, h: Hash) { (op.FileUpdate? || op.OwnerUpdate?) && op.hash == h }

  // The request would still make its device an owner of h.
  ghost predicate Promises(r: Request, h: Hash) {
    Open(r) && exists k :: |r.at| <= k < |r.batch| && Adds(r.batch[k], h)
  }

  ghost predicate Promised(calls: seq<Request>, h: Hash) {
    exists i :: 0 <= i < |calls| && Promises(calls[i], h)
  }

  ghost predicate PromisesKept(calls: seq<Request>, objects: set<Hash>) {
    forall h {:trigger Promised(calls, h)} | Promised(calls, h) :: h in objects
  }

  // Objects set aside for deletion are no longer owned and are not staged.
  ghost predicate Doomed(log: seq<Op>, d: DeviceId, staging: map<Path, Staged>, unused: set<Hash>) {
    && (forall h | h in unused :: !Live(log, Claim(h, d)))
    && (forall p | p in staging :: staging[p].hash !in unused)
  }

  ghost predicate DeletesSafe(log: seq<Op>, d: DeviceId, staging: map<Path, Staged>, l: Local) {
    Doomed(log, d, staging, l.deletes) && forall h | h in l.deletes :: !Promised(l.calls, h)
  }

  ghost predicate GoalSafe(log: seq<Op>, db: Db, d: DeviceId, l: Local, goal: Goal, upTo: nat) {
    match goal
    case ToUpdate => true
    case ToCleanup(_, _) => NothingOpen(l.calls) && Quiet(log, upTo, d)
    case ToDelete(unused) => NothingOpen(l.calls) && Doomed(log, d, db.staging, unused)
    case _ => l.deletes == {}
  }

  ghost predicate RetractSafe(log: seq<Op>, d: DeviceId, staging: map<Path, Staged>, calls: seq<Request>, id: nat,
                              unused: set<Hash>) {
    && id < |calls| && |calls[id].at| <= |calls[id].batch|
    && (forall i | 0 <= i < |calls| && i != id :: !Open(calls[i]))
    && (forall k | 0 <= k < |calls[id].batch| :: calls[id].batch[k].OwnerDelete?)
    && (forall h | h in unused :: OwnerDelete(h, d) in calls[id].batch[|calls[id].at|..] || !Live(log, Claim(h, d)))
    && (forall p | p in staging :: staging[p].hash !in unused)
  }

  ghost predicate PhaseSafe(log: seq<Op>, db: Db, isMain: bool, d: DeviceId, l: Local) {
    match l.phase
    case Idle => true
    case Fetched(r, goal) =>
      && (isMain ==> NothingOpen(l.calls) && Quiet(log, r.last + |r.entries|, d))
      && GoalSafe(log, db, d, l, goal, r.last + |r.entries|)
    case Synced(goal) => GoalSafe(log, db, d, l, goal, |db.wal|)
    case Waiting(id, Retract(unused)) => RetractSafe(log, d, db.staging, l.calls, id, unused)
    case Waiting(_, _) => l.deletes == {}
  }

  ghost predicate SafeOk(log: seq<Op>, db: Db, isMain: bool, d: DeviceId, l: Local) {
    && Sound(log, d, l.objects) && PromisesKept(l.calls, l.objects) && DeletesSafe(log, d, db.staging, l)
    && OwnKept(log, db, d) && PhaseSafe(log, db, isMain, d, l)
  }

  // ----- The invariant of the whole -----------------------------------------------------

  ghost predicate LocalOk(log: seq<Op>, db: Db, n: NodeId, isMain: bool, l: Local, replies: set<Reply>) {
    match l.device
    case None => l.phase.Idle? && l.calls == [] && l.deletes == {}
    case Some(d) =>
      && DeviceUpdate(d, n) in log && CallsOk(log, d, l.calls) && PhaseOk(log, db, n, isMain, d, l, replies)
      && (l.prudent ==> SafeOk(log, db, isMain, d, l))
  }

  // Whoever the log speaks about is one of the nodes.
  ghost predicate Attributed(log: seq<Op>, locals: map<NodeId, Local>) {
    forall t | 0 <= t < |log| && Names(log[t]).Some? :: exists n | n in locals :: locals[n].device == Names(log[t])
  }

  ghost predicate LocalsInv(log: seq<Op>, main: NodeId, dbs: map<NodeId, Db>, locals: map<NodeId, Local>,
                            replies: set<Reply>) {
    && Attributed(log, locals) && locals.Keys == dbs.Keys
    && forall n {:trigger LocalOk(log, dbs[n], n, n == main, locals[n], replies)} | n in locals ::
         LocalOk(log, dbs[n], n, n == main, locals[n], replies)
  }

  // Syncs of a node other than the main one never deliver a stale reply.
  ghost predicate InOrder(s: System)
    requires Whole(s)
  {
    forall n | n in s.dbs && n != s.main :: s.history[n].ordered
  }

  ghost predicate WorldInv(w: World) {
    Inv(w.sys) && LocalsInv(Log(w.sys), w.sys.main, w.sys.dbs, w.locals, w.sys.replies) && InOrder(w.sys)
  }
}
