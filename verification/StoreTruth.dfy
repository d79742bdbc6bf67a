// A node's object store seen from both sides at once: the names the protocol of Ownership.dfy
// counts on, and the files the disk of ObjectIntegrity.dfy holds under them.
module StoreTruth {
  import opened Basics
  import opened Wal
  import opened Transfer
  import opened Workspace
  import opened Replication
  import opened Ownership
  import opened OwnershipProof
  import O = ObjectIntegrity

  datatype View = View(world: World, station: O.Station)

  // The objects that are there and not still being copied in.
  function Finished(st: O.Station): set<Hash> { set h | h in st.disk.objects && !O.BeingCopied(st.job, h) }

  ghost predicate Coupled(v: View, n: NodeId) {
    n in v.world.locals ==> v.world.locals[n].objects == Finished(v.station)
  }

  // Any node acts, or nobody; on the disk of n a command or the user takes a step, or nobody.
  ghost predicate JointStep(hash: Hasher, v: View, v': View, n: NodeId, step: Option<O.Step>) {
    && (v'.world == v.world || NextWorld(v.world, v'.world))
    && (match step
        case None => v'.station == v.station
        case Some(s) => O.Possible(hash, v.station, s) && v'.station == O.After(hash, v.station, s))
    && Coupled(v', n)
  }

  ghost predicate JointAt(hash: Hasher, tr: seq<View>, steps: seq<Option<O.Step>>, n: NodeId, t: nat) {
    t < |steps| && t + 1 < |tr| && JointStep(hash, tr[t], tr[t + 1], n, steps[t])
  }

  ghost predicate JointRun(hash: Hasher, tr: seq<View>, steps: seq<Option<O.Step>>, n: NodeId) {
    && |tr| == |steps| + 1 && InitWorld(tr[0].world) && tr[0].station == O.Station(O.EMPTY_DISK, O.Free)
    && forall t {:trigger JointAt(hash, tr, steps, n, t)} | 0 <= t < |steps| :: JointAt(hash, tr, steps, n, t)
  }

  lemma NextKeeps(w: World, w': World)
    requires WorldInv(w) && NextWorld(w, w')
    ensures WorldInv(w')
  {
    var m :| Acts(w, w', m);
    ActKeeps(w, w', m);
  }

  lemma {:induction false} JointWorld(hash: Hasher, tr: seq<View>, steps: seq<Option<O.Step>>, n: NodeId, t: nat)
    requires JointRun(hash, tr, steps, n) && t < |tr|
    ensures WorldInv(tr[t].world)
  {
    if t == 0 {
      InitWorldInv(tr[0].world);
    } else {
      JointWorld(hash, tr, steps, n, t - 1);
      assert JointAt(hash, tr, steps, n, t - 1);
      if tr[t].world != tr[t - 1].world { NextKeeps(tr[t - 1].world, tr[t].world); }
    }
  }

  ghost predicate Undisturbed(hash: Hasher, tr: seq<View>, steps: seq<Option<O.Step>>, n: NodeId, t: nat) {
    JointAt(hash, tr, steps, n, t) && (steps[t].Some? ==> O.Calm(tr[t].station, steps[t].value))
  }

  lemma {:induction false} JointDisk(hash: Hasher, tr: seq<View>, steps: seq<Option<O.Step>>, n: NodeId, t: nat)
    requires JointRun(hash, tr, steps, n) && t < |tr|
    requires forall k {:trigger Undisturbed(hash, tr, steps, n, k)} | 0 <= k < t :: Undisturbed(hash, tr, steps, n, k)
    ensures O.Safe(hash, tr[t].station) && O.Current(hash, tr[t].station)
  {
    if t > 0 {
      JointDisk(hash, tr, steps, n, t - 1);
      assert Undisturbed(hash, tr, steps, n, t - 1);
      if steps[t - 1].Some? {
        var st, step := tr[t - 1].station, steps[t - 1].value;
        O.CalmIsHarmless(hash, st, step);
        O.StepSafeIff(hash, st, step);
        O.CurrentKept(hash, st, step);
      }
    }
  }

  // The object is on the disk with bytes of that hash.
  ghost predicate Holds(hash: Hasher, st: O.Station, h: Hash) {
    && h in st.disk.objects && st.disk.objects[h] in st.disk.inodes
    && hash(st.disk.inodes[st.disk.objects[h]].bytes) == h
  }

  // Whatever the log says a device owns, the node that is this device has on its disk, with
  // bytes of that hash, if it has been prudent and its users left files alone while they
  // were being stored, whatever the other nodes and their users do.
  lemma OwnedIsStored(hash: Hasher, tr: seq<View>, steps: seq<Option<O.Step>>, n: NodeId, t: nat, h: Hash)
    requires JointRun(hash, tr, steps, n) && t < |tr| && n in tr[t].world.locals
    requires forall k {:trigger Undisturbed(hash, tr, steps, n, k)} | 0 <= k < t :: Undisturbed(hash, tr, steps, n, k)
    ensures MainHasLog(tr[t].world.sys)
    ensures var l := tr[t].world.locals[n];
            l.prudent && l.device.Some? && Live(Log(tr[t].world.sys), Claim(h, l.device.value)) ==>
              Holds(hash, tr[t].station, h)
  {
    JointWorld(hash, tr, steps, n, t);
    JointDisk(hash, tr, steps, n, t);
    ActorOk(tr[t].world, n);
    if t > 0 { assert JointAt(hash, tr, steps, n, t - 1); }
  }

  // ----- The two sides keep up with each other --------------------------------------------

  // What a step on the disk does to the finished objects.
  function Gained(st: O.Station, step: O.Step): set<Hash> {
    match step
    case EndCopy => Copied(st)
    case GiveUp => Copied(st)
    case PullDownload(_, h, _, readOnly, _) => if readOnly then {h} else {}
    case _ => {}
  }

  function Copied(st: O.Station): set<Hash> {
    if st.job.Copying? && st.job.hash in st.disk.objects then {st.job.hash} else {}
  }

  function Dropped(step: O.Step): set<Hash> { if step.Forget? then {step.hash} else {} }

  lemma StepOnFinished(hash: Hasher, st: O.Station, step: O.Step)
    requires O.Possible(hash, st, step)
    ensures Finished(O.After(hash, st, step)) == Finished(st) + Gained(st, step) - Dropped(step)
  {}

  // A command that stores an object, between a sync and its end or before it stages the path,
  // has an action for it.
  lemma GainIsMatched(w: World, n: NodeId, st: O.Station, h: Hash) returns (w': World)
    requires Ready(w, n) && (w.locals[n].phase.Idle? || w.locals[n].phase == Synced(ToPull))
    requires Finished(st) == w.locals[n].objects + {h}
    ensures NextWorld(w, w') && Coupled(View(w', st), n)
  {
    w' := World(w.sys, w.locals[n := w.locals[n].(objects := w.locals[n].objects + {h})]);
    assert StoreObject(w, w', n, h) || PullObject(w, w', n, h);
    assert Acts(w, w', n);
  }

  // So has the daemon, for a delete it was asked for.
  lemma LossIsMatched(w: World, n: NodeId, st: O.Station, h: Hash) returns (w': World)
    requires Ready(w, n) && h in w.locals[n].deletes && Finished(st) == w.locals[n].objects - {h}
    ensures NextWorld(w, w') && Coupled(View(w', st), n)
  {
    var l := w.locals[n];
    w' := World(w.sys, w.locals[n := l.(objects := l.objects - {h}, deletes := l.deletes - {h})]);
    assert ExecuteDelete(w, w', n, h, false);
    assert Acts(w, w', n);
  }
}
