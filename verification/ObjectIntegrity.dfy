// What add, readonly, pull and cleanup do to files, cut where the user can come in between:
// a file is hashed read by read, and later copied, read by read, under the name that gave.
// Stored bytes stay true to their names exactly when every copy has read bytes of that hash.
module ObjectIntegrity {
  import opened Basics
  import opened Transfer
  import opened Workspace

  // What the running command is at. Hashing: the path's file, inode `source`, is being read,
  // and `seen` is what the reads have brought. Hashed: the path's file is to be stored as h, unless an
  // object h is there. Copying: it is being read from inode `source` into the object's inode
  // `target`. Stored: the path is to become another name of object h.
  datatype Job =
    | Free
    | Hashing(path: Path, link: bool, source: Inode, seen: Bytes)
    | Hashed(path: Path, hash: Hash, link: bool)
    | Copying(path: Path, hash: Hash, link: bool, source: Inode, target: Inode)
    | Stored(path: Path, hash: Hash)

  datatype Station = Station(disk: Disk, job: Job)

  const EMPTY_DISK: Disk := Disk(map[], map[], map[])

  datatype Step =
    | OpenHash(path: Path, link: bool)
    | HashMore(upTo: nat)
    | EndHash
    | OpenCopy
    | ReadMore(upTo: nat)
    | EndCopy
    | MakeLink
    | PullPresent(path: Path, hash: Hash)
    | PullDownload(path: Path, hash: Hash, download: Bytes, readOnly: bool, share: bool)
    | CopyOut(path: Path, hash: Hash)
    | ChmodInPlace(path: Path, hash: Hash)
    | GiveUp
    | Forget(hash: Hash)
    | UserWrite(path: Path, bytes: Bytes)
    | UserSave(path: Path, bytes: Bytes, writable: bool)
    | UserRemove(path: Path)
    | UserRename(path: Path, to: Path)
    | UserLink(path: Path, to: Path)

  ghost predicate Sane(st: Station) {
    && WellFormed(st.disk)
    && (st.job.Hashing? ==> st.job.source in st.disk.inodes)
    && (st.job.Copying? ==> st.job.source in st.disk.inodes && st.job.target in st.disk.inodes)
  }

  // Users keep to the file modes; a download brings bytes of the wanted hash.
  ghost predicate Possible(hash: Hasher, st: Station, step: Step) {
    Sane(st) &&
    var d := st.disk;
    match step
    case OpenHash(p, _) => st.job.Free? && p in d.paths
    case HashMore(upTo) => st.job.Hashing? && |st.job.seen| < upTo <= |d.inodes[st.job.source].bytes|
    case EndHash => st.job.Hashing? && |d.inodes[st.job.source].bytes| <= |st.job.seen|
    case OpenCopy => st.job.Hashed? && (st.job.hash in d.objects || st.job.path in d.paths)
    case ReadMore(upTo) => st.job.Copying? && |d.inodes[st.job.target].bytes| < upTo <= |d.inodes[st.job.source].bytes|
    case EndCopy => st.job.Copying? && |d.inodes[st.job.source].bytes| <= |d.inodes[st.job.target].bytes|
    case MakeLink => st.job.Stored? && st.job.hash in d.objects
    case PullPresent(_, h) => st.job.Free? && h in d.objects
    case PullDownload(_, h, bytes, _, _) => st.job.Free? && h !in d.objects && hash(bytes) == h
    case CopyOut(_, h) => st.job.Free? && h in d.objects
    case ChmodInPlace(p, h) => st.job.Free? && h !in d.objects && p in d.paths
    case GiveUp => true
    case Forget(h) => h in d.objects
    case UserWrite(p, _) => p in d.paths && d.inodes[d.paths[p]].writable
    case UserSave(_, _, _) => true
    case UserRemove(p) => p in d.paths
    case UserRename(p, _) => p in d.paths
    case UserLink(p, _) => p in d.paths
  }

  function WithBytes(d: Disk, i: Inode, bytes: Bytes): Disk
    requires i in d.inodes
  {
    d.(inodes := d.inodes[i := d.inodes[i].(bytes := bytes)])
  }

  function Writable(d: Disk, p: Path): Disk
    requires p in d.paths && d.paths[p] in d.inodes
  {
    d.(inodes := d.inodes[d.paths[p] := d.inodes[d.paths[p]].(writable := true)])
  }

  ghost function After(hash: Hasher, st: Station, step: Step): Station
    requires Possible(hash, st, step)
  {
    FreshIsNew(st.disk);
    var d, job := st.disk, st.job;
    match step
    case OpenHash(p, link) => st.(job := Hashing(p, link, d.paths[p], []))
    case HashMore(upTo) =>
      var seen := job.seen + d.inodes[job.source].bytes[|job.seen|..upTo];
      st.(job := Hashing(job.path, job.link, job.source, seen))
    case EndHash => st.(job := Hashed(job.path, hash(job.seen), job.link))
    case OpenCopy =>
      if job.hash in d.objects then st.(job := if job.link then Stored(job.path, job.hash) else Free)
      else
        var source := d.paths[job.path];
        Station(PutObject(d, job.hash, d.inodes[source].(bytes := [])),
                Copying(job.path, job.hash, job.link, source, Fresh(d)))
    case ReadMore(upTo) => st.(disk := WithBytes(d, job.target, More(d, job.source, job.target, upTo)))
    case EndCopy => st.(job := if job.link then Stored(job.path, job.hash) else Free)
    case MakeLink => Station(Linked(d, job.hash, job.path), Free)
    case PullPresent(p, h) => st.(job := Stored(p, h))
    case PullDownload(p, h, bytes, readOnly, share) =>
      if readOnly then Station(PutObject(d, h, File(bytes, true)), Stored(p, h))
      else Station(PutPath(d, p, File(bytes, true)), if share then Hashed(p, h, false) else Free)
    case CopyOut(p, h) => st.(disk := PutPath(d, p, File(d.inodes[d.objects[h]].bytes, true)))
    case ChmodInPlace(p, _) => st.(disk := Writable(d, p))
    case GiveUp => st.(job := Free)
    case Forget(h) => st.(disk := d.(objects := d.objects - {h}))
    case UserWrite(p, bytes) => st.(disk := WithBytes(d, d.paths[p], bytes))
    case UserSave(p, bytes, writable) => st.(disk := PutPath(d, p, File(bytes, writable)))
    case UserRemove(p) => st.(disk := d.(paths := d.paths - {p}))
    case UserRename(p, q) => st.(disk := d.(paths := (d.paths - {p})[q := d.paths[p]]))
    case UserLink(p, q) => st.(disk := d.(paths := d.paths[q := d.paths[p]]))
  }

  // What the copy has, and the next bytes of its source as it is now.
  function More(d: Disk, source: Inode, target: Inode, upTo: nat): Bytes
    requires source in d.inodes && target in d.inodes
    requires |d.inodes[target].bytes| <= upTo <= |d.inodes[source].bytes|
  {
    d.inodes[target].bytes + d.inodes[source].bytes[|d.inodes[target].bytes|..upTo]
  }

  // A run: the stations and the steps between them.
  ghost predicate DiskRun(hash: Hasher, tr: seq<Station>, steps: seq<Step>) {
    && |tr| == |steps| + 1 && tr[0] == Station(EMPTY_DISK, Free)
    && forall t {:trigger Took(hash, tr, steps, t)} | 0 <= t < |steps| :: Took(hash, tr, steps, t)
  }

  ghost predicate Took(hash: Hasher, tr: seq<Station>, steps: seq<Step>, t: nat) {
    t < |steps| && t + 1 < |tr| && Possible(hash, tr[t], steps[t]) && tr[t + 1] == After(hash, tr[t], steps[t])
  }

  // ----- Integrity ------------------------------------------------------------------------------

  predicate BeingCopied(job: Job, h: Hash) { job.Copying? && job.hash == h }

  ghost predicate Intact(hash: Hasher, st: Station)
    requires WellFormed(st.disk)
  {
    forall h | h in st.disk.objects && !BeingCopied(st.job, h) :: hash(st.disk.inodes[st.disk.objects[h]].bytes) == h
  }

  // A workspace path that is another name of an object cannot be written through.
  ghost predicate Guarded(d: Disk)
    requires WellFormed(d)
  {
    forall p, h | p in d.paths && h in d.objects && d.paths[p] == d.objects[h] :: !d.inodes[d.paths[p]].writable
  }

  // The object being made has its inode to itself.
  ghost predicate CopyApart(st: Station) {
    st.job.Copying? ==>
      && (st.job.hash in st.disk.objects ==> st.disk.objects[st.job.hash] == st.job.target)
      && (forall h | h in st.disk.objects && h != st.job.hash :: st.disk.objects[h] != st.job.target)
      && (forall p | p in st.disk.paths :: st.disk.paths[p] != st.job.target)
      && st.job.source != st.job.target
  }

  ghost predicate Safe(hash: Hasher, st: Station) {
    Sane(st) && CopyApart(st) && Intact(hash, st) && Guarded(st.disk)
  }

  // The copy as it stands is what its name says, or its name is gone.
  ghost predicate CopyIsTrue(hash: Hasher, st: Station)
    requires Sane(st)
  {
    st.job.Copying? && st.job.hash in st.disk.objects ==> hash(st.disk.inodes[st.job.target].bytes) == st.job.hash
  }

  // The only steps that can do harm: ending or breaking off a copy that has read something
  // else, and the in-place branch of `readonly --off` on another name of an object.
  ghost predicate Harmless(hash: Hasher, st: Station, step: Step)
    requires Possible(hash, st, step)
  {
    match step
    case EndCopy => CopyIsTrue(hash, st)
    case GiveUp => CopyIsTrue(hash, st)
    case ChmodInPlace(p, _) => forall h | h in st.disk.objects :: st.disk.objects[h] != st.disk.paths[p]
    case _ => true
  }

  lemma PutPathKeeps(hash: Hasher, st: Station, p: Path, f: File)
    requires Safe(hash, st)
    ensures Safe(hash, st.(disk := PutPath(st.disk, p, f)))
  {
    FreshIsNew(st.disk);
  }

  lemma PutObjectKeeps(hash: Hasher, st: Station, h: Hash, f: File)
    requires Safe(hash, st) && st.job.Free? && hash(f.bytes) == h
    ensures Safe(hash, st.(disk := PutObject(st.disk, h, f)))
  {
    FreshIsNew(st.disk);
  }

  lemma OpenCopyKeeps(hash: Hasher, st: Station)
    requires Safe(hash, st) && Possible(hash, st, OpenCopy)
    ensures Safe(hash, After(hash, st, OpenCopy))
  {
    FreshIsNew(st.disk);
  }

  lemma ReadMoreKeeps(hash: Hasher, st: Station, upTo: nat)
    requires Safe(hash, st) && Possible(hash, st, ReadMore(upTo))
    ensures Safe(hash, After(hash, st, ReadMore(upTo)))
  {}

  lemma LinkedKeeps(hash: Hasher, st: Station)
    requires Safe(hash, st) && Possible(hash, st, MakeLink)
    ensures Safe(hash, After(hash, st, MakeLink))
  {}

  lemma UserKeeps(hash: Hasher, st: Station, step: Step)
    requires Safe(hash, st) && Possible(hash, st, step)
    requires step.UserWrite? || step.UserRemove? || step.UserRename? || step.UserLink?
    ensures Safe(hash, After(hash, st, step))
  {}

  lemma ChmodSafeIff(hash: Hasher, st: Station, p: Path, h: Hash)
    requires Safe(hash, st) && Possible(hash, st, ChmodInPlace(p, h))
    ensures Safe(hash, After(hash, st, ChmodInPlace(p, h))) <==> Harmless(hash, st, ChmodInPlace(p, h))
  {
    var d' := Writable(st.disk, p);
    if g :| g in st.disk.objects && st.disk.objects[g] == st.disk.paths[p] {
      assert d'.inodes[d'.paths[p]].writable;
    }
  }

  // From a safe station a step leads to a safe one if and only if it is harmless.
  lemma StepSafeIff(hash: Hasher, st: Station, step: Step)
    requires Safe(hash, st) && Possible(hash, st, step)
    ensures Safe(hash, After(hash, st, step)) <==> Harmless(hash, st, step)
  {
    match step
    case OpenCopy => OpenCopyKeeps(hash, st);
    case ReadMore(upTo) => ReadMoreKeeps(hash, st, upTo);
    case MakeLink => LinkedKeeps(hash, st);
    case PullDownload(p, h, bytes, readOnly, share) =>
      if readOnly {
        PutObjectKeeps(hash, st, h, File(bytes, true));
      } else {
        PutPathKeeps(hash, st, p, File(bytes, true));
      }
    case CopyOut(p, h) => PutPathKeeps(hash, st, p, File(st.disk.inodes[st.disk.objects[h]].bytes, true));
    case ChmodInPlace(p, h) => ChmodSafeIff(hash, st, p, h);
    case UserSave(p, bytes, writable) => PutPathKeeps(hash, st, p, File(bytes, writable));
    case UserWrite(_, _) => UserKeeps(hash, st, step);
    case UserRemove(_) => UserKeeps(hash, st, step);
    case UserRename(_, _) => UserKeeps(hash, st, step);
    case UserLink(_, _) => UserKeeps(hash, st, step);
    case _ =>
  }

  lemma {:induction false} HarmlessRunIsSafe(hash: Hasher, tr: seq<Station>, steps: seq<Step>, t: nat)
    requires DiskRun(hash, tr, steps) && t < |tr|
    requires forall k {:trigger Took(hash, tr, steps, k)} | 0 <= k < t ::
               Took(hash, tr, steps, k) && Harmless(hash, tr[k], steps[k])
    ensures Safe(hash, tr[t])
  {
    if t > 0 {
      HarmlessRunIsSafe(hash, tr, steps, t - 1);
      assert Took(hash, tr, steps, t - 1);
      StepSafeIff(hash, tr[t - 1], steps[t - 1]);
    }
  }

  // Through every interleaving of the commands' steps with what the user does within the
  // file modes: at every moment the bytes stored under a name hash to that name (but for one
  // still being copied) and no writable workspace path shares them, if and only if every
  // copy that ended or was broken off had read bytes of the hash it was named by, and no
  // file that is another name of an object was made writable in place.
  lemma ObjectsStayIntactIff(hash: Hasher, tr: seq<Station>, steps: seq<Step>)
    requires DiskRun(hash, tr, steps)
    ensures forall t | 0 <= t < |steps| :: Took(hash, tr, steps, t)
    ensures (forall t | 0 <= t < |tr| :: Safe(hash, tr[t])) <==>
            (forall t | 0 <= t < |steps| :: Took(hash, tr, steps, t) ==> Harmless(hash, tr[t], steps[t]))
  {
    if forall t | 0 <= t < |tr| :: Safe(hash, tr[t]) {
      forall t | 0 <= t < |steps| && Took(hash, tr, steps, t) ensures Harmless(hash, tr[t], steps[t]) {
        assert Safe(hash, tr[t]) && Safe(hash, tr[t + 1]);
        StepSafeIff(hash, tr[t], steps[t]);
      }
    }
    if forall t | 0 <= t < |steps| :: Took(hash, tr, steps, t) ==> Harmless(hash, tr[t], steps[t]) {
      forall t | 0 <= t < |tr| ensures Safe(hash, tr[t]) { HarmlessRunIsSafe(hash, tr, steps, t); }
    }
  }

  // ----- When copies read what was hashed -----------------------------------------------------------

  predicate Renames(step: Step, p: Path) {
    match step
    case UserSave(q, _, _) => q == p
    case UserRemove(q) => q == p
    case UserRename(q, r) => q == p || r == p
    case UserLink(_, r) => r == p
    case _ => false
  }

  // Between the beginning of its hashing and the end of its copying the user changes the
  // file: writes to it, or, until the copy has opened it, makes the path name another one.
  ghost predicate Disturbs(st: Station, step: Step)
    requires Sane(st)
  {
    var d := st.disk;
    match st.job
    case Hashing(p, _, source, _) =>
      Renames(step, p) || (step.UserWrite? && step.path in d.paths && d.paths[step.path] == source)
    case Hashed(p, _, _) =>
      Renames(step, p) || (step.UserWrite? && p in d.paths && step.path in d.paths && d.paths[step.path] == d.paths[p])
    case Copying(_, _, _, source, _) => step.UserWrite? && step.path in d.paths && d.paths[step.path] == source
    case _ => false
  }

  ghost predicate Current(hash: Hasher, st: Station)
    requires Sane(st)
  {
    var d := st.disk;
    match st.job
    case Hashing(p, _, source, seen) => p in d.paths && d.paths[p] == source && seen <= d.inodes[source].bytes
    case Hashed(p, h, _) => p in d.paths && hash(d.inodes[d.paths[p]].bytes) == h
    case Copying(_, h, _, source, target) =>
      hash(d.inodes[source].bytes) == h && d.inodes[target].bytes <= d.inodes[source].bytes
    case _ => true
  }

  lemma CurrentKept(hash: Hasher, st: Station, step: Step)
    requires Safe(hash, st) && Current(hash, st) && Possible(hash, st, step) && !Disturbs(st, step)
    requires Safe(hash, After(hash, st, step))
    ensures Current(hash, After(hash, st, step))
  {
    FreshIsNew(st.disk);
    if step.EndHash? { assert st.job.seen == st.disk.inodes[st.job.source].bytes; }
    if step.HashMore? { assert After(hash, st, step).job.seen == st.disk.inodes[st.job.source].bytes[..step.upTo]; }
  }

  // A step that is neither of the two that need the user's help.
  ghost predicate Calm(st: Station, step: Step)
    requires Sane(st)
  {
    && !Disturbs(st, step) && !(step.GiveUp? && st.job.Copying?)
    && (step.ChmodInPlace? && step.path in st.disk.paths ==>
          forall h | h in st.disk.objects :: st.disk.objects[h] != st.disk.paths[step.path])
  }

  lemma CalmIsHarmless(hash: Hasher, st: Station, step: Step)
    requires Safe(hash, st) && Current(hash, st) && Possible(hash, st, step) && Calm(st, step)
    ensures Harmless(hash, st, step)
  {
    if step.EndCopy? {
      assert st.disk.inodes[st.job.target].bytes == st.disk.inodes[st.job.source].bytes;
    }
  }

  // If the user leaves a file alone from the beginning of its hashing until it is copied, and
  // no copy is broken off, every object stays intact.
  lemma {:induction false} CalmRunsStayIntact(hash: Hasher, tr: seq<Station>, steps: seq<Step>, t: nat)
    requires DiskRun(hash, tr, steps) && t < |tr|
    requires forall k {:trigger Took(hash, tr, steps, k)} | 0 <= k < t ::
               Took(hash, tr, steps, k) && Calm(tr[k], steps[k])
    ensures Safe(hash, tr[t]) && Current(hash, tr[t])
  {
    if t > 0 {
      CalmRunsStayIntact(hash, tr, steps, t - 1);
      assert Took(hash, tr, steps, t - 1);
      CalmIsHarmless(hash, tr[t - 1], steps[t - 1]);
      StepSafeIff(hash, tr[t - 1], steps[t - 1]);
      CurrentKept(hash, tr[t - 1], steps[t - 1]);
    }
  }

  // ----- Three runs in which an object is lost ------------------------------------------------------

  // Steps taken one after another from a station.
  ghost predicate Leads(hash: Hasher, st: Station, steps: seq<Step>, end: Station)
    decreases |steps|
  {
    if steps == [] then end == st
    else Possible(hash, st, steps[0]) && Leads(hash, After(hash, st, steps[0]), steps[1..], end)
  }

  lemma {:induction false} LeadsThrough(hash: Hasher, st: Station, first: seq<Step>, mid: Station, second: seq<Step>,
                                        end: Station)
    requires Leads(hash, st, first, mid) && Leads(hash, mid, second, end)
    ensures Leads(hash, st, first + second, end)
    decreases |first|
  {
    if first == [] {
      assert first + second == second;
    } else {
      assert (first + second)[1..] == first[1..] + second;
      LeadsThrough(hash, After(hash, st, first[0]), first[1..], mid, second, end);
    }
  }

  lemma OneStep(hash: Hasher, st: Station, step: Step)
    requires Possible(hash, st, step)
    ensures Leads(hash, st, [step], After(hash, st, step))
  {
    assert [step][1..] == [];
  }

  // Steps from the empty disk on make a run.
  lemma {:induction false} RunOf(hash: Hasher, tr: seq<Station>, done: seq<Step>, steps: seq<Step>, end: Station)
    returns (run: seq<Station>)
    requires DiskRun(hash, tr, done) && Leads(hash, tr[|tr| - 1], steps, end)
    ensures DiskRun(hash, run, done + steps) && run[|run| - 1] == end && tr <= run
    decreases |steps|
  {
    if steps == [] {
      run := tr;
      assert done + steps == done;
    } else {
      var more := tr + [After(hash, tr[|tr| - 1], steps[0])];
      forall t | 0 <= t < |done + [steps[0]]| ensures Took(hash, more, done + [steps[0]], t) {
        if t < |done| { assert Took(hash, tr, done, t); }
      }
      run := RunOf(hash, more, done + [steps[0]], steps[1..], end);
      assert done + [steps[0]] + steps[1..] == done + steps;
    }
  }

  // What hashing a file, and copying it in, come to when nobody interferes.
  function HashSteps(p: Path, link: bool, size: nat): seq<Step> {
    if size == 0 then [OpenHash(p, link), EndHash] else [OpenHash(p, link), HashMore(size), EndHash]
  }

  lemma HashLeads(hash: Hasher, st: Station, p: Path, link: bool)
    requires Possible(hash, st, OpenHash(p, link))
    ensures var bytes := st.disk.inodes[st.disk.paths[p]].bytes;
            Leads(hash, st, HashSteps(p, link, |bytes|), Station(st.disk, Hashed(p, hash(bytes), link)))
  {
    var bytes := st.disk.inodes[st.disk.paths[p]].bytes;
    var begun := After(hash, st, OpenHash(p, link));
    OneStep(hash, st, OpenHash(p, link));
    var whole, before := begun, [OpenHash(p, link)];
    if |bytes| > 0 {
      whole := After(hash, begun, HashMore(|bytes|));
      OneStep(hash, begun, HashMore(|bytes|));
      LeadsThrough(hash, st, before, begun, [HashMore(|bytes|)], whole);
      before := before + [HashMore(|bytes|)];
    }
    assert [] + bytes[0..|bytes|] == bytes;
    OneStep(hash, whole, EndHash);
    LeadsThrough(hash, st, before, whole, [EndHash], After(hash, whole, EndHash));
    assert before + [EndHash] == HashSteps(p, link, |bytes|);
  }

  function CopySteps(present: bool, size: nat): seq<Step> {
    if present then [OpenCopy] else if size == 0 then [OpenCopy, EndCopy] else [OpenCopy, ReadMore(size), EndCopy]
  }

  function Copied(st: Station): Station
    requires st.job.Hashed? && (st.job.hash in st.disk.objects || st.job.path in st.disk.paths) && WellFormed(st.disk)
  {
    var d, job := st.disk, st.job;
    Station(if job.hash in d.objects then d else PutObject(d, job.hash, d.inodes[d.paths[job.path]]),
            if job.link then Stored(job.path, job.hash) else Free)
  }

  lemma CopyLeads(hash: Hasher, st: Station, size: nat)
    requires Possible(hash, st, OpenCopy)
    requires st.job.hash !in st.disk.objects ==> size == |st.disk.inodes[st.disk.paths[st.job.path]].bytes|
    ensures Leads(hash, st, CopySteps(st.job.hash in st.disk.objects, size), Copied(st))
  {
    FreshIsNew(st.disk);
    var begun := After(hash, st, OpenCopy);
    OneStep(hash, st, OpenCopy);
    if st.job.hash !in st.disk.objects {
      var whole := begun;
      if size > 0 {
        whole := After(hash, begun, ReadMore(size));
        OneStep(hash, begun, ReadMore(size));
        LeadsThrough(hash, st, [OpenCopy], begun, [ReadMore(size)], whole);
        assert [OpenCopy] + [ReadMore(size)] + [EndCopy] == CopySteps(false, size);
      } else {
        assert [OpenCopy] + [EndCopy] == CopySteps(false, 0);
      }
      OneStep(hash, whole, EndCopy);
      var before := if size > 0 then [OpenCopy] + [ReadMore(size)] else [OpenCopy];
      LeadsThrough(hash, st, before, whole, [EndCopy], After(hash, whole, EndCopy));
      var bytes := st.disk.inodes[st.disk.paths[st.job.path]].bytes;
      assert [] + bytes[0..size] == bytes;
      assert After(hash, whole, EndCopy).disk.inodes == Copied(st).disk.inodes;
    }
  }

  // A file is hashed holding `a`, the user writes `b` to it as its mode permits, and `b` is
  // copied under the name of `a`.
  lemma WriteBetweenHashAndCopy(hash: Hasher, p: Path, a: Bytes, b: Bytes) returns (tr: seq<Station>, steps: seq<Step>)
    requires hash(a) != hash(b)
    ensures DiskRun(hash, tr, steps)
    ensures steps == [UserSave(p, a, true)] + HashSteps(p, false, |a|) + [UserWrite(p, b)] + CopySteps(false, |b|)
    ensures HoldsInstead(hash, tr[|tr| - 1], hash(a), b)
  {
    var saved := SavedFile(hash, p, a);
    HashLeads(hash, saved, p, false);
    var hashed := Station(saved.disk, Hashed(p, hash(a), false));
    var first := [UserSave(p, a, true)] + HashSteps(p, false, |a|);
    LeadsThrough(hash, Station(EMPTY_DISK, Free), [UserSave(p, a, true)], saved, HashSteps(p, false, |a|), hashed);
    var written := After(hash, hashed, UserWrite(p, b));
    OneStep(hash, hashed, UserWrite(p, b));
    LeadsThrough(hash, Station(EMPTY_DISK, Free), first, hashed, [UserWrite(p, b)], written);
    tr, steps := CopiedRun(hash, first + [UserWrite(p, b)], written);
  }

  // The user writes while the file is being hashed: what was read was never in the file.
  lemma WriteDuringHash(hash: Hasher, p: Path, a: Bytes, b: Bytes) returns (tr: seq<Station>, steps: seq<Step>)
    requires 0 < |a| < |b| && hash(a + b[|a|..]) != hash(b)
    ensures DiskRun(hash, tr, steps)
    ensures steps == [UserSave(p, a, true), OpenHash(p, false), HashMore(|a|), UserWrite(p, b), HashMore(|b|), EndHash]
                     + CopySteps(false, |b|)
    ensures HoldsInstead(hash, tr[|tr| - 1], hash(a + b[|a|..]), b)
  {
    var st := Station(EMPTY_DISK, Free);
    var saved := SavedFile(hash, p, a);
    var half := HalfHashed(hash, saved, p, a, b);
    var rest := [OpenHash(p, false), HashMore(|a|), UserWrite(p, b), HashMore(|b|), EndHash];
    LeadsThrough(hash, st, [UserSave(p, a, true)], saved, rest, half);
    var first := [UserSave(p, a, true), OpenHash(p, false), HashMore(|a|), UserWrite(p, b), HashMore(|b|), EndHash];
    assert [UserSave(p, a, true)] + rest == first;
    tr, steps := CopiedRun(hash, first, half);
  }

  lemma HalfHashed(hash: Hasher, saved: Station, p: Path, a: Bytes, b: Bytes) returns (half: Station)
    requires Sane(saved) && saved.job.Free? && p in saved.disk.paths && 0 < |a| < |b| && saved.disk.objects == map[]
    requires saved.disk.inodes[saved.disk.paths[p]] == File(a, true)
    ensures Leads(hash, saved, [OpenHash(p, false), HashMore(|a|), UserWrite(p, b), HashMore(|b|), EndHash], half)
    ensures Sane(half) && half.job == Hashed(p, hash(a + b[|a|..]), false) && half.disk.objects == map[]
    ensures p in half.disk.paths && half.disk.inodes[half.disk.paths[p]].bytes == b
  {
    var begun := After(hash, saved, OpenHash(p, false));
    OneStep(hash, saved, OpenHash(p, false));
    var read := After(hash, begun, HashMore(|a|));
    OneStep(hash, begun, HashMore(|a|));
    assert [] + a[0..|a|] == a;
    LeadsThrough(hash, saved, [OpenHash(p, false)], begun, [HashMore(|a|)], read);
    var written := After(hash, read, UserWrite(p, b));
    OneStep(hash, read, UserWrite(p, b));
    LeadsThrough(hash, saved, [OpenHash(p, false)] + [HashMore(|a|)], read, [UserWrite(p, b)], written);
    var done := After(hash, written, HashMore(|b|));
    OneStep(hash, written, HashMore(|b|));
    assert b[|a|..|b|] == b[|a|..];
    LeadsThrough(hash, saved, [OpenHash(p, false)] + [HashMore(|a|)] + [UserWrite(p, b)], written, [HashMore(|b|)],
                 done);
    half := After(hash, done, EndHash);
    OneStep(hash, done, EndHash);
    var first := [OpenHash(p, false)] + [HashMore(|a|)] + [UserWrite(p, b)] + [HashMore(|b|)];
    LeadsThrough(hash, saved, first, done, [EndHash], half);
    assert first + [EndHash] == [OpenHash(p, false), HashMore(|a|), UserWrite(p, b), HashMore(|b|), EndHash];
  }

  // The object named h holds bytes of another hash.
  ghost predicate HoldsInstead(hash: Hasher, st: Station, h: Hash, bytes: Bytes) {
    && st.job.Free? && WellFormed(st.disk) && h in st.disk.objects
    && st.disk.inodes[st.disk.objects[h]].bytes == bytes && !Intact(hash, st)
  }

  lemma SavedFile(hash: Hasher, p: Path, a: Bytes) returns (saved: Station)
    ensures Leads(hash, Station(EMPTY_DISK, Free), [UserSave(p, a, true)], saved)
    ensures Sane(saved) && saved.job.Free? && saved.disk.objects == map[]
    ensures p in saved.disk.paths && saved.disk.inodes[saved.disk.paths[p]] == File(a, true)
  {
    saved := After(hash, Station(EMPTY_DISK, Free), UserSave(p, a, true));
    OneStep(hash, Station(EMPTY_DISK, Free), UserSave(p, a, true));
  }

  // The file is copied under a hash it does not have.
  lemma CopiedRun(hash: Hasher, first: seq<Step>, st: Station) returns (tr: seq<Station>, steps: seq<Step>)
    requires Leads(hash, Station(EMPTY_DISK, Free), first, st) && Sane(st)
    requires st.job.Hashed? && !st.job.link && st.disk.objects == map[] && st.job.path in st.disk.paths
    requires hash(st.disk.inodes[st.disk.paths[st.job.path]].bytes) != st.job.hash
    ensures var b := st.disk.inodes[st.disk.paths[st.job.path]].bytes;
            && DiskRun(hash, tr, steps) && steps == first + CopySteps(false, |b|)
            && HoldsInstead(hash, tr[|tr| - 1], st.job.hash, b)
  {
    var b := st.disk.inodes[st.disk.paths[st.job.path]].bytes;
    CopyLeads(hash, st, |b|);
    LeadsThrough(hash, Station(EMPTY_DISK, Free), first, st, CopySteps(false, |b|), Copied(st));
    steps := first + CopySteps(false, |b|);
    tr := RunOf(hash, [Station(EMPTY_DISK, Free)], [], steps, Copied(st));
    assert [] + steps == steps;
  }

  // A file is staged read-only while it is tracked under an object this node never had.
  // `readonly --off` makes it writable in place, and one write later the object it shares
  // its bytes with no longer matches its name.
  lemma FallbackCorrupts(hash: Hasher, p: Path, h: Hash, before: Bytes, edited: Bytes)
    returns (tr: seq<Station>, steps: seq<Step>)
    requires hash(before) != h && hash(edited) != hash(before)
    ensures DiskRun(hash, tr, steps)
    ensures steps == [UserSave(p, before, true)] + HashSteps(p, true, |before|) + CopySteps(false, |before|)
                     + [MakeLink, ChmodInPlace(p, h), UserWrite(p, edited)]
    ensures HoldsInstead(hash, tr[|tr| - 1], hash(before), edited)
  {
    var st := Station(EMPTY_DISK, Free);
    var saved := SavedFile(hash, p, before);
    HashLeads(hash, saved, p, true);
    var hashed := Station(saved.disk, Hashed(p, hash(before), true));
    var first := [UserSave(p, before, true)] + HashSteps(p, true, |before|);
    LeadsThrough(hash, st, [UserSave(p, before, true)], saved, HashSteps(p, true, |before|), hashed);
    CopyLeads(hash, hashed, |before|);
    LeadsThrough(hash, st, first, hashed, CopySteps(false, |before|), Copied(hashed));
    var end := OffAndEdit(hash, Copied(hashed), p, h, before, edited);
    steps := first + CopySteps(false, |before|) + [MakeLink, ChmodInPlace(p, h), UserWrite(p, edited)];
    LeadsThrough(hash, st, first + CopySteps(false, |before|), Copied(hashed),
                 [MakeLink, ChmodInPlace(p, h), UserWrite(p, edited)], end);
    tr := RunOf(hash, [st], [], steps, end);
    assert [] + steps == steps;
  }

  lemma OffAndEdit(hash: Hasher, st: Station, p: Path, h: Hash, before: Bytes, edited: Bytes) returns (end: Station)
    requires Sane(st) && st.job == Stored(p, hash(before)) && hash(before) in st.disk.objects && h !in st.disk.objects
    requires hash(edited) != hash(before)
    ensures Leads(hash, st, [MakeLink, ChmodInPlace(p, h), UserWrite(p, edited)], end)
    ensures WellFormed(end.disk) && hash(before) in end.disk.objects && end.job.Free?
    ensures end.disk.inodes[end.disk.objects[hash(before)]].bytes == edited && !Intact(hash, end)
  {
    var linked := After(hash, st, MakeLink);
    OneStep(hash, st, MakeLink);
    var off := After(hash, linked, ChmodInPlace(p, h));
    OneStep(hash, linked, ChmodInPlace(p, h));
    LeadsThrough(hash, st, [MakeLink], linked, [ChmodInPlace(p, h)], off);
    end := After(hash, off, UserWrite(p, edited));
    OneStep(hash, off, UserWrite(p, edited));
    LeadsThrough(hash, st, [MakeLink] + [ChmodInPlace(p, h)], off, [UserWrite(p, edited)], end);
    assert [MakeLink] + [ChmodInPlace(p, h)] + [UserWrite(p, edited)]
        == [MakeLink, ChmodInPlace(p, h), UserWrite(p, edited)];
  }
}
