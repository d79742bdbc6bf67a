// The storage service's per-object locks: any number of readers streaming objects and of
// deleters, interleaved at every lock operation and every piece, while the node's own
// commands create objects, some of them byte by byte in place and without any lock.
module ObjectLocks {
  import opened Basics
  import opened Transfer
  import Download

  type LockId = nat

  // DownloadFile asks for offset 0 and size 0, which is everything.
  datatype Range = Range(hash: Hash, offset: nat, size: nat)

  // A reader is DownloadFile, DownloadFileRange or GetObjectInfo. History: what the object's
  // file held when its size was read (`whole`), and what it was being made into (`body`).
  datatype Call =
    | ReadWaiting(range: Range)
    | ReadLooking(range: Range, lock: LockId)
    | ReadLocked(range: Range, lock: LockId)
    | ReadFound(range: Range, lock: LockId)
    | Streaming(range: Range, lock: LockId, whole: Bytes, body: Bytes, data: Bytes)
    | ReadDone(range: Range, whole: Bytes, body: Bytes, data: Bytes)
    | ReadRefused(range: Range)
    | DeleteWaiting(hash: Hash)
    | DeleteLooking(hash: Hash, lock: LockId)
    | DeleteLocked(hash: Hash, lock: LockId)
    | DeleteBusy(hash: Hash)
    | DeleteDone(hash: Hash)

  // `full` is history: what each object present is being, or was, made into.
  datatype Service = Service(objects: map<Hash, Bytes>, full: map<Hash, Bytes>, locks: map<Hash, LockId>,
                             calls: seq<Call>)

  ghost predicate InitService(s: Service) {
    s.locks == map[] && s.full == s.objects && forall c | c in s.calls :: c.ReadWaiting? || c.DeleteWaiting?
  }

  // The object is there but not all of it.
  predicate InProgress(s: Service, h: Hash) { h in s.objects && h in s.full && s.objects[h] != s.full[h] }

  function HashOf(c: Call): Hash {
    match c
    case DeleteWaiting(h) => h
    case DeleteLooking(h, _) => h
    case DeleteLocked(h, _) => h
    case DeleteBusy(h) => h
    case DeleteDone(h) => h
    case _ => c.range.hash
  }

  predicate HoldsShared(c: Call) { c.ReadLocked? || c.ReadFound? || c.Streaming? }

  // Holding the shared side, or the exclusive side, of a lock.
  predicate Shares(c: Call, l: LockId) { HoldsShared(c) && c.lock == l }
  predicate Owns(c: Call, l: LockId) { c.DeleteLocked? && c.lock == l }

  // getObjectLock under its own mutex: the lock of the hash, made on first use.
  function LockOf(s: Service, h: Hash): LockId {
    if h in s.locks then s.locks[h] else MaxOf(s.locks.Values) + 1
  }

  function WithLock(s: Service, h: Hash): Service { s.(locks := s.locks[h := LockOf(s, h)]) }

  function Set(s: Service, i: nat, c: Call): Service
    requires i < |s.calls|
  {
    s.(calls := s.calls[i := c])
  }

  ghost predicate SharedFree(s: Service, l: LockId) { forall c | c in s.calls :: !Owns(c, l) }
  ghost predicate AllFree(s: Service, l: LockId) { forall c | c in s.calls :: !Owns(c, l) && !Shares(c, l) }

  // Of what the range asks for, the bytes after those already sent, up to `upTo` of them.
  predicate CanSend(s: Service, c: Call, upTo: nat) {
    && c.Streaming? && c.range.offset <= |c.whole| && c.range.hash in s.objects && |c.data| < upTo <= |c.data| + PIECE
    && upTo <= |Wanted(c.whole, c.range.offset, c.range.size)|
    && c.range.offset + upTo <= |s.objects[c.range.hash]|
  }

  function WithPiece(s: Service, c: Call, upTo: nat): Call
    requires CanSend(s, c, upTo)
  {
    var piece := s.objects[c.range.hash][c.range.offset + |c.data|..c.range.offset + upTo];
    Streaming(c.range, c.lock, c.whole, c.body, c.data + piece)
  }

  // One step of call i. A try-lock may fail even when the lock is free; a stream may be
  // broken off; `upTo` is how far the next piece reaches.
  ghost predicate CallStep(s: Service, s': Service, i: nat, upTo: nat) {
    i < |s.calls| &&
    match s.calls[i]
    case ReadWaiting(r) => s' == Set(WithLock(s, r.hash), i, ReadLooking(r, LockOf(s, r.hash)))
    case ReadLooking(r, l) => SharedFree(s, l) && s' == Set(s, i, ReadLocked(r, l))
    case ReadLocked(r, l) => s' == Set(s, i, if r.hash in s.objects then ReadFound(r, l) else ReadRefused(r))
    case ReadFound(r, l) =>
      && r.hash in s.objects && r.hash in s.full
      && s' == Set(s, i, if r.offset > |s.objects[r.hash]| then ReadRefused(r)
                         else Streaming(r, l, s.objects[r.hash], s.full[r.hash], []))
    case Streaming(r, l, whole, body, data) =>
      || s' == Set(s, i, ReadDone(r, whole, body, data))
      || (CanSend(s, s.calls[i], upTo) && s' == Set(s, i, WithPiece(s, s.calls[i], upTo)))
    case DeleteWaiting(h) => s' == Set(WithLock(s, h), i, DeleteLooking(h, LockOf(s, h)))
    case DeleteLooking(h, l) =>
      s' == Set(s, i, DeleteBusy(h)) || (AllFree(s, l) && s' == Set(s, i, DeleteLocked(h, l)))
    case DeleteLocked(h, l) => s' == Set(s.(objects := s.objects - {h}, full := s.full - {h}), i, DeleteDone(h))
    case _ => false
  }

  // create_objectfile opens the object under its final name and copies into it; it takes no
  // lock, and may be broken off. A download is renamed into place. Neither touches an
  // object that is there.
  ghost predicate BeginCreate(s: Service, s': Service, h: Hash, body: Bytes) {
    h !in s.objects && s' == s.(objects := s.objects[h := []], full := s.full[h := body])
  }

  ghost predicate Grow(s: Service, s': Service, h: Hash, upTo: nat) {
    && h in s.objects && h in s.full && |s.objects[h]| < upTo <= |s.full[h]|
    && s' == s.(objects := s.objects[h := s.full[h][..upTo]])
  }

  ghost predicate Install(s: Service, s': Service, h: Hash, body: Bytes) {
    h !in s.objects && s' == s.(objects := s.objects[h := body], full := s.full[h := body])
  }

  ghost predicate StoreStep(s: Service, s': Service) {
    || (exists h, body :: BeginCreate(s, s', h, body))
    || (exists h, upTo: nat :: Grow(s, s', h, upTo))
    || (exists h, body :: Install(s, s', h, body))
  }

  ghost predicate NextService(s: Service, s': Service) {
    (exists i: nat, upTo: nat :: CallStep(s, s', i, upTo)) || StoreStep(s, s')
  }

  ghost predicate ServiceRun(tr: seq<Service>) {
    tr != [] && InitService(tr[0]) && forall t {:trigger StepAt(tr, t)} | 0 <= t < |tr| - 1 :: StepAt(tr, t)
  }

  ghost predicate StepAt(tr: seq<Service>, t: nat)
    requires t + 1 < |tr|
  {
    NextService(tr[t], tr[t + 1])
  }

  // ----- The invariant ---------------------------------------------------------------------

  ghost predicate LockIs(s: Service, h: Hash, l: LockId) { h in s.locks && s.locks[h] == l }

  ghost predicate StreamOk(r: Range, whole: Bytes, body: Bytes, data: Bytes) {
    whole <= body && r.offset <= |whole| && data <= Wanted(whole, r.offset, r.size)
  }

  // A call looks at or holds only the lock of its own hash; a stream is a beginning of the
  // range in an object that holds at least what it held, on the way to the same end.
  ghost predicate CallOk(s: Service, c: Call) {
    match c
    case ReadLooking(r, l) => LockIs(s, r.hash, l)
    case ReadLocked(r, l) => LockIs(s, r.hash, l)
    case ReadFound(r, l) => LockIs(s, r.hash, l) && r.hash in s.objects
    case Streaming(r, l, whole, body, data) =>
      && LockIs(s, r.hash, l) && StreamOk(r, whole, body, data)
      && r.hash in s.objects && whole <= s.objects[r.hash] && r.hash in s.full && s.full[r.hash] == body
    case ReadDone(r, whole, body, data) => StreamOk(r, whole, body, data)
    case DeleteLooking(h, l) => LockIs(s, h, l)
    case DeleteLocked(h, l) => LockIs(s, h, l)
    case _ => true
  }

  ghost predicate StoreOk(s: Service) {
    && s.objects.Keys == s.full.Keys && (forall h | h in s.objects :: s.objects[h] <= s.full[h])
    && forall h, g | h in s.locks && g in s.locks && s.locks[h] == s.locks[g] :: h == g
  }

  ghost predicate Exclusive(s: Service, i: nat, j: nat)
    requires i < |s.calls| && j < |s.calls|
  {
    forall l | Owns(s.calls[i], l) && i != j :: !Owns(s.calls[j], l) && !Shares(s.calls[j], l)
  }

  ghost predicate ServiceInv(s: Service) {
    && StoreOk(s)
    && (forall i {:trigger CallOk(s, s.calls[i])} | 0 <= i < |s.calls| :: CallOk(s, s.calls[i]))
    && (forall i, j {:trigger Exclusive(s, i, j)} | 0 <= i < |s.calls| && 0 <= j < |s.calls| :: Exclusive(s, i, j))
  }

  // Two calls on one hash have one lock, so what one owns the other cannot hold.
  lemma OwnerIsAlone(s: Service, i: nat, j: nat)
    requires ServiceInv(s) && i < |s.calls| && j < |s.calls| && i != j
    requires s.calls[i].DeleteLocked? && (s.calls[j].DeleteLocked? || HoldsShared(s.calls[j]))
    ensures HashOf(s.calls[i]) != HashOf(s.calls[j])
  {
    assert CallOk(s, s.calls[i]) && CallOk(s, s.calls[j]) && Exclusive(s, i, j);
    assert Owns(s.calls[i], s.calls[i].lock);
  }

  // A piece continues what was sent of the range.
  lemma PieceContinues(s: Service, c: Call, upTo: nat)
    requires CallOk(s, c) && CanSend(s, c, upTo)
    ensures WithPiece(s, c, upTo).data <= Wanted(c.whole, c.range.offset, c.range.size)
  {
    var offset, from, n := c.range.offset, |c.data|, upTo - |c.data|;
    var wanted := Wanted(c.whole, offset, c.range.size);
    SliceOfSlice(c.whole, offset, |wanted|, from, n);
    SameSlice(c.whole, s.objects[c.range.hash], offset + from, offset + upTo);
    assert wanted == c.whole[offset..offset + |wanted|] && c.data == wanted[..from];
  }

  lemma SameSlice(a: Bytes, b: Bytes, lo: nat, hi: nat)
    requires a <= b && lo <= hi <= |a|
    ensures a[lo..hi] == b[lo..hi]
  {
    assert a == b[..|a|];
  }

  // The call that moved.
  lemma MovedOk(s: Service, s': Service, i: nat, upTo: nat)
    requires ServiceInv(s) && CallStep(s, s', i, upTo)
    ensures |s'.calls| == |s.calls| && CallOk(s', s'.calls[i])
  {
    var c := s.calls[i];
    assert CallOk(s, c);
    if CanSend(s, c, upTo) { PieceContinues(s, c, upTo); }
  }

  // What a step of one call leaves of the locks and the objects.
  lemma StepOnStore(s: Service, s': Service, i: nat, upTo: nat)
    requires CallStep(s, s', i, upTo)
    ensures forall h | h in s.locks :: h in s'.locks && s'.locks[h] == s.locks[h]
    ensures forall h | h in s.objects && !(s.calls[i].DeleteLocked? && s.calls[i].hash == h) ::
              h in s'.objects && s'.objects[h] == s.objects[h]
    ensures forall h | h in s.full && !(s.calls[i].DeleteLocked? && s.calls[i].hash == h) ::
              h in s'.full && s'.full[h] == s.full[h]
  {}

  // Any other call: its lock stays, and so does the object it looks at.
  lemma StillOk(s: Service, s': Service, i: nat, upTo: nat, j: nat)
    requires ServiceInv(s) && CallStep(s, s', i, upTo) && j < |s.calls| && j != i
    ensures CallOk(s', s.calls[j])
  {
    assert CallOk(s, s.calls[j]);
    StepOnStore(s, s', i, upTo);
    if s.calls[i].DeleteLocked? && HoldsShared(s.calls[j]) {
      OwnerIsAlone(s, i, j);
    }
  }

  lemma StillThere(s: Service, s': Service, i: nat, upTo: nat, j: nat)
    requires CallStep(s, s', i, upTo) && j < |s.calls| && j != i
    ensures |s'.calls| == |s.calls| && s'.calls[j] == s.calls[j]
  {}

  lemma LocksApart(s: Service, h: Hash)
    requires forall h, g | h in s.locks && g in s.locks && s.locks[h] == s.locks[g] :: h == g
    ensures var t := WithLock(s, h);
            forall h, g | h in t.locks && g in t.locks && t.locks[h] == t.locks[g] :: h == g
  {
    assert forall g | g in s.locks :: s.locks[g] in s.locks.Values;
  }

  lemma StillExclusive(s: Service, s': Service, i: nat, upTo: nat, a: nat, b: nat)
    requires ServiceInv(s) && CallStep(s, s', i, upTo) && a < |s.calls| && b < |s.calls|
    ensures |s'.calls| == |s.calls| && Exclusive(s', a, b)
  {
    assert Exclusive(s, a, b) && Exclusive(s, b, a);
    assert s.calls[a] in s.calls && s.calls[b] in s.calls;
  }

  // The store gained objects or bytes at their ends.
  ghost predicate Grew(s: Service, s': Service) {
    && s'.locks == s.locks && s'.calls == s.calls
    && forall h | h in s.objects && h in s.full ::
         h in s'.objects && s.objects[h] <= s'.objects[h] && h in s'.full && s'.full[h] == s.full[h]
  }

  lemma Creates(s: Service, s': Service, h: Hash, body: Bytes)
    requires StoreOk(s) && (BeginCreate(s, s', h, body) || Install(s, s', h, body))
    ensures StoreOk(s') && Grew(s, s')
  {}

  lemma Grows(s: Service, s': Service, h: Hash, upTo: nat)
    requires StoreOk(s) && Grow(s, s', h, upTo)
    ensures StoreOk(s') && Grew(s, s')
  {
    assert s.objects[h] == s.full[h][..|s.objects[h]|];
  }

  lemma StoreGrows(s: Service, s': Service)
    requires StoreOk(s) && StoreStep(s, s')
    ensures StoreOk(s') && Grew(s, s')
  {
    if h, upTo: nat :| Grow(s, s', h, upTo) {
      Grows(s, s', h, upTo);
    } else {
      var h, body :| BeginCreate(s, s', h, body) || Install(s, s', h, body);
      Creates(s, s', h, body);
    }
  }

  lemma CallSeesGrowth(s: Service, s': Service, c: Call)
    requires StoreOk(s) && Grew(s, s') && CallOk(s, c)
    ensures CallOk(s', c)
  {}

  lemma StoreKeeps(s: Service, s': Service)
    requires ServiceInv(s) && StoreStep(s, s')
    ensures ServiceInv(s')
  {
    StoreGrows(s, s');
    forall j | 0 <= j < |s'.calls| ensures CallOk(s', s'.calls[j]) { CallSeesGrowth(s, s', s.calls[j]); }
    forall a, b | 0 <= a < |s'.calls| && 0 <= b < |s'.calls| ensures Exclusive(s', a, b) { assert Exclusive(s, a, b); }
  }

  lemma CallKeeps(s: Service, s': Service, i: nat, upTo: nat)
    requires ServiceInv(s) && CallStep(s, s', i, upTo)
    ensures ServiceInv(s')
  {
    MovedOk(s, s', i, upTo);
    LocksApart(s, HashOf(s.calls[i]));
    forall j | 0 <= j < |s'.calls| ensures CallOk(s', s'.calls[j]) {
      if j != i {
        StillThere(s, s', i, upTo, j);
        StillOk(s, s', i, upTo, j);
      }
    }
    forall a, b | 0 <= a < |s'.calls| && 0 <= b < |s'.calls| ensures Exclusive(s', a, b) {
      StillExclusive(s, s', i, upTo, a, b);
    }
  }

  lemma ServiceKeeps(s: Service, s': Service)
    requires ServiceInv(s) && NextService(s, s')
    ensures ServiceInv(s')
  {
    if i: nat, upTo: nat :| CallStep(s, s', i, upTo) {
      CallKeeps(s, s', i, upTo);
    } else {
      StoreKeeps(s, s');
    }
  }

  lemma {:induction false} ServiceReachable(tr: seq<Service>, t: nat)
    requires ServiceRun(tr) && t < |tr|
    ensures ServiceInv(tr[t])
  {
    if t == 0 {
      forall i | 0 <= i < |tr[0].calls| ensures CallOk(tr[0], tr[0].calls[i]) { assert tr[0].calls[i] in tr[0].calls; }
      forall i, j | 0 <= i < |tr[0].calls| && 0 <= j < |tr[0].calls| ensures Exclusive(tr[0], i, j) {
        assert tr[0].calls[i] in tr[0].calls;
      }
    } else {
      ServiceReachable(tr, t - 1);
      assert StepAt(tr, t - 1);
      ServiceKeeps(tr[t - 1], tr[t]);
    }
  }

  // ----- Theorems over whole runs --------------------------------------------------------------

  // From a reader's existence check to its last piece the object is not removed; it holds
  // what it held when its size was read, and what the reader has sent is a beginning of the
  // range asked for in that.
  lemma StreamSeesOneObject(tr: seq<Service>, t: nat, i: nat)
    requires ServiceRun(tr) && t < |tr| && i < |tr[t].calls| && (tr[t].calls[i].ReadFound? || tr[t].calls[i].Streaming?)
    ensures tr[t].calls[i].range.hash in tr[t].objects
    ensures var c := tr[t].calls[i];
            c.Streaming? ==> && c.whole <= tr[t].objects[c.range.hash] && c.range.offset <= |c.whole|
                             && c.data <= Wanted(c.whole, c.range.offset, c.range.size)
  {
    ServiceReachable(tr, t);
    assert CallOk(tr[t], tr[t].calls[i]);
  }

  predicate Streams(c: Call) { c.Streaming? || c.ReadDone? }

  // What a call may become in a step, whoever moves: a stream goes on with the object it
  // began with, and what is done stays done.
  ghost predicate Becomes(c: Call, c': Call) {
    && (c.DeleteLocked? || c.DeleteDone? ==> c'.DeleteLocked? || c'.DeleteDone?)
    && (Streams(c) ==> Streams(c') && c'.range == c.range && c'.whole == c.whole && c'.body == c.body)
    && (c.ReadDone? ==> c' == c)
  }

  lemma CallStepOn(s: Service, s': Service, j: nat, upTo: nat, i: nat)
    requires CallStep(s, s', j, upTo) && i < |s.calls|
    ensures |s'.calls| == |s.calls| && Becomes(s.calls[i], s'.calls[i])
  {
    if i != j { assert s'.calls[i] == s.calls[i]; }
  }

  lemma StepOnCall(s: Service, s': Service, i: nat)
    requires NextService(s, s') && i < |s.calls|
    ensures |s'.calls| == |s.calls| && Becomes(s.calls[i], s'.calls[i])
  {
    if j: nat, upTo: nat :| CallStep(s, s', j, upTo) {
      CallStepOn(s, s', j, upTo, i);
    } else {
      assert s'.calls == s.calls;
    }
  }

  lemma {:induction false} SameStream(tr: seq<Service>, t: nat, u: nat, i: nat)
    requires ServiceRun(tr) && t <= u < |tr| && i < |tr[t].calls| && Streams(tr[t].calls[i])
    ensures i < |tr[u].calls| && Becomes(tr[t].calls[i], tr[u].calls[i])
  {
    if t < u {
      SameStream(tr, t, u - 1, i);
      assert StepAt(tr, u - 1);
      StepOnCall(tr[u - 1], tr[u], i);
    }
  }

  // The call opens the object in the step after t.
  ghost predicate OpensAt(tr: seq<Service>, t: nat, i: nat) {
    && t + 1 < |tr| && i < |tr[t].calls| && i < |tr[t + 1].calls|
    && tr[t].calls[i].ReadFound? && tr[t + 1].calls[i].Streaming?
  }

  lemma Opened(tr: seq<Service>, t: nat, u: nat, i: nat)
    requires ServiceRun(tr) && OpensAt(tr, t, i) && t < u < |tr|
    ensures i < |tr[u].calls| && Streams(tr[u].calls[i])
    ensures var r, c := tr[t].calls[i].range, tr[u].calls[i];
            && r.hash in tr[t].objects && r.hash in tr[t].full && tr[t].objects[r.hash] <= tr[t].full[r.hash]
            && c.range == r && c.whole == tr[t].objects[r.hash] && c.body == tr[t].full[r.hash]
  {
    ServiceReachable(tr, t);
    assert StepAt(tr, t);
    Opens(tr[t], tr[t + 1], i, tr[t + 1].calls[i]);
    SameStream(tr, t + 1, u, i);
  }

  // The object a stream reads is complete and stays unchanged to its last piece exactly
  // when it was not still being created as its size was read, at step t.
  lemma UnchangedIff(tr: seq<Service>, t: nat, u: nat, i: nat)
    requires ServiceRun(tr) && OpensAt(tr, t, i) && t < u < |tr| && i < |tr[u].calls| && tr[u].calls[i].Streaming?
    ensures var h := tr[t].calls[i].range.hash;
            && h in tr[t].objects && h in tr[u].objects && h in tr[u].full
            && (tr[u].objects[h] == tr[t].objects[h] == tr[u].full[h] <==> !InProgress(tr[t], h))
  {
    Opened(tr, t, u, i);
    StreamHolds(tr, u, i);
    HeldIff(tr[u], tr[u].calls[i], tr[t].objects[tr[t].calls[i].range.hash], tr[t].full[tr[t].calls[i].range.hash]);
  }

  lemma StreamHolds(tr: seq<Service>, t: nat, i: nat)
    requires ServiceRun(tr) && t < |tr| && i < |tr[t].calls|
    ensures StoreOk(tr[t]) && CallOk(tr[t], tr[t].calls[i])
  {
    ServiceReachable(tr, t);
  }

  lemma HeldIff(s: Service, c: Call, whole: Bytes, body: Bytes)
    requires StoreOk(s) && c.Streaming? && CallOk(s, c) && c.whole == whole && c.body == body
    ensures var h := c.range.hash;
            h in s.objects && h in s.full && (s.objects[h] == whole == s.full[h] <==> whole == body)
  {}

  lemma Opens(s: Service, s': Service, i: nat, c: Call)
    requires StoreOk(s) && NextService(s, s') && i < |s.calls| && i < |s'.calls|
    requires s.calls[i].ReadFound? && s'.calls[i] == c && c.Streaming?
    ensures var h := s.calls[i].range.hash;
            && h in s.objects && h in s.full && s.objects[h] <= s.full[h]
            && c.range == s.calls[i].range && c.whole == s.objects[h] && c.body == s.full[h]
  {
    if j: nat, upTo: nat :| CallStep(s, s', j, upTo) {
      assert j == i;
    }
  }

  // What a reader got is a beginning of the range in what was there as it began, which in
  // turn is a beginning of the object as it was meant to be.
  lemma DoneMeans(tr: seq<Service>, t: nat, i: nat)
    requires ServiceRun(tr) && t < |tr| && i < |tr[t].calls| && tr[t].calls[i].ReadDone?
    ensures var c := tr[t].calls[i];
            && c.whole <= c.body && c.range.offset <= |c.whole| <= |c.body|
            && c.data <= Wanted(c.whole, c.range.offset, c.range.size)
  {
    StreamHolds(tr, t, i);
  }

  // A chunk asked for while the object was complete comes as from a device that holds it,
  // through whatever the other calls and the commands did meanwhile: what the reader has when
  // the stream ends well is a beginning of the chunk, and all of it unless a read failed.
  lemma ServesAsHolder(tr: seq<Service>, t: nat, u: nat, i: nat, chunk: nat)
    requires ServiceRun(tr) && OpensAt(tr, t, i) && t < u < |tr| && i < |tr[u].calls| && tr[u].calls[i].ReadDone?
    requires tr[t].calls[i].range.hash in tr[t].objects && !InProgress(tr[t], tr[t].calls[i].range.hash)
    requires var r := tr[t].calls[i].range;
             var body := tr[t].objects[r.hash];
             && |body| < TWO_64 && chunk < ChunkCount(|body|) && chunk * CHUNK <= |body|
             && r == Range(r.hash, chunk * CHUNK, ChunkSize(|body|, chunk))
    ensures var body, data := tr[t].objects[tr[t].calls[i].range.hash], tr[u].calls[i].data;
            && Download.FromHolder(body, chunk, Ok(data), if data == ChunkOf(body, chunk) then Complete else ReadFailed)
            && Download.FromHolder(body, chunk, Err, ReceiverGone)
  {
    Opened(tr, t, u, i);
    DoneMeans(tr, u, i);
    var body := tr[t].objects[tr[t].calls[i].range.hash];
    ChunksNotEmpty(|body|, chunk);
    assert Wanted(body, chunk * CHUNK, ChunkSize(|body|, chunk)) == ChunkOf(body, chunk);
  }

  // A reader that comes while an object is being copied into place gets a truncated one, and
  // by its own account all of it.
  lemma ReaderMeetsCreation(h: Hash, body: Bytes) returns (tr: seq<Service>)
    requires body != []
    ensures ServiceRun(tr)
    ensures var w := tr[|tr| - 1];
            |w.calls| == 1 &&
            var c := w.calls[0];
            c.ReadDone? && c.data == Wanted(c.whole, 0, 0) && c.range == Range(h, 0, 0) && c.body == body
              && c.data != body
  {
    var r := Range(h, 0, 0);
    var s0 := Service(map[], map[], map[], [ReadWaiting(r)]);
    var s1 := Service(map[h := []], map[h := body], map[], [ReadWaiting(r)]);
    var s2 := WithLock(s1, h).(calls := [ReadLooking(r, LockOf(s1, h))]);
    var s3 := s2.(calls := [ReadLocked(r, LockOf(s1, h))]);
    var s4 := s2.(calls := [ReadFound(r, LockOf(s1, h))]);
    var s5 := s2.(calls := [Streaming(r, LockOf(s1, h), [], body, [])]);
    var s6 := s2.(calls := [ReadDone(r, [], body, [])]);
    tr := [s0, s1, s2, s3, s4, s5, s6];
    assert BeginCreate(s0, s1, h, body);
    assert CallStep(s1, s2, 0, 0) && CallStep(s2, s3, 0, 0) && CallStep(s3, s4, 0, 0);
    assert CallStep(s4, s5, 0, 0) && CallStep(s5, s6, 0, 0);
    forall t | 0 <= t < |tr| - 1 ensures StepAt(tr, t) {}
  }

  // What a call is answered: a read is refused exactly when the object is not there at its
  // existence check, or its range begins beyond the size then read, and otherwise streams; a
  // delete that got the lock leaves the object gone and answers success.
  lemma CallAnswered(s: Service, s': Service, i: nat, upTo: nat)
    requires CallStep(s, s', i, upTo)
    ensures |s'.calls| == |s.calls|
    ensures var c, c' := s.calls[i], s'.calls[i];
            && (c.ReadLocked? ==> c' == if c.range.hash in s.objects then ReadFound(c.range, c.lock)
                else ReadRefused(c.range))
            && (c.ReadFound? ==> c.range.hash in s.objects
                                 && (c'.ReadRefused? <==> c.range.offset > |s.objects[c.range.hash]|)
                                 && (c'.ReadRefused? || (c'.Streaming? && c'.range == c.range && c'.data == []
                                                         && c'.whole == s.objects[c.range.hash])))
            && (c'.ReadRefused? ==> c.ReadLocked? || c.ReadFound?)
            && (c.DeleteLocked? ==> c' == DeleteDone(c.hash) && c.hash !in s'.objects)
            && (c'.DeleteBusy? ==> c.DeleteLooking?)
  {}

  // A stream that has not sent all of its range can send the next 64 KiB of it, or the rest.
  lemma StreamGoesOn(tr: seq<Service>, t: nat, i: nat) returns (s': Service)
    requires ServiceRun(tr) && t < |tr| && i < |tr[t].calls| && tr[t].calls[i].Streaming?
    requires var c := tr[t].calls[i];
             c.range.offset <= |c.whole| && |c.data| < |Wanted(c.whole, c.range.offset, c.range.size)|
    ensures NextService(tr[t], s') && i < |s'.calls| && s'.calls[i].Streaming?
    ensures var c, c' := tr[t].calls[i], s'.calls[i];
            var wanted := Wanted(c.whole, c.range.offset, c.range.size);
            c'.data == wanted[..Min(|c.data| + 64 * 1024, |wanted|)]
  {
    StreamHolds(tr, t, i);
    var s, c := tr[t], tr[t].calls[i];
    var wanted := Wanted(c.whole, c.range.offset, c.range.size);
    var upTo := Min(|c.data| + PIECE, |wanted|);
    assert CanSend(s, c, upTo);
    PieceContinues(s, c, upTo);
    s' := Set(s, i, WithPiece(s, c, upTo));
    assert CallStep(s, s', i, upTo);
    assert |s'.calls[i].data| == upTo;
  }

  // Deletes of one hash never overlap, nor does a delete with a stream of it.
  lemma DeletesExclude(tr: seq<Service>, t: nat, i: nat, j: nat)
    requires ServiceRun(tr) && t < |tr| && i < |tr[t].calls| && j < |tr[t].calls| && i != j
    requires tr[t].calls[i].DeleteLocked? && HashOf(tr[t].calls[i]) == HashOf(tr[t].calls[j])
    ensures !tr[t].calls[j].DeleteLocked? && !HoldsShared(tr[t].calls[j])
  {
    ServiceReachable(tr, t);
    if tr[t].calls[j].DeleteLocked? || HoldsShared(tr[t].calls[j]) {
      OwnerIsAlone(tr[t], i, j);
    }
  }

  // An object disappears only in the step of a delete that thereby answers success.
  lemma OnlyDeletesRemove(s: Service, s': Service, h: Hash)
    requires NextService(s, s') && h in s.objects && h !in s'.objects
    ensures exists i :: 0 <= i < |s.calls| && s.calls[i].DeleteLocked? && s.calls[i].hash == h
                        && s' == Set(s.(objects := s.objects - {h}, full := s.full - {h}), i, DeleteDone(h))
  {
    var i: nat, upTo: nat :| CallStep(s, s', i, upTo);
    assert s.calls[i].DeleteLocked?;
  }

  // A delete that ever held the lock ends in success, so one that answers busy never did
  // and removed nothing.
  lemma {:induction false} BusyRemovedNothing(tr: seq<Service>, t: nat, u: nat, i: nat)
    requires ServiceRun(tr) && t <= u < |tr| && i < |tr[t].calls|
             && (tr[t].calls[i].DeleteLocked? || tr[t].calls[i].DeleteDone?)
    ensures i < |tr[u].calls| && (tr[u].calls[i].DeleteLocked? || tr[u].calls[i].DeleteDone?)
  {
    if t < u {
      BusyRemovedNothing(tr, t, u - 1, i);
      assert StepAt(tr, u - 1);
      StepOnCall(tr[u - 1], tr[u], i);
    }
  }

  lemma LocksStay(s: Service, s': Service, h: Hash)
    requires NextService(s, s') && h in s.locks
    ensures h in s'.locks && s'.locks[h] == s.locks[h]
  {
    if i: nat, upTo: nat :| CallStep(s, s', i, upTo) { StepOnStore(s, s', i, upTo); }
  }

  // A hash has one lock for the life of the service.
  lemma {:induction false} OneLockPerHash(tr: seq<Service>, t: nat, u: nat, h: Hash)
    requires ServiceRun(tr) && t <= u < |tr| && h in tr[t].locks
    ensures h in tr[u].locks && tr[u].locks[h] == tr[t].locks[h]
  {
    if t < u {
      OneLockPerHash(tr, t, u - 1, h);
      assert StepAt(tr, u - 1);
      LocksStay(tr[u - 1], tr[u], h);
    }
  }
}
