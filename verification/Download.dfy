// The parallel download: worker threads claim chunk indices from one counter until it
// runs out or an error is seen. Steps are the atomic operations of the threads, in any
// interleaving; whoever is joined last, the outcome is that of the chunks alone.
module Download {
  import opened Basics
  import opened Transfer

  const MAX_THREADS: nat := 8

  // get_download_thread_count; `hardware` is 0 when the platform does not tell.
  function ThreadCount(chunks: nat, owners: nat, hardware: nat): nat {
    var n := Min(chunks, owners);
    Min(if hardware != 0 then Min(n, hardware) else n, MAX_THREADS)
  }

  // There is a worker exactly when there is something to fetch and someone to ask, and there
  // are as many as the four limits allow.
  lemma SomeWorker(chunks: nat, owners: nat, hardware: nat)
    ensures ThreadCount(chunks, owners, hardware) > 0 <==> chunks > 0 && owners > 0
    ensures ThreadCount(chunks, owners, hardware) <= 8
    ensures ThreadCount(chunks, owners, hardware) <= chunks && ThreadCount(chunks, owners, hardware) <= owners
    ensures hardware != 0 ==> ThreadCount(chunks, owners, hardware) <= hardware
    ensures ThreadCount(chunks, owners, hardware) in {chunks, owners, 8} + if hardware != 0 then {hardware} else {}
  {}

  // ----- Worker threads ------------------------------------------------------------------

  // AtLoop: about to read has_error. Claiming: read it as false, about to fetch_add.
  // Fetching: busy with a chunk. Failing: caught an exception, waiting for error_mutex.
  // Saving: holds error_mutex, has recorded the error, about to set has_error.
  datatype Worker = AtLoop | Claiming | Fetching(chunk: nat) | Failing(chunk: nat) | Saving | Exited

  // `claimant` is history: who claimed each chunk.
  datatype Pool = Pool(
    count: nat,
    outcome: nat -> Result<Bytes>,
    workers: seq<Worker>,
    next: nat,
    hasError: bool,
    firstError: Option<nat>,
    mutex: Option<nat>,
    chunks: map<nat, Bytes>,
    claimant: map<nat, nat>)

  ghost predicate InitPool(p: Pool) {
    && (forall w | w in p.workers :: w.AtLoop?) && p.next == 0 && !p.hasError && p.firstError == None
    && p.mutex == None && p.chunks == map[] && p.claimant == map[]
  }

  predicate CanMove(p: Pool, w: nat) {
    w < |p.workers| && !p.workers[w].Exited? && (p.workers[w].Failing? ==> p.mutex == None)
  }

  function Become(p: Pool, w: nat, to: Worker): Pool
    requires w < |p.workers|
  {
    p.(workers := p.workers[w := to])
  }

  // The next atomic operation of worker w.
  function Move(p: Pool, w: nat): Pool
    requires CanMove(p, w)
  {
    match p.workers[w]
    case AtLoop => Become(p, w, if p.hasError then Exited else Claiming)
    case Claiming =>
      if p.next >= p.count then Become(p, w, Exited).(next := p.next + 1)
      else Become(p, w, Fetching(p.next)).(next := p.next + 1, claimant := p.claimant[p.next := w])
    case Fetching(i) =>
      (match p.outcome(i)
       case Ok(b) => Become(p, w, AtLoop).(chunks := p.chunks[i := b])
       case Err => Become(p, w, Failing(i)))
    case Failing(i) =>
      Become(p, w, Saving).(mutex := Some(w), firstError := if p.firstError == None then Some(i) else p.firstError)
    case Saving => Become(p, w, Exited).(mutex := None, hasError := true)
    case Exited => p
  }

  ghost predicate PoolRun(tr: seq<Pool>) {
    && tr != [] && InitPool(tr[0])
    && forall t | 0 <= t < |tr| - 1 :: exists w :: CanMove(tr[t], w) && tr[t + 1] == Move(tr[t], w)
  }

  predicate Joined(p: Pool) { forall w | w in p.workers :: w.Exited? }

  predicate Busy(w: Worker, i: nat) { w == Fetching(i) || w == Failing(i) }

  // A busy worker works on a chunk it claimed itself and nobody has finished.
  ghost predicate WorkerOk(p: Pool, w: nat)
    requires w < |p.workers|
  {
    match p.workers[w]
    case Fetching(i) => i < p.count && i in p.claimant && p.claimant[i] == w && i !in p.chunks
    case Failing(i) => i < p.count && i in p.claimant && p.claimant[i] == w && i !in p.chunks && p.outcome(i).Err?
    case Saving => p.firstError.Some? && p.mutex == Some(w)
    case Exited => p.hasError || p.next >= p.count
    case _ => true
  }

  // A chunk is claimed once the counter is past it; until an error is recorded, a
  // claimed chunk is there or its claimant is at it.
  ghost predicate ChunkOk(p: Pool, i: nat) {
    && (i in p.claimant <==> i < p.next)
    && (i in p.claimant ==> p.claimant[i] < |p.workers|)
    && (i in p.claimant && p.firstError == None && i !in p.chunks ==> Busy(p.workers[p.claimant[i]], i))
    && (i in p.chunks ==> i in p.claimant && p.outcome(i) == Ok(p.chunks[i]))
  }

  ghost predicate PoolInv(p: Pool) {
    && (forall w {:trigger WorkerOk(p, w)} | 0 <= w < |p.workers| :: WorkerOk(p, w))
    && (forall i: nat {:trigger ChunkOk(p, i)} | i < p.count :: ChunkOk(p, i))
    && (forall i | i in p.claimant :: i < p.count)
    && (forall i | i in p.chunks :: i < p.count)
    && (p.firstError.Some? ==> p.firstError.value < p.count && p.outcome(p.firstError.value).Err?)
    && (p.hasError ==> p.firstError.Some?)
    && (p.mutex.Some? ==> p.mutex.value < |p.workers| && p.workers[p.mutex.value].Saving?)
  }

  lemma InitPoolInv(p: Pool)
    requires InitPool(p)
    ensures PoolInv(p)
  {
    forall w | 0 <= w < |p.workers| ensures WorkerOk(p, w) { assert p.workers[w] in p.workers; }
  }

  // The mover itself.
  lemma MoverKeeps(p: Pool, w: nat)
    requires CanMove(p, w) && WorkerOk(p, w) && (p.firstError.Some? || !p.hasError)
    requires p.next < p.count ==> p.next !in p.chunks
    ensures WorkerOk(Move(p, w), w)
  {}

  // Anybody else: claims of the mover are new, its mutex was free, its chunk is its own.
  lemma OtherKeeps(p: Pool, w: nat, v: nat)
    requires CanMove(p, w) && WorkerOk(p, w) && v < |p.workers| && v != w && WorkerOk(p, v)
    requires p.next < p.count ==> p.next !in p.claimant
    ensures WorkerOk(Move(p, w), v)
  {
    assert Move(p, w).workers[v] == p.workers[v];
  }

  lemma ChunkKeeps(p: Pool, w: nat, i: nat)
    requires CanMove(p, w) && WorkerOk(p, w) && i < p.count && ChunkOk(p, i)
    ensures ChunkOk(Move(p, w), i)
  {}

  lemma RestKeeps(p: Pool, w: nat)
    requires PoolInv(p) && CanMove(p, w)
    ensures var p' := Move(p, w);
            && (forall i | i in p'.claimant :: i < p'.count)
            && (forall i | i in p'.chunks :: i < p'.count)
            && (forall i | i in p.claimant :: i in p'.claimant && p'.claimant[i] == p.claimant[i])
  {
    assert WorkerOk(p, w);
    if p.next < p.count { assert ChunkOk(p, p.next); }
  }

  lemma ErrorsKeep(p: Pool, w: nat)
    requires PoolInv(p) && CanMove(p, w)
    ensures var p' := Move(p, w);
            && (p'.firstError.Some? ==> p'.firstError.value < p'.count && p'.outcome(p'.firstError.value).Err?)
            && (p'.hasError ==> p'.firstError.Some?)
            && (p'.mutex.Some? ==> p'.mutex.value < |p'.workers| && p'.workers[p'.mutex.value].Saving?)
  {
    assert WorkerOk(p, w);
  }

  lemma MoveKeeps(p: Pool, w: nat)
    requires PoolInv(p) && CanMove(p, w)
    ensures PoolInv(Move(p, w))
    ensures Move(p, w).count == p.count && Move(p, w).outcome == p.outcome && |Move(p, w).workers| == |p.workers|
    // Claims are never revised.
    ensures forall i | i in p.claimant :: i in Move(p, w).claimant && Move(p, w).claimant[i] == p.claimant[i]
  {
    var p' := Move(p, w);
    assert WorkerOk(p, w);
    if p.next < p.count { assert ChunkOk(p, p.next); }
    forall v | 0 <= v < |p'.workers| ensures WorkerOk(p', v) {
      assert WorkerOk(p, v);
      if v == w { MoverKeeps(p, w); } else { OtherKeeps(p, w, v); }
    }
    forall i: nat | i < p'.count ensures ChunkOk(p', i) {
      assert ChunkOk(p, i);
      ChunkKeeps(p, w, i);
    }
    RestKeeps(p, w);
    ErrorsKeep(p, w);
  }

  // Once an error is seen no worker starts on another chunk, except one that was about to
  // claim it; and the error that is kept is the first one saved.
  lemma ErrorStops(p: Pool, w: nat)
    requires CanMove(p, w)
    ensures p.hasError && p.workers[w].AtLoop? ==> Move(p, w).workers[w].Exited?
    ensures !p.workers[w].Claiming? ==> Move(p, w).claimant == p.claimant && Move(p, w).next == p.next
    ensures p.firstError.Some? ==> Move(p, w).firstError == p.firstError
    ensures p.firstError == None && p.workers[w].Failing? ==> Move(p, w).firstError == Some(p.workers[w].chunk)
  {}

  lemma {:induction false} PoolReachable(tr: seq<Pool>, t: nat)
    requires PoolRun(tr) && t < |tr|
    ensures PoolInv(tr[t]) && tr[t].count == tr[0].count && tr[t].outcome == tr[0].outcome
            && |tr[t].workers| == |tr[0].workers|
  {
    if t == 0 {
      InitPoolInv(tr[0]);
    } else {
      PoolReachable(tr, t - 1);
      var w :| CanMove(tr[t - 1], w) && tr[t] == Move(tr[t - 1], w);
      MoveKeeps(tr[t - 1], w);
    }
  }

  // ----- Termination -----------------------------------------------------------------------

  function Rank(w: Worker): nat {
    match w
    case Exited => 0
    case Saving => 1
    case Failing(_) => 2
    case Claiming => 3
    case AtLoop => 4
    case Fetching(_) => 5
  }

  function Ranks(ws: seq<Worker>): nat {
    if ws == [] then 0 else Ranks(ws[..|ws| - 1]) + Rank(ws[|ws| - 1])
  }

  // Steps left: three for every unclaimed chunk on top of what the workers are at.
  function StepsLeft(p: Pool): nat { 3 * Unclaimed(p) + Ranks(p.workers) }

  lemma {:induction false} RanksUpdate(ws: seq<Worker>, w: nat, to: Worker)
    requires w < |ws|
    ensures Ranks(ws[w := to]) == Ranks(ws) - Rank(ws[w]) + Rank(to)
  {
    var last := |ws| - 1;
    if w < last {
      RanksUpdate(ws[..last], w, to);
      assert ws[w := to][..last] == ws[..last][w := to];
    } else {
      assert ws[w := to][..last] == ws[..last];
    }
  }

  function Unclaimed(p: Pool): nat { if p.next < p.count then p.count - p.next else 0 }

  lemma OnlyMoverMoves(p: Pool, w: nat)
    requires CanMove(p, w)
    ensures Move(p, w).workers == p.workers[w := Move(p, w).workers[w]]
  {}

  // The mover's own share of the work left.
  lemma MoverDescends(p: Pool, w: nat)
    requires CanMove(p, w)
    ensures 3 * Unclaimed(Move(p, w)) + Rank(Move(p, w).workers[w]) < 3 * Unclaimed(p) + Rank(p.workers[w])
  {}

  lemma MoveDescends(p: Pool, w: nat)
    requires CanMove(p, w)
    ensures StepsLeft(Move(p, w)) < StepsLeft(p)
  {
    MoverDescends(p, w);
    OnlyMoverMoves(p, w);
    RanksUpdate(p.workers, w, Move(p, w).workers[w]);
  }

  // Every schedule is finite: no run is longer than the work there is.
  lemma {:induction false} RunsAreShort(tr: seq<Pool>, t: nat)
    requires PoolRun(tr) && t < |tr|
    ensures t + StepsLeft(tr[t]) <= StepsLeft(tr[0])
  {
    if t > 0 {
      RunsAreShort(tr, t - 1);
      var w :| CanMove(tr[t - 1], w) && tr[t - 1 + 1] == Move(tr[t - 1], w);
      MoveDescends(tr[t - 1], w);
    }
  }

  // No schedule gets stuck before every worker has exited.
  lemma NoDeadlock(tr: seq<Pool>, t: nat) returns (w: nat)
    requires PoolRun(tr) && t < |tr| && !Joined(tr[t])
    ensures CanMove(tr[t], w)
  {
    PoolReachable(tr, t);
    var p := tr[t];
    if p.mutex.Some? {
      w := p.mutex.value;
    } else {
      var x :| x in p.workers && !x.Exited?;
      w :| 0 <= w < |p.workers| && p.workers[w] == x;
    }
  }

  // ----- At the join --------------------------------------------------------------------------

  // The outcome of a download depends on the chunks, not on the schedule.
  function Parts(outcome: nat -> Result<Bytes>, count: nat): Result<seq<Bytes>> {
    if count == 0 then Ok([])
    else match Parts(outcome, count - 1)
         case Err => Err
         case Ok(ps) => if outcome(count - 1).Ok? then Ok(ps + [outcome(count - 1).value]) else Err
  }

  lemma {:induction false} PartsMeans(outcome: nat -> Result<Bytes>, count: nat)
    ensures var r := Parts(outcome, count);
            && (r.Ok? <==> forall i | 0 <= i < count :: outcome(i).Ok?)
            && (r.Ok? ==> |r.value| == count && forall i | 0 <= i < count :: outcome(i) == Ok(r.value[i]))
  {
    if count > 0 { PartsMeans(outcome, count - 1); }
  }

  // When all workers have exited: with no error recorded every chunk is there, with its
  // bytes, each claimed by one worker; otherwise the recorded chunk truly failed. Which
  // of the two it is does not depend on the interleaving.
  lemma JoinOutcome(tr: seq<Pool>)
    requires PoolRun(tr) && Joined(tr[|tr| - 1]) && (tr[0].count > 0 ==> |tr[0].workers| > 0)
    ensures var p := tr[|tr| - 1];
            && (p.firstError == None <==> Parts(p.outcome, p.count).Ok?)
            && (p.firstError == None ==> forall i | 0 <= i < p.count ::
                  i in p.chunks && i in p.claimant && p.outcome(i) == Ok(p.chunks[i]))
            && (p.firstError.Some? ==> p.firstError.value < p.count && p.outcome(p.firstError.value).Err?)
  {
    var last := |tr| - 1;
    PoolReachable(tr, last);
    var p := tr[last];
    PartsMeans(p.outcome, p.count);
    if p.firstError == None {
      forall i | 0 <= i < p.count ensures i in p.chunks && i in p.claimant && p.outcome(i) == Ok(p.chunks[i]) {
        assert WorkerOk(p, 0) && p.workers[0] in p.workers;
        assert ChunkOk(p, i);
        assert p.workers[p.claimant[i]] in p.workers;
      }
    }
  }

  // ----- Assembling and replacing the destination -----------------------------------------------

  // Inserting an empty file into the output stream makes the stream fail.
  method AssembleChunks(parts: seq<Bytes>) returns (r: Result<Bytes>)
    ensures r == if [] in parts then Err else Ok(Concat(parts))
  {
    var assembled: Bytes := [];
    var i := 0;
    while i < |parts|
      invariant 0 <= i <= |parts| && assembled == Concat(parts[..i]) && [] !in parts[..i]
    {
      if parts[i] == [] {
        return Err;
      }
      assert parts[..i + 1][..i] == parts[..i];
      assembled := assembled + parts[i];
      i := i + 1;
    }
    assert parts[..i] == parts;
    return Ok(assembled);
  }

  // The first good answer in the order of asking.
  function FirstOk(sizes: seq<Result<nat>>): (r: Result<nat>)
    ensures r.Ok? ==> exists k | 0 <= k < |sizes| :: sizes[k] == r && forall j | 0 <= j < k :: sizes[j].Err?
    ensures r.Err? <==> forall s | s in sizes :: s.Err?
  {
    if sizes == [] then Err
    else if sizes[0].Ok? then sizes[0]
    else
      var r := FirstOk(sizes[1..]);
      assert forall k | 0 <= k < |sizes| - 1 :: sizes[1..][k] == sizes[k + 1];
      assert forall j | 0 < j < |sizes| :: sizes[j] == sizes[1..][j - 1];
      r
  }

  method ObjectSizeFromAnyOwner(sizes: seq<Result<nat>>) returns (r: Result<nat>)
    ensures r == FirstOk(sizes)
  {
    var i := 0;
    while i < |sizes|
      invariant 0 <= i <= |sizes| && FirstOk(sizes[i..]) == FirstOk(sizes)
    {
      if sizes[i].Ok? {
        return sizes[i];
      }
      i := i + 1;
    }
    return Err;
  }

  // What the client makes of a range served by a device that has the object, and why the
  // stream ended: a read that brings nothing truncates the chunk, and nobody notices yet.
  ghost predicate FromHolder(body: Bytes, chunk: nat, r: Result<Bytes>, ending: Ending) {
    && (r.Ok? <==> ending != ReceiverGone)
    && (r.Ok? ==> chunk * CHUNK <= |body| && r.value <= ChunkOf(body, chunk)
                  && (r.value == ChunkOf(body, chunk) <==> ending == Complete))
  }

  method FetchFromHolder(body: Bytes, chunk: nat, accepts: nat, brings: seq<nat>)
    returns (r: Result<Bytes>, ending: Ending)
    requires |body| < TWO_64 && chunk < ChunkCount(|body|)
    ensures FromHolder(body, chunk, r, ending)
    ensures accepts >= |body| && 0 !in brings ==> ending == Complete
  {
    ChunksNotEmpty(|body|, chunk);
    var status, pieces;
    status, pieces, ending := StreamObjectRange(body, chunk * CHUNK, ChunkSize(|body|, chunk), accepts, brings);
    PiecesBound(pieces);
    r := ReceiveRange(pieces, ending != ReceiverGone);
  }

  // A completed stream brings the bytes of the chunk, 4 MiB of them or what is left.
  lemma WholeFromHolder(body: Bytes, chunk: nat, r: Result<Bytes>)
    requires |body| < TWO_64 && chunk < ChunkCount(|body|) && FromHolder(body, chunk, r, Complete)
    ensures var lo := chunk * (4 * 1024 * 1024);
            var hi := if |body| - lo < 4 * 1024 * 1024 then |body| else lo + 4 * 1024 * 1024;
            0 <= lo < hi <= |body| && r == Ok(body[lo..hi])
  {
    ChunksNotEmpty(|body|, chunk);
  }

  lemma {:induction false} PiecesBound(pieces: seq<Piece>)
    requires forall i | 0 <= i < |pieces| :: 0 < |pieces[i].data|
    ensures |pieces| <= |Concat(DataOf(pieces))|
  {
    if pieces != [] {
      var k := |pieces| - 1;
      PiecesBound(pieces[..k]);
      SnocPiece(pieces[..k], pieces[k]);
      assert pieces == pieces[..k] + [pieces[k]];
    }
  }

  // Some schedule of the workers, run until all of them are joined.
  ghost predicate Schedule(tr: seq<Pool>, size: nat, answers: Answers, owners: nat, hardware: nat)
    requires size < TWO_64
  {
    && PoolRun(tr) && Joined(tr[|tr| - 1])
    && tr[0].count == ChunkCount(size) && |tr[0].workers| == ThreadCount(ChunkCount(size), owners, hardware)
    && forall i :: tr[0].outcome(i) == Outcome(answers, owners, i)
  }

  function Outcomes(answers: Answers, owners: nat): nat -> Result<Bytes> { (i: nat) => Outcome(answers, owners, i) }

  // What a download comes to, whatever the schedule.
  function Assembled(sizes: seq<Result<nat>>, answers: Answers): Result<Bytes>
    requires forall s | s in sizes && s.Ok? :: s.value < TWO_64
  {
    match FirstOk(sizes)
    case Err => Err
    case Ok(size) =>
      match Parts(Outcomes(answers, |sizes|), ChunkCount(size))
      case Err => Err
      case Ok(parts) => if [] in parts then Err else Ok(Concat(parts))
  }

  ghost predicate FirstAnswer(answers: Answers, owners: nat, i: nat, part: Bytes) {
    exists k :: FirstGood(answers, owners, i, 0, k, part)
  }

  // The parts are the first good answers to the chunks of an object of that size.
  ghost predicate FirstGoodParts(answers: Answers, owners: nat, size: nat, parts: seq<Bytes>)
    requires size < TWO_64
  {
    |parts| == ChunkCount(size) && forall i | 0 <= i < |parts| :: FirstAnswer(answers, owners, i, parts[i])
  }

  lemma PartsAreFirstGood(answers: Answers, owners: nat, size: nat, parts: seq<Bytes>)
    requires size < TWO_64
    ensures FirstGoodParts(answers, owners, size, parts) <==>
            Parts(Outcomes(answers, owners), ChunkCount(size)) == Ok(parts)
  {
    var outcome, count := Outcomes(answers, owners), ChunkCount(size);
    PartsMeans(outcome, count);
    forall i | 0 <= i < |parts| ensures FirstAnswer(answers, owners, i, parts[i]) <==> outcome(i) == Ok(parts[i]) {
      OutcomeIsFirst(answers, owners, i, parts[i]);
    }
    if FirstGoodParts(answers, owners, size, parts) {
      assert forall i | 0 <= i < count :: outcome(i) == Ok(parts[i]);
      assert Parts(outcome, count).value == parts;
    }
  }

  // A download comes to b when b is, end to end, the first good answers to the chunks of an
  // object of the first size answered, none of them empty.
  lemma AssembledMeans(sizes: seq<Result<nat>>, answers: Answers, b: Bytes)
    requires forall s | s in sizes && s.Ok? :: s.value < TWO_64
    ensures Assembled(sizes, answers) == Ok(b) <==>
            FirstOk(sizes).Ok? && exists parts :: FirstGoodParts(answers, |sizes|, FirstOk(sizes).value, parts)
                                                  && [] !in parts && b == Concat(parts)
  {
    if FirstOk(sizes).Ok? {
      var size := FirstOk(sizes).value;
      if parts :| FirstGoodParts(answers, |sizes|, size, parts) && [] !in parts && b == Concat(parts) {
        PartsAreFirstGood(answers, |sizes|, size, parts);
      }
      if Parts(Outcomes(answers, |sizes|), ChunkCount(size)).Ok? {
        PartsAreFirstGood(answers, |sizes|, size, Parts(Outcomes(answers, |sizes|), ChunkCount(size)).value);
      }
    }
  }

  lemma {:induction false} SameParts(f: nat -> Result<Bytes>, g: nat -> Result<Bytes>, count: nat)
    requires forall i :: f(i) == g(i)
    ensures Parts(f, count) == Parts(g, count)
  {
    if count > 0 { SameParts(f, g, count - 1); }
  }

  // The chunk files at the join.
  lemma JoinedParts(tr: seq<Pool>, size: nat, answers: Answers, owners: nat, hardware: nat)
    requires size < TWO_64 && owners > 0 && Schedule(tr, size, answers, owners, hardware)
    ensures var p := tr[|tr| - 1];
            var parts := Parts(Outcomes(answers, owners), ChunkCount(size));
            && p.count == ChunkCount(size) && (p.firstError == None <==> parts.Ok?)
            && (p.firstError == None ==> forall i | 0 <= i < p.count :: i in p.chunks)
            && (p.firstError == None ==>
                  && |parts.value| == p.count
                  && forall i | 0 <= i < p.count :: i in p.chunks && parts.value[i] == p.chunks[i])
  {
    var p, outcome := tr[|tr| - 1], Outcomes(answers, owners);
    JoinOutcome(tr);
    PoolReachable(tr, |tr| - 1);
    SameParts(p.outcome, outcome, p.count);
    PartsMeans(outcome, p.count);
  }

  // download_object_from_owners for owners that may answer anything at all and workers that
  // took any turns. Either the destination is as it was and an error is raised, or it holds
  // bytes of the wanted hash; which of the two, and the bytes, are fixed by the answers.
  method DownloadObject(hash: Bytes -> Hash, sizes: seq<Result<nat>>, answers: Answers, expected: Hash,
                        destination: Option<Bytes>, hardware: nat, ghost tr: seq<Pool>, joined: Pool)
    returns (ok: bool, after: Option<Bytes>)
    requires forall s | s in sizes && s.Ok? :: s.value < TWO_64
    requires FirstOk(sizes).Ok? ==>
               Schedule(tr, FirstOk(sizes).value, answers, |sizes|, hardware) && joined == tr[|tr| - 1]
    ensures ok ==> after.Some? && hash(after.value) == expected
    ensures !ok ==> after == destination
    ensures ok <==> Assembled(sizes, answers).Ok? && hash(Assembled(sizes, answers).value) == expected
    ensures ok ==> after == Some(Assembled(sizes, answers).value)
  {
    var size := ObjectSizeFromAnyOwner(sizes);
    if size.Err? {
      return false, destination;
    }
    JoinedParts(tr, size.value, answers, |sizes|, hardware);
    if joined.firstError.Some? {
      return false, destination;
    }
    var parts := seq(joined.count, i requires 0 <= i < joined.count && i in joined.chunks => joined.chunks[i]);
    assert parts == Parts(Outcomes(answers, |sizes|), ChunkCount(size.value)).value;
    var assembled := AssembleChunks(parts);
    if assembled.Err? || hash(assembled.value) != expected {
      return false, destination;
    }
    return true, Some(assembled.value);
  }

  // ----- Owners that hold the object ------------------------------------------------------------

  // Every answer about the object is an error or, at worst, cut short.
  ghost predicate HonestOwners(body: Bytes, sizes: seq<Result<nat>>, answers: Answers) {
    && |body| <= TWO_64 - CHUNK
    && (forall s | s in sizes :: s.Err? || s == Ok(|body|)) && Ok(|body|) in sizes
    && forall o, i | 0 <= o < |sizes| && 0 <= i < ChunkCount(|body|) :: Honest(body, i, answers(o, i))
  }

  ghost predicate Honest(body: Bytes, i: nat, a: Result<Bytes>) {
    a.Err? || (i * CHUNK <= |body| && a.value <= ChunkOf(body, i))
  }

  // Parts that are beginnings of the chunks add up to the whole only if none is cut short.
  lemma {:induction false} PartsAddUp(body: Bytes, parts: seq<Bytes>)
    requires forall i | 0 <= i < |parts| :: i * CHUNK <= |body| && parts[i] <= ChunkOf(body, i)
    ensures |Concat(parts)| <= Min(|parts| * CHUNK, |body|)
    ensures |Concat(parts)| == Min(|parts| * CHUNK, |body|) ==>
            forall i | 0 <= i < |parts| :: parts[i] == ChunkOf(body, i)
  {
    if parts != [] {
      var k := |parts| - 1;
      PartsAddUp(body, parts[..k]);
      assert Min(|parts| * CHUNK, |body|) == k * CHUNK + |ChunkOf(body, k)| by {
        assert |parts| * CHUNK == k * CHUNK + CHUNK;
      }
      assert |Concat(parts)| == |Concat(parts[..k])| + |parts[k]|;
    }
  }

  // The first owner in the order of asking whose answer is no error answers the whole chunk.
  ghost predicate WholeChunk(body: Bytes, answers: Answers, owners: nat, i: nat) {
    i * CHUNK <= |body| && FirstAnswer(answers, owners, i, ChunkOf(body, i))
  }

  lemma WholeChunkOutcome(body: Bytes, answers: Answers, owners: nat, i: nat)
    ensures WholeChunk(body, answers, owners, i) <==>
            i * CHUNK <= |body| && Outcome(answers, owners, i) == Ok(ChunkOf(body, i))
  {
    if i * CHUNK <= |body| { OutcomeIsFirst(answers, owners, i, ChunkOf(body, i)); }
  }

  // Holders give back the object exactly when, for each chunk, the first answer of the
  // rotation that is no error is the whole chunk.
  lemma HonestDownload(body: Bytes, sizes: seq<Result<nat>>, answers: Answers)
    requires HonestOwners(body, sizes, answers)
    ensures forall s | s in sizes && s.Ok? :: s.value < TWO_64
    ensures Assembled(sizes, answers) == Ok(body) <==>
            forall i | 0 <= i < ChunkCount(|body|) :: WholeChunk(body, answers, |sizes|, i)
  {
    var count, outcome := ChunkCount(|body|), Outcomes(answers, |sizes|);
    assert FirstOk(sizes) == Ok(|body|);
    PartsMeans(outcome, count);
    if Parts(outcome, count).Ok? {
      var parts := Parts(outcome, count).value;
      forall i | 0 <= i < count ensures Honest(body, i, Ok(parts[i])) {
        OutcomeMeans(answers, |sizes|, i);
        assert outcome(i) == Ok(parts[i]);
      }
      RebuiltIff(body, parts);
      WholeParts(body, answers, |sizes|, parts);
    } else {
      var i :| 0 <= i < count && outcome(i).Err?;
      WholeChunkOutcome(body, answers, |sizes|, i);
    }
  }

  lemma WholeParts(body: Bytes, answers: Answers, owners: nat, parts: seq<Bytes>)
    requires forall i | 0 <= i < |parts| :: Outcome(answers, owners, i) == Ok(parts[i])
    ensures (forall i | 0 <= i < |parts| :: WholeChunk(body, answers, owners, i))
            <==> forall i | 0 <= i < |parts| :: WholePart(body, i, parts[i])
  {
    forall i | 0 <= i < |parts| ensures WholeChunk(body, answers, owners, i) <==> WholePart(body, i, parts[i]) {
      WholeChunkOutcome(body, answers, owners, i);
      assert Outcome(answers, owners, i) == Ok(parts[i]);
    }
  }

  ghost predicate WholePart(body: Bytes, i: nat, part: Bytes) { i * CHUNK <= |body| && part == ChunkOf(body, i) }

  lemma RebuiltIff(body: Bytes, parts: seq<Bytes>)
    requires |body| <= TWO_64 - CHUNK && |parts| == ChunkCount(|body|)
    requires forall i | 0 <= i < |parts| :: Honest(body, i, Ok(parts[i]))
    ensures Concat(parts) == body && [] !in parts <==> forall i | 0 <= i < |parts| :: WholePart(body, i, parts[i])
  {
    ChunkCountExact(|body|);
    forall i | 0 <= i < |parts| ensures i * CHUNK < |body| && parts[i] <= ChunkOf(body, i) && |ChunkOf(body, i)| > 0 {
      ChunksNotEmpty(|body|, i);
      assert Honest(body, i, Ok(parts[i]));
    }
    if forall i | 0 <= i < |parts| :: WholePart(body, i, parts[i]) {
      forall i | 0 <= i < |parts| ensures parts[i] == ChunkOf(body, i) { assert WholePart(body, i, parts[i]); }
      ChunksRebuild(body, parts);
    } else {
      PartsAddUp(body, parts);
    }
  }

  // From the holders' disks to the destination: ranges streamed by holders, fetched by any
  // schedule of workers, assembled and checked. If no read fails on a holder's disk and each
  // chunk gets through from some holder, the destination is the object.
  method DownloadFromHolders(hash: Bytes -> Hash, ghost body: Bytes, sizes: seq<Result<nat>>, answers: Answers,
                             ghost endings: (nat, nat) -> Ending, destination: Option<Bytes>, expected: Hash,
                             hardware: nat, ghost tr: seq<Pool>, joined: Pool)
    returns (ok: bool, after: Option<Bytes>)
    requires |body| <= TWO_64 - CHUNK && expected == hash(body)
    requires (forall s | s in sizes :: s.Err? || s == Ok(|body|)) && Ok(|body|) in sizes
    requires forall o, i | 0 <= o < |sizes| && 0 <= i < ChunkCount(|body|) ::
               FromHolder(body, i, answers(o, i), endings(o, i))
    requires Schedule(tr, |body|, answers, |sizes|, hardware) && joined == tr[|tr| - 1]
    ensures !ok ==> after == destination
    ensures ok ==> after.Some? && hash(after.value) == hash(body)
    ensures (forall i | 0 <= i < ChunkCount(|body|) :: GetsThrough(endings, |sizes|, i)) ==> ok && after == Some(body)
  {
    HoldersSuffice(body, sizes, answers, endings);
    ok, after := DownloadObject(hash, sizes, answers, expected, destination, hardware, tr, joined);
  }

  lemma HoldersSuffice(body: Bytes, sizes: seq<Result<nat>>, answers: Answers, endings: (nat, nat) -> Ending)
    requires |body| <= TWO_64 - CHUNK
    requires (forall s | s in sizes :: s.Err? || s == Ok(|body|)) && Ok(|body|) in sizes
    requires forall o, i | 0 <= o < |sizes| && 0 <= i < ChunkCount(|body|) ::
               FromHolder(body, i, answers(o, i), endings(o, i))
    ensures FirstOk(sizes) == Ok(|body|)
    ensures (forall i | 0 <= i < ChunkCount(|body|) :: GetsThrough(endings, |sizes|, i)) ==>
            Assembled(sizes, answers) == Ok(body)
  {
    assert HonestOwners(body, sizes, answers) by {
      forall o, i | 0 <= o < |sizes| && 0 <= i < ChunkCount(|body|) ensures Honest(body, i, answers(o, i)) {
        HonestHolder(body, i, answers(o, i), endings(o, i));
      }
    }
    HonestDownload(body, sizes, answers);
    forall i | 0 <= i < ChunkCount(|body|) && GetsThrough(endings, |sizes|, i)
      ensures WholeChunk(body, answers, |sizes|, i)
    {
      WholeOutcome(body, |sizes|, answers, endings, i);
    }
  }

  lemma HonestHolder(body: Bytes, i: nat, a: Result<Bytes>, ending: Ending)
    requires FromHolder(body, i, a, ending)
    ensures Honest(body, i, a)
  {}

  ghost predicate GetsThrough(endings: (nat, nat) -> Ending, owners: nat, chunk: nat) {
    && (forall o | 0 <= o < owners :: endings(o, chunk) != ReadFailed)
    && exists o | 0 <= o < owners :: endings(o, chunk) == Complete
  }

  lemma WholeOutcome(body: Bytes, owners: nat, answers: Answers, endings: (nat, nat) -> Ending, i: nat)
    requires forall o | 0 <= o < owners :: FromHolder(body, i, answers(o, i), endings(o, i))
    requires GetsThrough(endings, owners, i)
    ensures WholeChunk(body, answers, owners, i)
  {
    WholeChunkOutcome(body, answers, owners, i);
    OutcomeMeans(answers, owners, i);
    var c :| 0 <= c < owners && endings(c, i) == Complete;
    assert FromHolder(body, i, answers(c, i), endings(c, i));
    var o :| 0 <= o < owners && answers(o, i) == Outcome(answers, owners, i);
    assert FromHolder(body, i, answers(o, i), endings(o, i));
  }
}
