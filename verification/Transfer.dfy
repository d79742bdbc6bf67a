// Moving one object: how the client cuts it into ranges, how the server streams a range
// in pieces, how ranges are fetched from owners in rotation and put together again.
module Transfer {
  import opened Basics

  newtype Byte = x: int | 0 <= x < 256
  type Bytes = seq<Byte>

  const CHUNK: nat := 4 * 1024 * 1024
  const PIECE: nat := 64 * 1024
  const TWO_64: nat := 0x1_0000_0000_0000_0000

  function Min(a: nat, b: nat): nat { if a < b then a else b }

  // ----- Chunks of an object ----------------------------------------------------------

  // (object_size + kChunkSize - 1) / kChunkSize in 64-bit unsigned arithmetic.
  function ChunkCount(size: nat): nat
    requires size < TWO_64
  {
    if size == 0 then 0 else ((size + CHUNK - 1) % TWO_64) / CHUNK
  }

  // The chunks 0 .. count-1 cover the object, and the last one is needed.
  predicate Covers(count: nat, size: nat) {
    size <= count * CHUNK && (count > 0 ==> (count - 1) * CHUNK < size)
  }

  // The computed count is right exactly while the rounding addition stays within 64 bits;
  // beyond that it is 0 for an object of almost 2^64 bytes.
  lemma ChunkCountExact(size: nat)
    requires size < TWO_64
    ensures Covers(ChunkCount(size), size) <==> size <= TWO_64 - CHUNK
    ensures size > TWO_64 - CHUNK ==> ChunkCount(size) == 0
  {
    if size <= TWO_64 - CHUNK {
      var q := (size + CHUNK - 1) / CHUNK;
      assert size + CHUNK - 1 == q * CHUNK + (size + CHUNK - 1) % CHUNK;
    } else {
      assert (size + CHUNK - 1) % TWO_64 == size + CHUNK - 1 - TWO_64;
    }
  }

  function ChunkSize(size: nat, i: nat): nat
    requires i * CHUNK <= size
  {
    Min(CHUNK, size - i * CHUNK)
  }

  // No range request has size 0, which the server would read as "the rest of the object".
  lemma ChunksNotEmpty(size: nat, i: nat)
    requires size < TWO_64 && i < ChunkCount(size)
    ensures i * CHUNK < size && 0 < ChunkSize(size, i) <= CHUNK
    ensures i * CHUNK + ChunkSize(size, i) <= size
  {
    ChunkCountExact(size);
    assert i * CHUNK <= (ChunkCount(size) - 1) * CHUNK;
  }

  function Concat(parts: seq<Bytes>): Bytes {
    if parts == [] then [] else Concat(parts[..|parts| - 1]) + parts[|parts| - 1]
  }

  function ChunkOf(body: Bytes, i: nat): Bytes
    requires i * CHUNK <= |body|
  {
    body[i * CHUNK..i * CHUNK + ChunkSize(|body|, i)]
  }

  // The first k chunks, end to end, are the first k * CHUNK bytes.
  lemma {:induction false} ChunksRebuildPrefix(body: Bytes, parts: seq<Bytes>)
    requires forall i | 0 <= i < |parts| :: i * CHUNK <= |body| && parts[i] == ChunkOf(body, i)
    ensures Concat(parts) == body[..Min(|parts| * CHUNK, |body|)]
  {
    if parts != [] {
      var k := |parts| - 1;
      ChunksRebuildPrefix(body, parts[..k]);
      var lo, hi := k * CHUNK, k * CHUNK + ChunkSize(|body|, k);
      assert hi == Min(|parts| * CHUNK, |body|) by { assert |parts| * CHUNK == lo + CHUNK; }
      assert Concat(parts) == body[..lo] + body[lo..hi];
    }
  }

  lemma ChunksRebuild(body: Bytes, parts: seq<Bytes>)
    requires |body| <= TWO_64 - CHUNK && |parts| == ChunkCount(|body|)
    requires forall i | 0 <= i < |parts| :: i * CHUNK <= |body| && parts[i] == ChunkOf(body, i)
    ensures Concat(parts) == body
  {
    ChunkCountExact(|body|);
    ChunksRebuildPrefix(body, parts);
  }

  // ----- The server's stream ------------------------------------------------------------

  datatype Piece = Piece(data: Bytes, offset: nat, last: bool)
  datatype Status = Fine | OutOfRange

  // Why a stream ended: everything was sent, a read gave nothing, or the receiver was gone.
  datatype Ending = Complete | ReadFailed | ReceiverGone

  // The bytes a range request asks for; size 0 asks for everything from the offset on.
  function Wanted(body: Bytes, offset: nat, size: nat): Bytes
    requires offset <= |body|
  {
    if size == 0 then body[offset..] else body[offset..offset + Min(size, |body| - offset)]
  }

  function DataOf(pieces: seq<Piece>): seq<Bytes> { seq(|pieces|, i requires 0 <= i < |pieces| => pieces[i].data) }

  // The pieces lie end to end from `offset` on and none is empty or over 64 KiB.
  ghost predicate Contiguous(pieces: seq<Piece>, offset: nat) {
    forall i | 0 <= i < |pieces| ::
      0 < |pieces[i].data| <= PIECE && pieces[i].offset == offset + |Concat(DataOf(pieces[..i]))|
  }

  lemma SnocPiece(pieces: seq<Piece>, p: Piece)
    ensures Concat(DataOf(pieces + [p])) == Concat(DataOf(pieces)) + p.data
  {
    var all := DataOf(pieces + [p]);
    assert all[..|all| - 1] == DataOf(pieces);
  }

  // Good pieces of a prefix of the wanted bytes; the one that completes them is marked.
  ghost predicate Streamed(pieces: seq<Piece>, wanted: Bytes, offset: nat) {
    && Contiguous(pieces, offset)
    && Concat(DataOf(pieces)) <= wanted
    && forall i | 0 <= i < |pieces| ::
         (pieces[i].last <==> offset + |wanted| == pieces[i].offset + |pieces[i].data|)
  }

  lemma StreamedMore(pieces: seq<Piece>, p: Piece, wanted: Bytes, offset: nat)
    requires Streamed(pieces, wanted, offset)
    requires p.offset == offset + |Concat(DataOf(pieces))| && 0 < |p.data| <= PIECE
    requires Concat(DataOf(pieces)) + p.data <= wanted
    requires p.last <==> offset + |wanted| == p.offset + |p.data|
    ensures Streamed(pieces + [p], wanted, offset)
    ensures |Concat(DataOf(pieces + [p]))| == |Concat(DataOf(pieces))| + |p.data|
  {
    SnocPiece(pieces, p);
    ContiguousMore(pieces, p, offset);
    forall i | 0 <= i < |pieces| ensures (pieces + [p])[i] == pieces[i] {}
  }

  lemma ContiguousMore(pieces: seq<Piece>, p: Piece, offset: nat)
    requires Contiguous(pieces, offset)
    requires p.offset == offset + |Concat(DataOf(pieces))| && 0 < |p.data| <= PIECE
    ensures Contiguous(pieces + [p], offset)
  {
    var more := pieces + [p];
    forall i | 0 <= i < |more|
      ensures 0 < |more[i].data| <= PIECE && more[i].offset == offset + |Concat(DataOf(more[..i]))|
    {
      if i < |pieces| {
        assert more[..i] == pieces[..i] && more[i] == pieces[i];
      } else {
        assert more[..i] == pieces;
      }
    }
  }

  // The range asked for, cut at the end of the object; size 0 stands for all that follows.
  lemma WantedMeans(body: Bytes, offset: nat, size: nat)
    requires offset <= |body|
    ensures var end := if size == 0 || size > |body| - offset then |body| else offset + size;
            offset <= end && Wanted(body, offset, size) == body[offset..end]
  {}

  lemma {:induction false} ConcatPrefix(pieces: seq<Piece>, i: nat)
    requires i <= |pieces|
    ensures Concat(DataOf(pieces[..i])) <= Concat(DataOf(pieces))
  {
    if i < |pieces| {
      var k := |pieces| - 1;
      ConcatPrefix(pieces[..k], i);
      assert pieces[..k][..i] == pieces[..i] && pieces == pieces[..k] + [pieces[k]];
      SnocPiece(pieces[..k], pieces[k]);
    } else {
      assert pieces[..i] == pieces;
    }
  }

  // What a stream is, piece by piece: slices of the object of 1 byte to 64 KiB, the first at
  // the offset asked for, each next one where the one before it ends, and marked as the last
  // exactly if it ends where the range does.
  lemma StreamedMeans(pieces: seq<Piece>, body: Bytes, offset: nat, size: nat, i: nat)
    requires offset <= |body| && Streamed(pieces, Wanted(body, offset, size), offset) && i < |pieces|
    ensures var p := pieces[i];
            && 0 < |p.data| <= 64 * 1024 && p.offset + |p.data| <= |body|
            && p.data == body[p.offset..p.offset + |p.data|]
            && (i == 0 ==> p.offset == offset)
            && (i + 1 < |pieces| ==> pieces[i + 1].offset == p.offset + |p.data|)
            && (p.last <==> p.offset + |p.data| == if size == 0 || size > |body| - offset then |body|
                else offset + size)
  {
    WantedMeans(body, offset, size);
    PieceIsSlice(pieces, body, offset, Wanted(body, offset, size), i);
    PieceIsPlaced(pieces, offset, i);
  }

  lemma PieceIsPlaced(pieces: seq<Piece>, offset: nat, i: nat)
    requires Contiguous(pieces, offset) && i < |pieces|
    ensures i == 0 ==> pieces[i].offset == offset
    ensures i + 1 < |pieces| ==> pieces[i + 1].offset == pieces[i].offset + |pieces[i].data|
  {
    if i + 1 < |pieces| {
      SnocPiece(pieces[..i], pieces[i]);
      assert pieces[..i + 1] == pieces[..i] + [pieces[i]];
    }
    assert DataOf(pieces[..0]) == [];
  }

  lemma PieceIsSlice(pieces: seq<Piece>, body: Bytes, offset: nat, wanted: Bytes, i: nat)
    requires Streamed(pieces, wanted, offset) && i < |pieces|
    requires offset + |wanted| <= |body| && wanted == body[offset..offset + |wanted|]
    ensures pieces[i].offset + |pieces[i].data| <= |body|
    ensures pieces[i].data == body[pieces[i].offset..pieces[i].offset + |pieces[i].data|]
  {
    var before := Concat(DataOf(pieces[..i]));
    ConcatPrefix(pieces, i + 1);
    SnocPiece(pieces[..i], pieces[i]);
    assert pieces[..i + 1] == pieces[..i] + [pieces[i]];
    SlicePart(body, offset, wanted, before, pieces[i].data);
  }

  lemma SlicePart(body: Bytes, offset: nat, wanted: Bytes, before: Bytes, part: Bytes)
    requires offset + |wanted| <= |body| && wanted == body[offset..offset + |wanted|] && before + part <= wanted
    ensures part == body[offset + |before|..offset + |before| + |part|]
  {
    forall k | 0 <= k < |part| ensures part[k] == body[offset + |before| + k] {
      assert (before + part)[|before| + k] == wanted[|before| + k] == body[offset + |before| + k];
    }
  }

  // The stream stopped where, and only where, its ending says it had to.
  ghost predicate Ended(ending: Ending, pieces: seq<Piece>, wanted: Bytes, offset: nat, accepts: nat,
                        brings: seq<nat>) {
    var sent := |Concat(DataOf(pieces))|;
    match ending
    case Complete => Concat(DataOf(pieces)) == wanted
    case ReadFailed => sent < |wanted| && |pieces| < |brings| && brings[|pieces|] == 0
    case ReceiverGone => sent < |wanted| && |pieces| == accepts
  }

  lemma SliceOfSlice(body: Bytes, offset: nat, length: nat, from: nat, n: nat)
    requires offset + length <= |body| && from + n <= length
    ensures var w := body[offset..offset + length];
            w[..from] + body[offset + from..offset + from + n] <= w
  {
    var w := body[offset..offset + length];
    var piece := body[offset + from..offset + from + n];
    forall k | 0 <= k < n ensures w[from..from + n][k] == piece[k] {
      assert w[from + k] == body[offset + from + k];
    }
    assert w[..from] + w[from..from + n] == w[..from + n];
  }

  lemma NextPiece(pieces: seq<Piece>, p: Piece, body: Bytes, offset: nat, size: nat, remaining: nat)
    requires offset <= |body| && Streamed(pieces, Wanted(body, offset, size), offset)
    requires p.offset == offset + |Concat(DataOf(pieces))|
    requires p.offset + remaining == offset + |Wanted(body, offset, size)|
    requires 0 < |p.data| <= PIECE && |p.data| <= remaining && p.data == body[p.offset..p.offset + |p.data|]
    requires p.last <==> |p.data| == remaining
    ensures Streamed(pieces + [p], Wanted(body, offset, size), offset)
    ensures |Concat(DataOf(pieces + [p]))| == |Concat(DataOf(pieces))| + |p.data|
  {
    var wanted, sent := Wanted(body, offset, size), |Concat(DataOf(pieces))|;
    SliceOfSlice(body, offset, |wanted|, sent, |p.data|);
    StreamedMore(pieces, p, wanted, offset);
  }

  // The receiver takes `accepts` pieces before its end of the stream breaks; the reads from
  // the file bring what `brings` says, and all that is asked for after that. A read that
  // brings nothing ends the stream too, and the call still ends well.
  method StreamObjectRange(body: Bytes, offset: nat, size: nat, accepts: nat, brings: seq<nat>)
    returns (status: Status, pieces: seq<Piece>, ending: Ending)
    ensures status == OutOfRange <==> offset > |body|
    ensures status == OutOfRange ==> pieces == []
    ensures status == Fine ==> Streamed(pieces, Wanted(body, offset, size), offset) && |pieces| <= accepts
    ensures status == Fine ==> Ended(ending, pieces, Wanted(body, offset, size), offset, accepts, brings)
  {
    pieces, ending := [], Complete;
    if offset > |body| {
      return OutOfRange, [], Complete;
    }
    ghost var wanted := Wanted(body, offset, size);
    var remaining: nat := if size == 0 then |body| - offset else Min(size, |body| - offset);
    var current := offset;
    while remaining > 0
      invariant ending == Complete && Streamed(pieces, wanted, offset) && |pieces| <= accepts
      invariant current == offset + |Concat(DataOf(pieces))| && current + remaining == offset + |wanted|
    {
      var wish := Min(PIECE, remaining);
      var n := if |pieces| < |brings| then Min(brings[|pieces|], wish) else wish;
      if n == 0 {
        ending := ReadFailed;
        break;
      }
      if |pieces| == accepts {
        ending := ReceiverGone;
        break;
      }
      var piece := Piece(body[current..current + n], current, n == remaining);
      NextPiece(pieces, piece, body, offset, size, remaining);
      pieces := pieces + [piece];
      current, remaining := current + n, remaining - n;
    }
    return Fine, pieces, ending;
  }

  // The client's half: everything read from the stream, kept only if the call ended well.
  method ReceiveRange(pieces: seq<Piece>, finishedOk: bool) returns (r: Result<Bytes>)
    ensures r == if finishedOk then Ok(Concat(DataOf(pieces))) else Err
  {
    var out: Bytes := [];
    var i := 0;
    while i < |pieces|
      invariant 0 <= i <= |pieces|
      invariant out == Concat(DataOf(pieces[..i]))
    {
      SnocPiece(pieces[..i], pieces[i]);
      assert pieces[..i + 1] == pieces[..i] + [pieces[i]];
      out := out + pieces[i].data;
      i := i + 1;
    }
    assert pieces[..i] == pieces;
    return if finishedOk then Ok(out) else Err;
  }

  // ----- One chunk, owner after owner ------------------------------------------------------

  // What the owner at a position of the owner list answers for a chunk. One function is
  // enough: no owner is asked twice for a chunk (see DownloadOneChunk).
  type Answers = (nat, nat) -> Result<Bytes>

  function Rotated(chunk: nat, attempt: nat, owners: nat): nat
    requires owners > 0
  {
    (chunk + attempt) % owners
  }

  lemma TurnsApart(p: nat, q: nat, n: nat)
    requires p < q
    ensures p * n + n <= q * n
  {
    assert q * n == p * n + n + (q - p - 1) * n;
  }

  lemma Remainder(q: nat, r: nat, n: nat)
    requires r < n
    ensures (q * n + r) % n == r
  {
    var x := q * n + r;
    var p := x / n;
    assert x == p * n + x % n;
    if p < q {
      TurnsApart(p, q, n);
    } else if q < p {
      TurnsApart(q, p, n);
    }
  }

  // Adding less than a full turn to the starting owner.
  lemma RotatedIs(chunk: nat, attempt: nat, owners: nat)
    requires attempt < owners
    ensures var start := chunk % owners;
            Rotated(chunk, attempt, owners) ==
              if start + attempt < owners then start + attempt else start + attempt - owners
  {
    var start, q := chunk % owners, chunk / owners;
    assert chunk == q * owners + start;
    if start + attempt < owners {
      Remainder(q, start + attempt, owners);
    } else {
      assert (q + 1) * owners == q * owners + owners;
      Remainder(q + 1, start + attempt - owners, owners);
    }
  }

  // Different attempts go to different owners.
  lemma RotationInjective(chunk: nat, a: nat, b: nat, owners: nat)
    requires a < b < owners
    ensures Rotated(chunk, a, owners) != Rotated(chunk, b, owners)
  {
    RotatedIs(chunk, a, owners);
    RotatedIs(chunk, b, owners);
  }

  // Every owner has its attempt.
  lemma RotationOnto(chunk: nat, owner: nat, owners: nat) returns (attempt: nat)
    requires owner < owners
    ensures attempt < owners && Rotated(chunk, attempt, owners) == owner
  {
    var start := chunk % owners;
    attempt := if start <= owner then owner - start else owner + owners - start;
    RotatedIs(chunk, attempt, owners);
  }

  // Outcome of a chunk: the first good answer of the rotation from `attempt` on.
  function OutcomeFrom(answers: Answers, owners: nat, chunk: nat, attempt: nat): Result<Bytes>
    requires attempt <= owners
    decreases owners - attempt
  {
    if attempt == owners then Err
    else
      var a := answers(Rotated(chunk, attempt, owners), chunk);
      if a.Ok? then a else OutcomeFrom(answers, owners, chunk, attempt + 1)
  }

  function Outcome(answers: Answers, owners: nat, chunk: nat): Result<Bytes> { OutcomeFrom(answers, owners, chunk, 0) }

  lemma {:induction false} OutcomeFromMeans(answers: Answers, owners: nat, chunk: nat, attempt: nat)
    requires attempt <= owners
    ensures var r := OutcomeFrom(answers, owners, chunk, attempt);
            && (r.Err? <==> forall k | attempt <= k < owners :: answers(Rotated(chunk, k, owners), chunk).Err?)
            && (r.Ok? ==> exists o | 0 <= o < owners :: answers(o, chunk) == r)
    decreases owners - attempt
  {
    if attempt < owners {
      OutcomeFromMeans(answers, owners, chunk, attempt + 1);
    }
  }

  // A chunk fails exactly when every owner fails it; otherwise some owner gave its bytes.
  lemma OutcomeMeans(answers: Answers, owners: nat, chunk: nat)
    ensures Outcome(answers, owners, chunk).Err? <==> forall o | 0 <= o < owners :: answers(o, chunk).Err?
    ensures Outcome(answers, owners, chunk).Ok? ==> exists o | 0 <= o < owners ::
            answers(o, chunk) == Outcome(answers, owners, chunk)
  {
    OutcomeFromMeans(answers, owners, chunk, 0);
    if Outcome(answers, owners, chunk).Err? {
      forall o | 0 <= o < owners ensures answers(o, chunk).Err? {
        var k := RotationOnto(chunk, o, owners);
      }
    }
  }

  // The k-th owner asked, in the order of asking from `from` on, is the first whose answer is
  // no error, and that answer is b.
  ghost predicate FirstGood(answers: Answers, owners: nat, chunk: nat, from: nat, k: nat, b: Bytes) {
    && from <= k < owners && answers(Rotated(chunk, k, owners), chunk) == Ok(b)
    && forall j | from <= j < k :: answers(Rotated(chunk, j, owners), chunk).Err?
  }

  lemma {:induction false} OutcomeFromIsFirst(answers: Answers, owners: nat, chunk: nat, attempt: nat, b: Bytes)
    requires attempt <= owners
    ensures OutcomeFrom(answers, owners, chunk, attempt) == Ok(b) <==>
            exists k :: FirstGood(answers, owners, chunk, attempt, k, b)
    decreases owners - attempt
  {
    if attempt < owners {
      if answers(Rotated(chunk, attempt, owners), chunk).Err? {
        var next := attempt + 1;
        OutcomeFromIsFirst(answers, owners, chunk, next, b);
        if k :| FirstGood(answers, owners, chunk, next, k, b) {
          assert FirstGood(answers, owners, chunk, attempt, k, b);
        }
        if k :| FirstGood(answers, owners, chunk, attempt, k, b) {
          assert FirstGood(answers, owners, chunk, next, k, b);
        }
      } else if OutcomeFrom(answers, owners, chunk, attempt) == Ok(b) {
        assert FirstGood(answers, owners, chunk, attempt, attempt, b);
      }
    }
  }

  // The outcome of a chunk is the first answer that is no error in the order of asking.
  lemma OutcomeIsFirst(answers: Answers, owners: nat, chunk: nat, b: Bytes)
    ensures Outcome(answers, owners, chunk) == Ok(b) <==> exists k :: FirstGood(answers, owners, chunk, 0, k, b)
  {
    OutcomeFromIsFirst(answers, owners, chunk, 0, b);
  }

  method DownloadOneChunk(answers: Answers, owners: nat, chunk: nat) returns (r: Result<Bytes>, asked: seq<nat>)
    ensures r == Outcome(answers, owners, chunk)
    ensures forall i, j | 0 <= i < j < |asked| :: asked[i] != asked[j]
    ensures |asked| <= owners && forall i | 0 <= i < |asked| :: asked[i] == (chunk + i) % owners
    ensures forall i | 0 <= i < |asked| - 1 :: answers(asked[i], chunk).Err?
    ensures r.Err? ==> |asked| == owners
    ensures r.Ok? ==> asked != [] && answers(asked[|asked| - 1], chunk) == r
  {
    asked := [];
    var attempt := 0;
    while attempt < owners
      invariant 0 <= attempt <= owners && |asked| == attempt
      invariant forall k | 0 <= k < attempt :: asked[k] == (chunk + k) % owners
      invariant forall k | 0 <= k < attempt :: answers(asked[k], chunk).Err?
      invariant OutcomeFrom(answers, owners, chunk, attempt) == Outcome(answers, owners, chunk)
      invariant forall i, j | 0 <= i < j < |asked| :: asked[i] != asked[j]
    {
      var o := Rotated(chunk, attempt, owners);
      forall k | 0 <= k < attempt ensures asked[k] != o { RotationInjective(chunk, k, attempt, owners); }
      asked := asked + [o];
      var a := answers(o, chunk);
      if a.Ok? {
        return a, asked;
      }
      attempt := attempt + 1;
    }
    return Err, asked;
  }
}
