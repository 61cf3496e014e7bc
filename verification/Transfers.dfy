/** Chunked file transfer with resume, end to end: the sending pump (server runUpload,
    agent sendFile), the resume rules (internal/common/resume.go) and the
    receiving assembler, over any number of interrupted attempts. */
module Transfers {
  import opened Common
  import opened Chunks

  const DEFAULT_CHUNK_SIZE := 256 * 1024

  function EffectiveChunkSize(requested: int): (c: int)
    ensures c > 0
    ensures requested > 0 ==> c == requested
    ensures requested <= 0 ==> c == 262_144
  {
    if requested <= 0 then DEFAULT_CHUNK_SIZE else requested
  }

  // ---------------------------------------------------------------- resume.go

  /** The largest chunk-aligned offset the part file covers. */
  function ResumeOffset(part: Option<Bytes>, chunkSize: int): (offset: nat)
    ensures part.Some? ==> offset <= |part.value|
    ensures chunkSize > 0 ==> offset % chunkSize == 0
    ensures chunkSize > 0 && part.Some? ==> |part.value| - offset < chunkSize
    ensures part.None? ==> offset == 0
  {
    if part.None? || chunkSize <= 0 then 0
    else
      RoundDown(|part.value|, chunkSize);
      |part.value| / chunkSize * chunkSize
  }

  lemma RoundDown(n: nat, c: int)
    requires c > 0
    ensures 0 <= n / c * c <= n < n / c * c + c
    ensures n / c * c % c == 0 && n / c * c / c == n / c
  {
    assert n == n / c * c + n % c;
    MultipleOf(n / c, c);
  }

  lemma MultipleOf(q: int, c: int)
    requires c > 0
    ensures q * c % c == 0 && q * c / c == q
  {
    var d, r := q * c / c, q * c % c;
    assert q * c == d * c + r;
    assert (q - d) * c == r;
    assert q - d >= 1 ==> (q - d) * c >= c;
    assert q - d <= -1 ==> (q - d) * c <= -c;
  }

  /** A zero offset starts the file over; otherwise it is cut (or zero-filled) to offset bytes. */
  function OpenPartial(part: Option<Bytes>, offset: int): (kept: Option<Bytes>)
    ensures kept.Some? <==> offset <= 0 || part.Some?
    ensures kept.Some? ==> |kept.value| == if offset <= 0 then 0 else offset
    ensures kept.Some? && offset > 0 ==>
      forall i :: 0 <= i < offset ==> kept.value[i] == if i < |part.value| then part.value[i] else 0
  {
    if offset <= 0 then Some([])
    else if part.None? then None
    else if offset <= |part.value| then Some(part.value[..offset])
    else Some(part.value + seq(offset - |part.value|, _ => 0))
  }

  // ---------------------------------------------------------------- the sender

  function ClampOffset(offset: int, size: nat): (r: nat)
    ensures r <= size
    ensures 0 <= offset <= size ==> r == offset
    ensures offset < 0 ==> r == 0
    ensures offset > size ==> r == size
  {
    if offset < 0 then 0 else if offset > size then size else offset
  }

  /** What remains to be sent from pos on, numbered from num. */
  function Remaining(src: Bytes, pos: nat, num: int, chunkSize: int): seq<Chunk>
    requires chunkSize > 0 && pos <= |src|
    decreases |src| - pos
  {
    if pos == |src| then []
    else
      var end := if pos + chunkSize <= |src| then pos + chunkSize else |src|;
      [Chunk(num, src[pos..end])] + Remaining(src, end, num + 1, chunkSize)
  }

  function Sent(src: Bytes, offset: int, chunkSize: int): seq<Chunk>
    requires chunkSize > 0
  {
    var pos := ClampOffset(offset, |src|);
    Remaining(src, pos, pos / chunkSize, chunkSize)
  }

  /** The pump loop: read a chunk, send it, count it. */
  method Pump(src: Bytes, offset: int, chunkSize: int) returns (sent: seq<Chunk>, transferred: int)
    requires chunkSize > 0
    ensures sent == Sent(src, offset, chunkSize)
    ensures transferred == |src|
  {
    var pos := ClampOffset(offset, |src|);
    var num := pos / chunkSize;
    sent, transferred := [], pos;
    while pos < |src|
      invariant pos <= |src| && transferred == pos
      invariant sent + Remaining(src, pos, num, chunkSize) == Sent(src, offset, chunkSize)
    {
      var n := if pos + chunkSize <= |src| then chunkSize else |src| - pos;
      ghost var rest := Remaining(src, pos + n, num + 1, chunkSize);
      assert Remaining(src, pos, num, chunkSize) == [Chunk(num, src[pos..pos + n])] + rest;
      assert sent + ([Chunk(num, src[pos..pos + n])] + rest) == sent + [Chunk(num, src[pos..pos + n])] + rest;
      sent := sent + [Chunk(num, src[pos..pos + n])];
      pos, num, transferred := pos + n, num + 1, transferred + n;
    }
  }

  function Payload(chunks: seq<Chunk>): Bytes {
    if chunks == [] then [] else chunks[0].data + Payload(chunks[1..])
  }

  /** From any position, aligned or not, the pump sends the rest of the file, in chunks that
      are full except for the last. */
  lemma {:induction false} SendsTheRest(src: Bytes, pos: nat, num: int, chunkSize: int)
    requires chunkSize > 0 && pos <= |src|
    ensures Payload(Remaining(src, pos, num, chunkSize)) == src[pos..]
    ensures var sent := Remaining(src, pos, num, chunkSize);
      forall i :: 0 <= i < |sent| ==>
        0 < |sent[i].data| <= chunkSize && (i < |sent| - 1 ==> |sent[i].data| == chunkSize)
    decreases |src| - pos
  {
    if pos < |src| {
      var end := if pos + chunkSize <= |src| then pos + chunkSize else |src|;
      var first, rest := Chunk(num, src[pos..end]), Remaining(src, end, num + 1, chunkSize);
      SendsTheRest(src, end, num + 1, chunkSize);
      assert ([first] + rest)[1..] == rest && src[pos..] == src[pos..end] + src[end..];
      assert end == |src| ==> rest == [];
      assert forall i :: 0 < i <= |rest| ==> ([first] + rest)[i] == rest[i - 1];
    }
  }

  /** Chunk number k of src under a chunk size. */
  ghost function Piece(src: Bytes, k: int, chunkSize: int): Chunk
    requires 0 <= k && chunkSize > 0 && 0 <= k * chunkSize < |src|
  {
    var lo := k * chunkSize;
    Chunk(k, src[lo..if lo + chunkSize <= |src| then lo + chunkSize else |src|])
  }

  ghost predicate IsPiece(c: Chunk, src: Bytes, chunkSize: int)
    requires chunkSize > 0
  {
    0 <= c.num && 0 <= c.num * chunkSize < |src| && c == Piece(src, c.num, chunkSize)
  }

  /** The chunks are exactly the pieces of src from number q on. */
  ghost predicate PiecesFrom(chunks: seq<Chunk>, src: Bytes, q: nat, chunkSize: int)
    requires chunkSize > 0
  {
    && (forall c :: c in chunks ==> q <= c.num && IsPiece(c, src, chunkSize))
    && (forall k :: q <= k && 0 <= k * chunkSize < |src| ==> Piece(src, k, chunkSize) in chunks)
  }

  lemma OnePieceMore(chunks: seq<Chunk>, src: Bytes, q: nat, chunkSize: int)
    requires chunkSize > 0 && 0 <= q * chunkSize < |src| && PiecesFrom(chunks, src, q + 1, chunkSize)
    ensures PiecesFrom([Piece(src, q, chunkSize)] + chunks, src, q, chunkSize)
  {
    var all := [Piece(src, q, chunkSize)] + chunks;
    forall c | c in all ensures q <= c.num && IsPiece(c, src, chunkSize) {
      assert c == Piece(src, q, chunkSize) || c in chunks;
    }
    forall k | q <= k && 0 <= k * chunkSize < |src| ensures Piece(src, k, chunkSize) in all {
      assert k == q || Piece(src, k, chunkSize) in chunks;
    }
  }

  lemma NoPieces(src: Bytes, q: nat, chunkSize: int)
    requires chunkSize > 0 && |src| <= q * chunkSize
    ensures PiecesFrom([], src, q, chunkSize)
  {
    forall k | q <= k ensures k * chunkSize >= |src| {
      ScaleUp(q, k, chunkSize);
    }
  }

  lemma {:induction false} RemainingFrom(src: Bytes, pos: nat, q: nat, chunkSize: int)
    requires chunkSize > 0 && pos == q * chunkSize && pos <= |src|
    ensures PiecesFrom(Remaining(src, pos, q, chunkSize), src, q, chunkSize)
    decreases |src| - pos
  {
    assert (q + 1) * chunkSize == pos + chunkSize;
    if pos == |src| {
      NoPieces(src, q, chunkSize);
    } else if pos + chunkSize <= |src| {
      RemainingFrom(src, pos + chunkSize, q + 1, chunkSize);
      OnePieceMore(Remaining(src, pos + chunkSize, q + 1, chunkSize), src, q, chunkSize);
    } else {
      NoPieces(src, q + 1, chunkSize);
      OnePieceMore([], src, q, chunkSize);
      assert Remaining(src, |src|, q + 1, chunkSize) == [];
    }
  }

  /** From an aligned position the pump sends exactly the pieces from there to the end. */
  lemma RemainingPieces(src: Bytes, q: nat, chunkSize: int)
    requires chunkSize > 0 && 0 <= q * chunkSize <= |src|
    ensures PiecesFrom(Remaining(src, q * chunkSize, q, chunkSize), src, q, chunkSize)
  {
    RemainingFrom(src, q * chunkSize, q, chunkSize);
  }

  lemma ScaleUp(a: int, b: int, c: int)
    requires a <= b && 0 <= c
    ensures a * c <= b * c
  {
    assert 0 <= (b - a) * c;
  }

  // ---------------------------------------------------------------- one attempt

  /** One attempt as the receiver meets it: what arrives, in what order, how far the
      disk goes, and whether the sender's completion message gets through. */
  datatype Attempt = Attempt(chunkSize: int, arrivals: seq<Chunk>, room: nat, completion: bool, keepOnRefusal: bool)

  datatype AttemptEnd =
    | Interrupted(part: Option<Bytes>)
    | Refused(part: Option<Bytes>)
    | Completed(file: Bytes)
  {
    /** The part file the next attempt finds; completing renames it away. */
    function Left(): Option<Bytes> {
      match this
      case Interrupted(p) => p
      case Refused(p) => p
      case Completed(_) => None
    }
  }

  function Receive(part: Option<Bytes>, size: nat, at: Attempt): AttemptEnd {
    var c := EffectiveChunkSize(at.chunkSize);
    var offset := ResumeOffset(part, c);
    var kept := OpenPartial(part, offset);
    if kept.None? then Interrupted(part)
    else
      var f := FeedAll(Fresh(offset / c, DEFAULT_MAX_PENDING), Sink(kept.value, at.room), at.arrivals);
      if f.outcome != Accepted || !at.completion then Interrupted(Some(f.sink.content))
      else if Complete(f.asm, ChunkCount(size, c)) then Completed(f.sink.content)
      else Refused(if at.keepOnRefusal then Some(f.sink.content) else None)
  }

  /** The offset the receiver announces is the one the sender pumps from. */
  function SentFor(part: Option<Bytes>, src: Bytes, at: Attempt): seq<Chunk> {
    var c := EffectiveChunkSize(at.chunkSize);
    Sent(src, ResumeOffset(part, c), c)
  }

  /** Whatever arrives was sent in this attempt; it may be lost, repeated or reordered. */
  ghost predicate Possible(part: Option<Bytes>, src: Bytes, at: Attempt) {
    forall c :: c in at.arrivals ==> c in SentFor(part, src, at)
  }

  ghost predicate PrefixOf(part: Option<Bytes>, src: Bytes) {
    part.Some? ==> part.value <= src
  }

  /** What an attempt leaves is a prefix of the source, and what it completes is all of it. */
  ghost predicate Faithful(end: AttemptEnd, src: Bytes) {
    PrefixOf(end.Left(), src) && (end.Completed? ==> end.file == src)
  }

  /** How much of src its first n chunks are. */
  function Span(src: Bytes, n: int, c: int): int { if n * c <= |src| then n * c else |src| }

  /** The chunks q..n of m are pieces of src. */
  ghost predicate PiecesBetween(src: Bytes, m: map<int, Bytes>, q: int, n: int, c: int)
    requires c > 0
  {
    forall k :: q <= k < n ==> k in m && IsPiece(Chunk(k, m[k]), src, c)
  }

  lemma JoinSnoc(base: Bytes, m: map<int, Bytes>, q: int, n: int)
    requires q < n && forall k :: q <= k < n ==> k in m
    ensures base + Join(m, q, n) == base + Join(m, q, n - 1) + m[n - 1]
  {}

  /** Consecutive pieces from q on, laid after the first q chunks, continue the source. */
  lemma {:induction false} PiecesContinue(src: Bytes, base: Bytes, m: map<int, Bytes>, q: nat, n: int, c: int)
    requires c > 0 && q <= n && base <= src && |base| == Span(src, q, c) && PiecesBetween(src, m, q, n, c)
    ensures base + Join(m, q, n) <= src && |base + Join(m, q, n)| == Span(src, n, c)
    decreases n - q
  {
    if q == n {
      assert base + Join(m, q, n) == base;
    } else {
      PiecesContinue(src, base, m, q, n - 1, c);
      JoinSnoc(base, m, q, n);
      OneContinues(src, base + Join(m, q, n - 1), m[n - 1], n - 1, c);
    }
  }

  lemma OneContinues(src: Bytes, before: Bytes, data: Bytes, k: int, c: int)
    requires c > 0 && IsPiece(Chunk(k, data), src, c) && before <= src && |before| == Span(src, k, c)
    ensures before + data <= src && |before + data| == Span(src, k + 1, c)
  {
    assert (k + 1) * c == k * c + c;
    Continues(src, before, data, k * c, c);
  }

  lemma Continues(src: Bytes, before: Bytes, data: Bytes, lo: nat, c: int)
    requires c > 0 && lo < |src| && before <= src && |before| == lo
    requires data == src[lo..if lo + c <= |src| then lo + c else |src|]
    ensures before + data <= src
    ensures |before + data| == if lo + c <= |src| then lo + c else |src|
  {}

  lemma JoinedPieces(src: Bytes, m: map<int, Bytes>, q: nat, n: int, c: int)
    requires c > 0 && q <= n && 0 <= q * c <= |src|
    requires forall k :: q <= k < n ==> k in m && IsPiece(Chunk(k, m[k]), src, c)
    ensures src[..q * c] + Join(m, q, n) <= src
    ensures |src[..q * c] + Join(m, q, n)| == Span(src, n, c)
  {
    PiecesContinue(src, src[..q * c], m, q, n, c);
  }

  /** A torn run of pieces still continues the source. */
  lemma TornPieces(src: Bytes, m: map<int, Bytes>, content: Bytes, q: nat, c: int)
    requires c > 0 && 0 <= q * c <= |src|
    requires forall k :: k in m ==> q <= k && IsPiece(Chunk(k, m[k]), src, c)
    requires TornPrefix(content, src[..q * c], q, m)
    ensures content <= src
  {
    var n :| TornAt(content, src[..q * c], q, m, n);
    JoinedPieces(src, m, q, n, c);
  }

  /** The state a resumed attempt starts in: the aligned part of what is on disk, and the pieces after it. */
  lemma ResumePoint(part: Option<Bytes>, src: Bytes, at: Attempt) returns (c: int, q: nat)
    requires PrefixOf(part, src)
    ensures c == EffectiveChunkSize(at.chunkSize) && q == ResumeOffset(part, c) / c
    ensures ResumeOffset(part, c) == q * c && 0 <= q * c <= |src|
    ensures OpenPartial(part, q * c) == Some(src[..q * c])
    ensures SentFor(part, src, at) == Remaining(src, q * c, q, c)
  {
    c := EffectiveChunkSize(at.chunkSize);
    if part.Some? {
      RoundDown(|part.value|, c);
      q := |part.value| / c;
    } else {
      q := 0;
    }
    assert OpenPartial(part, q * c).value == src[..q * c];
  }

  /** What is held after an attempt's arrivals, in terms of the source. */
  lemma ArrivalsArePieces(part: Option<Bytes>, src: Bytes, at: Attempt) returns (c: int, q: nat, m: map<int, Bytes>)
    requires PrefixOf(part, src) && Possible(part, src, at)
    ensures c == EffectiveChunkSize(at.chunkSize) && q == ResumeOffset(part, c) / c
    ensures ResumeOffset(part, c) == q * c && 0 <= q * c <= |src|
    ensures OpenPartial(part, q * c) == Some(src[..q * c])
    ensures var f := FeedAll(Fresh(q, DEFAULT_MAX_PENDING), Sink(src[..q * c], at.room), at.arrivals);
      && (f.outcome == Accepted ==> Represents(f.asm, f.sink.content, src[..q * c], q, m) && IsSetOf(m, at.arrivals))
      && f.sink.content <= src
    ensures forall k :: k in m ==> q <= k && IsPiece(Chunk(k, m[k]), src, c)
  {
    c, q := ResumePoint(part, src, at);
    RemainingPieces(src, q, c);
    m := FeedAllKeepsMeaning(Fresh(q, DEFAULT_MAX_PENDING), Sink(src[..q * c], at.room), [], at.arrivals,
                             src[..q * c], q, map[]);
    assert [] + at.arrivals == at.arrivals;
    var f := FeedAll(Fresh(q, DEFAULT_MAX_PENDING), Sink(src[..q * c], at.room), at.arrivals);
    if f.outcome == Accepted {
      JoinedPieces(src, m, q, f.asm.next, c);
    } else {
      TornPieces(src, m, f.sink.content, q, c);
    }
  }

  /** One attempt keeps the part file a prefix of the source, and completes only with the whole source. */
  lemma AttemptKeepsPrefix(part: Option<Bytes>, src: Bytes, at: Attempt)
    requires PrefixOf(part, src) && Possible(part, src, at)
    ensures Faithful(Receive(part, |src|, at), src)
  {
    var c, q, m := ArrivalsArePieces(part, src, at);
    var f := FeedAll(Fresh(q, DEFAULT_MAX_PENDING), Sink(src[..q * c], at.room), at.arrivals);
    if f.outcome == Accepted && Complete(f.asm, ChunkCount(|src|, c)) {
      JoinedPieces(src, m, q, f.asm.next, c);
      if |src| > 0 {
        ScaleUp(ChunkCount(|src|, c), f.asm.next, c);
      }
    }
  }

  /** Nothing at or above the chunk count is a piece. */
  lemma PieceBelowCount(src: Bytes, k: int, c: int)
    requires c > 0 && 0 <= k
    ensures 0 <= k * c
    ensures k < ChunkCount(|src|, c) <==> k * c < |src|
  {
    var total := ChunkCount(|src|, c);
    NonNegative(k, c);
    if |src| > 0 {
      if k < total {
        ScaleUp(k, total - 1, c);
      } else {
        ScaleUp(total, k, c);
      }
    }
  }

  /** With every piece from q on held, nothing is left to wait for. */
  lemma AllHeldIsComplete(src: Bytes, asm: Assembly, content: Bytes, m: map<int, Bytes>, q: nat, c: int)
    requires c > 0 && 0 <= q * c <= |src|
    requires Represents(asm, content, src[..q * c], q, m)
    requires forall k :: k in m ==> IsPiece(Chunk(k, m[k]), src, c)
    requires forall k {:trigger k in m} :: q <= k < ChunkCount(|src|, c) ==> k in m
    ensures Complete(asm, ChunkCount(|src|, c))
  {
    var total := ChunkCount(|src|, c);
    assert asm.next >= total;
    forall k | k in asm.pending ensures false {
      PieceBelowCount(src, k, c);
    }
    assert asm.pending == map[];
  }

  /** Once nothing was refused, the attempt is complete exactly when every chunk that was sent has arrived. */
  lemma CompleteOnceAccepted(part: Option<Bytes>, src: Bytes, at: Attempt, f: Fed, c: int, q: nat, m: map<int, Bytes>)
    requires PrefixOf(part, src) && Possible(part, src, at) && c == EffectiveChunkSize(at.chunkSize)
    requires ResumeOffset(part, c) == q * c && q == ResumeOffset(part, c) / c && 0 <= q * c <= |src|
    requires Represents(f.asm, f.sink.content, src[..q * c], q, m) && IsSetOf(m, at.arrivals)
    requires forall k :: k in m ==> q <= k && IsPiece(Chunk(k, m[k]), src, c)
    ensures Complete(f.asm, ChunkCount(|src|, c)) <==> (forall x :: x in SentFor(part, src, at) ==> x in at.arrivals)
  {
    var _, _ := ResumePoint(part, src, at);
    RemainingPieces(src, q, c);
    var total := ChunkCount(|src|, c);
    if Complete(f.asm, total) {
      forall x | x in SentFor(part, src, at) ensures x in at.arrivals {
        PieceBelowCount(src, x.num, c);
        assert x.num in m && Chunk(x.num, m[x.num]) in at.arrivals;
      }
    }
    if forall x :: x in SentFor(part, src, at) ==> x in at.arrivals {
      forall k | q <= k < total ensures k in m {
        PieceBelowCount(src, k, c);
        assert Piece(src, k, c) in at.arrivals;
      }
      AllHeldIsComplete(src, f.asm, f.sink.content, m, q, c);
    }
  }

  /** What arrived, by number, is made of pieces, so an unbroken run of it ends within the source. */
  lemma {:induction false} CollectedArePieces(chunks: seq<Chunk>, src: Bytes, q: nat, c: int)
    requires c > 0 && (forall x :: x in chunks ==> q <= x.num && IsPiece(x, src, c))
    ensures forall k :: k in Collected(chunks) ==> q <= k && IsPiece(Chunk(k, Collected(chunks)[k]), src, c)
    decreases |chunks|
  {
    if chunks != [] {
      var before := chunks[..|chunks| - 1];
      assert forall x :: x in before ==> x in chunks;
      CollectedArePieces(before, src, q, c);
      assert chunks[|chunks| - 1] in chunks;
    }
  }

  lemma RunWithinSource(part: Option<Bytes>, src: Bytes, at: Attempt, c: int, q: nat)
    requires PrefixOf(part, src) && Possible(part, src, at) && c == EffectiveChunkSize(at.chunkSize)
    requires ResumeOffset(part, c) == q * c && q == ResumeOffset(part, c) / c && 0 <= q * c <= |src|
    ensures |Contiguous(Collected(at.arrivals), q)| <= |src| - q * c
  {
    var _, _ := ResumePoint(part, src, at);
    RemainingPieces(src, q, c);
    CollectedArePieces(at.arrivals, src, q, c);
    JoinedPieces(src, Collected(at.arrivals), q, Gap(Collected(at.arrivals).Keys, q), c);
  }

  /** An attempt completes exactly when the completion message and every chunk that was
      sent arrive, no chunk arrives twice or while 256 others wait behind the first gap,
      and the disk has room for the rest of the file. */
  lemma CompletesExactly(part: Option<Bytes>, src: Bytes, at: Attempt)
    requires PrefixOf(part, src) && Possible(part, src, at)
    ensures var c := EffectiveChunkSize(at.chunkSize);
      var offset := ResumeOffset(part, c);
      Receive(part, |src|, at).Completed? <==>
        && at.completion
        && (forall x :: x in SentFor(part, src, at) ==> x in at.arrivals)
        && Orderly(at.arrivals, offset / c, DEFAULT_MAX_PENDING)
        && |src| - offset <= at.room
  {
    var c, q, m := ArrivalsArePieces(part, src, at);
    var s := Sink(src[..q * c], at.room);
    var f := FeedAll(Fresh(q, DEFAULT_MAX_PENDING), s, at.arrivals);
    DeliveryAcceptedExactly(q, DEFAULT_MAX_PENDING, s, at.arrivals);
    RunWithinSource(part, src, at, c, q);
    if f.outcome == Accepted {
      CompleteOnceAccepted(part, src, at, f, c, q, m);
      AttemptKeepsPrefix(part, src, at);
    }
  }

  lemma {:induction false} SentInOrder(src: Bytes, pos: nat, num: int, chunkSize: int)
    requires chunkSize > 0 && pos <= |src|
    ensures InOrder(Remaining(src, pos, num, chunkSize), num)
    decreases |src| - pos
  {
    if pos < |src| {
      var end := if pos + chunkSize <= |src| then pos + chunkSize else |src|;
      SentInOrder(src, end, num + 1, chunkSize);
      var rest := Remaining(src, end, num + 1, chunkSize);
      assert forall j :: 0 < j <= |rest| ==> ([Chunk(num, src[pos..end])] + rest)[j] == rest[j - 1];
    }
  }

  /** So from any interrupted state, one undisturbed attempt with room on the disk delivers the source. */
  lemma UndisturbedAttemptCompletes(part: Option<Bytes>, src: Bytes, at: Attempt)
    requires PrefixOf(part, src) && at.completion && at.arrivals == SentFor(part, src, at) && |src| <= at.room
    ensures Receive(part, |src|, at) == Completed(src)
  {
    var c, q := ResumePoint(part, src, at);
    SentInOrder(src, q * c, q, c);
    InOrderIsOrderly(at.arrivals, q, DEFAULT_MAX_PENDING);
    CompletesExactly(part, src, at);
    AttemptKeepsPrefix(part, src, at);
  }

  // ---------------------------------------------------------------- how an attempt ends

  /** How far the file gets: to the first gap in the orderly part of what arrives, or to the end of the disk. */
  ghost function Reached(src: Bytes, at: Attempt, c: int, q: nat): nat
    requires c > 0
  {
    NonNegative(q, c);
    var gap := Gap(Nums(at.arrivals[..OrderlyPrefix(at.arrivals, q, DEFAULT_MAX_PENDING)]), q);
    NonNegative(gap, c);
    if Span(src, gap, c) <= q * c + at.room then Span(src, gap, c) else q * c + at.room
  }

  lemma PiecesRun(src: Bytes, chunks: seq<Chunk>, c: int, q: nat)
    requires c > 0 && 0 <= q * c <= |src|
    requires forall x :: x in chunks ==> q <= x.num && IsPiece(x, src, c)
    ensures 0 <= Span(src, Gap(Nums(chunks), q), c) <= |src|
    ensures src[..q * c] + Contiguous(Collected(chunks), q) == src[..Span(src, Gap(Nums(chunks), q), c)]
  {
    var gap := Gap(Nums(chunks), q);
    CollectedArePieces(chunks, src, q, c);
    NonNegative(gap, c);
    JoinedPieces(src, Collected(chunks), q, gap, c);
  }

  /** The unbroken run of arrivals after the first q chunks is the source up to the gap. */
  lemma RunIsSource(part: Option<Bytes>, src: Bytes, at: Attempt, chunks: seq<Chunk>, c: int, q: nat)
    requires PrefixOf(part, src) && Possible(part, src, at) && c == EffectiveChunkSize(at.chunkSize)
    requires ResumeOffset(part, c) == q * c && q == ResumeOffset(part, c) / c && 0 <= q * c <= |src|
    requires chunks <= at.arrivals
    ensures 0 <= Span(src, Gap(Nums(chunks), q), c) <= |src|
    ensures src[..q * c] + Contiguous(Collected(chunks), q) == src[..Span(src, Gap(Nums(chunks), q), c)]
  {
    var _, _ := ResumePoint(part, src, at);
    RemainingPieces(src, q, c);
    forall x | x in chunks ensures q <= x.num && IsPiece(x, src, c) {
      assert x in at.arrivals;
    }
    PiecesRun(src, chunks, c, q);
  }

  lemma CutOfSource(src: Bytes, n: nat, capacity: nat)
    requires n <= |src|
    ensures Cut(src[..n], capacity) == src[..if n <= capacity then n else capacity]
  {}

  /** What is on disk when the arrivals are over. */
  lemma LeftOnDisk(part: Option<Bytes>, src: Bytes, at: Attempt, c: int, q: nat)
    requires PrefixOf(part, src) && Possible(part, src, at) && c == EffectiveChunkSize(at.chunkSize)
    requires ResumeOffset(part, c) == q * c && q == ResumeOffset(part, c) / c && 0 <= q * c <= |src|
    ensures Reached(src, at, c, q) <= |src|
    ensures FeedAll(Fresh(q, DEFAULT_MAX_PENDING), Sink(src[..q * c], at.room), at.arrivals).sink.content
         == src[..Reached(src, at, c, q)]
  {
    var k := OrderlyPrefix(at.arrivals, q, DEFAULT_MAX_PENDING);
    DeliveryLeavesExactly(q, DEFAULT_MAX_PENDING, Sink(src[..q * c], at.room), at.arrivals);
    RunIsSource(part, src, at, at.arrivals[..k], c, q);
    CutOfSource(src, Span(src, Gap(Nums(at.arrivals[..k]), q), c), q * c + at.room);
  }

  /** Nothing is refused, and the disk has room up to the first gap. */
  ghost predicate AllTaken(src: Bytes, at: Attempt, c: int, q: nat)
    requires c > 0
  {
    Orderly(at.arrivals, q, DEFAULT_MAX_PENDING) && Span(src, Gap(Nums(at.arrivals), q), c) - q * c <= at.room
  }

  lemma TakenExactly(part: Option<Bytes>, src: Bytes, at: Attempt, c: int, q: nat)
    requires PrefixOf(part, src) && Possible(part, src, at) && c == EffectiveChunkSize(at.chunkSize)
    requires ResumeOffset(part, c) == q * c && q == ResumeOffset(part, c) / c && 0 <= q * c <= |src|
    ensures FeedAll(Fresh(q, DEFAULT_MAX_PENDING), Sink(src[..q * c], at.room), at.arrivals).outcome == Accepted
      <==> AllTaken(src, at, c, q)
  {
    DeliveryAcceptedExactly(q, DEFAULT_MAX_PENDING, Sink(src[..q * c], at.room), at.arrivals);
    RunIsSource(part, src, at, at.arrivals, c, q);
    assert |src[..q * c] + Contiguous(Collected(at.arrivals), q)| == Span(src, Gap(Nums(at.arrivals), q), c);
  }

  /** How every attempt ends, by what arrives and how much the disk takes. Interrupted or
      refused by a chunk or by the disk, it keeps all it got hold of; finished without
      every chunk, it keeps the same or nothing; and otherwise it is the source. */
  lemma EndsExactly(part: Option<Bytes>, src: Bytes, at: Attempt)
    requires PrefixOf(part, src) && Possible(part, src, at)
    ensures var c := EffectiveChunkSize(at.chunkSize);
      var q := ResumeOffset(part, c) / c;
      && Reached(src, at, c, q) <= |src|
      && var left := src[..Reached(src, at, c, q)];
         Receive(part, |src|, at) ==
           if !AllTaken(src, at, c, q) || !at.completion then Interrupted(Some(left))
           else if forall x :: x in SentFor(part, src, at) ==> x in at.arrivals then Completed(src)
           else Refused(if at.keepOnRefusal then Some(left) else None)
  {
    var c, q, m := ArrivalsArePieces(part, src, at);
    var f := FeedAll(Fresh(q, DEFAULT_MAX_PENDING), Sink(src[..q * c], at.room), at.arrivals);
    LeftOnDisk(part, src, at, c, q);
    TakenExactly(part, src, at, c, q);
    if f.outcome == Accepted {
      CompleteOnceAccepted(part, src, at, f, c, q, m);
      AttemptKeepsPrefix(part, src, at);
    }
  }

  /** The gap never lies below the resume point. */
  lemma ReachesResumePoint(src: Bytes, at: Attempt, c: int, q: nat)
    requires c > 0 && 0 <= q * c <= |src|
    ensures q * c <= Reached(src, at, c, q)
  {
    ScaleUp(q, Gap(Nums(at.arrivals[..OrderlyPrefix(at.arrivals, q, DEFAULT_MAX_PENDING)]), q), c);
  }

  /** No interrupted attempt loses ground: it keeps at least what it resumed from, and one
      with the same chunk size after it resumes no earlier. */
  lemma InterruptionKeepsGround(part: Option<Bytes>, src: Bytes, at: Attempt)
    requires PrefixOf(part, src) && Possible(part, src, at) && Receive(part, |src|, at).Interrupted?
    ensures var c := EffectiveChunkSize(at.chunkSize);
      var left := Receive(part, |src|, at).Left();
      && left.Some? && ResumeOffset(part, c) <= |left.value| && left.value <= src
      && ResumeOffset(part, c) <= ResumeOffset(left, c)
  {
    var c, q := ResumePoint(part, src, at);
    EndsExactly(part, src, at);
    ReachesResumePoint(src, at, c, q);
    var left := Receive(part, |src|, at).Left();
    RoundDown(|left.value|, c);
    NoEarlier(q, |left.value|, c);
  }

  lemma NoEarlier(q: nat, n: nat, c: int)
    requires c > 0 && q * c <= n
    ensures q * c <= n / c * c
  {
    RoundDown(n, c);
    assert (n / c + 1) * c == n / c * c + c;
    if n / c < q {
      ScaleUp(n / c + 1, q, c);
    }
  }

  lemma LeftAtTheGap(part: Option<Bytes>, src: Bytes, at: Attempt, c: int, q: nat, gap: int)
    requires PrefixOf(part, src) && Possible(part, src, at) && !at.completion
    requires c == EffectiveChunkSize(at.chunkSize) && q == ResumeOffset(part, c) / c
    requires AllTaken(src, at, c, q) && gap == Gap(Nums(at.arrivals), q) && 0 <= gap * c <= |src|
    ensures Receive(part, |src|, at).Left() == Some(src[..gap * c])
  {
    EndsExactly(part, src, at);
    assert at.arrivals[..|at.arrivals|] == at.arrivals;
  }

  lemma SentFromTheGap(src: Bytes, c: int, gap: nat, again: Attempt)
    requires c == EffectiveChunkSize(again.chunkSize) && 0 <= gap * c <= |src|
    ensures SentFor(Some(src[..gap * c]), src, again) == Remaining(src, gap * c, gap, c)
  {
    MultipleOf(gap, c);
  }

  /** An attempt that is cut off while chunks arrive in order, with room on the disk, is
      resumed exactly where the first gap was: nothing before it is sent again. */
  lemma ResumesAtTheGap(part: Option<Bytes>, src: Bytes, at: Attempt, again: Attempt, c: int, q: nat, gap: int)
    requires PrefixOf(part, src) && Possible(part, src, at) && !at.completion && again.chunkSize == at.chunkSize
    requires c == EffectiveChunkSize(at.chunkSize) && q == ResumeOffset(part, c) / c
    requires AllTaken(src, at, c, q) && gap == Gap(Nums(at.arrivals), q) && gap * c <= |src|
    ensures 0 <= gap * c && Receive(part, |src|, at).Left() == Some(src[..gap * c])
    ensures SentFor(Some(src[..gap * c]), src, again) == Remaining(src, gap * c, gap, c)
  {
    NonNegative(gap, c);
    LeftAtTheGap(part, src, at, c, q, gap);
    SentFromTheGap(src, c, gap, again);
  }

  lemma NonNegative(a: int, b: int)
    requires a >= 0 && b >= 0
    ensures a * b >= 0
  {}

  // ---------------------------------------------------------------- any number of attempts

  ghost predicate PossibleRun(part: Option<Bytes>, src: Bytes, attempts: seq<Attempt>)
    decreases |attempts|
  {
    attempts == [] ||
    (Possible(part, src, attempts[0]) && PossibleRun(Receive(part, |src|, attempts[0]).Left(), src, attempts[1..]))
  }

  function Ends(part: Option<Bytes>, size: nat, attempts: seq<Attempt>): (ends: seq<AttemptEnd>)
    ensures |ends| == |attempts|
    decreases |attempts|
  {
    if attempts == [] then []
    else
      var end := Receive(part, size, attempts[0]);
      [end] + Ends(end.Left(), size, attempts[1..])
  }

  /** Across any number of interrupted, refused and resumed attempts, under any chunk
      sizes and any arrival orders, the part file stays a prefix of the source, and
      every attempt that completes delivers exactly the source. */
  lemma {:induction false} ResumedTransfersDeliver(part: Option<Bytes>, src: Bytes, attempts: seq<Attempt>)
    requires PrefixOf(part, src) && PossibleRun(part, src, attempts)
    ensures forall end :: end in Ends(part, |src|, attempts) ==> Faithful(end, src)
    decreases |attempts|
  {
    if attempts != [] {
      var first := Receive(part, |src|, attempts[0]);
      AttemptKeepsPrefix(part, src, attempts[0]);
      ResumedTransfersDeliver(first.Left(), src, attempts[1..]);
      EndsFaithful(first, Ends(first.Left(), |src|, attempts[1..]), src);
    }
  }

  lemma EndsFaithful(first: AttemptEnd, rest: seq<AttemptEnd>, src: Bytes)
    requires Faithful(first, src) && forall end :: end in rest ==> Faithful(end, src)
    ensures forall end :: end in [first] + rest ==> Faithful(end, src)
  {}
}
