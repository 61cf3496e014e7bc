/** The chunk assembler (internal/common/chunk.go): chunks of a file arrive in any
    order, are buffered behind the first gap, and reach the destination in order.
    The assembler is proved to be nothing but a representation of the set of
    chunks accepted so far. */
module Chunks {
  newtype byte = x: int | 0 <= x < 256
  type Bytes = seq<byte>

  const DEFAULT_MAX_PENDING := 256

  datatype Outcome = Accepted | InvalidSeq | Duplicate | OutOfOrder | WriterFailed

  datatype Chunk = Chunk(num: int, data: Bytes)

  /** A destination: what it holds, and how many bytes it still takes before a write comes back short. */
  datatype Sink = Sink(content: Bytes, room: nat)

  /** How long the destination can get in all. */
  function Capacity(s: Sink): nat { |s.content| + s.room }

  /** The assembler's fields as a value. */
  datatype Assembly = Assembly(next: int, pending: map<int, Bytes>, maxPending: int)

  /** What one call leaves behind. */
  datatype Fed = Fed(asm: Assembly, sink: Sink, outcome: Outcome)

  // ---------------------------------------------------------------- the operations as functions

  function Put(s: Sink, data: Bytes): (r: (Sink, bool))
    ensures s.content <= r.0.content <= s.content + data
    ensures r.1 <==> r.0.content == s.content + data
    ensures Capacity(r.0) == Capacity(s)
    ensures !r.1 ==> r.0.room == 0
  {
    if |data| <= s.room then
      (Sink(s.content + data, s.room - |data|), true)
    else
      (Sink(s.content + data[..s.room], 0), false)
  }

  function FlushFrom(a: Assembly, s: Sink): Fed
    decreases |a.pending|
  {
    if a.next !in a.pending then Fed(a, s, Accepted)
    else
      var (s', ok) := Put(s, a.pending[a.next]);
      if !ok then Fed(a, s', WriterFailed)
      else FlushFrom(a.(next := a.next + 1, pending := a.pending - {a.next}), s')
  }

  function Feed(a: Assembly, s: Sink, num: int, data: Bytes): Fed {
    if num < 0 then Fed(a, s, InvalidSeq)
    else if num < a.next || num in a.pending then Fed(a, s, Duplicate)
    else if num == a.next then
      var (s', ok) := Put(s, data);
      if !ok then Fed(a, s', WriterFailed)
      else FlushFrom(a.(next := a.next + 1), s')
    else if |a.pending| >= a.maxPending then Fed(a, s, OutOfOrder)
    else Fed(a.(pending := a.pending[num := data]), s, Accepted)
  }

  /** Chunks handed over one after another; both receivers drop the transfer at the first refusal. */
  function FeedAll(a: Assembly, s: Sink, chunks: seq<Chunk>): Fed
    decreases |chunks|
  {
    if chunks == [] then Fed(a, s, Accepted)
    else
      var f := Feed(a, s, chunks[0].num, chunks[0].data);
      if f.outcome != Accepted then f else FeedAll(f.asm, f.sink, chunks[1..])
  }

  function Complete(a: Assembly, totalChunks: int): bool {
    |a.pending| == 0 && (totalChunks <= 0 || a.next >= totalChunks)
  }

  function ChunkCount(size: int, chunkSize: int): (n: int)
    ensures size > 0 && chunkSize > 0 ==> (n - 1) * chunkSize < size <= n * chunkSize
    ensures n > 0 <==> size > 0 && chunkSize > 0
  {
    if size <= 0 || chunkSize <= 0 then 0
    else
      CeilingBounds(size, chunkSize);
      (size + chunkSize - 1) / chunkSize
  }

  lemma CeilingBounds(size: int, chunkSize: int)
    requires size > 0 && chunkSize > 0
    ensures var n := (size + chunkSize - 1) / chunkSize;
      n > 0 && (n - 1) * chunkSize < size <= n * chunkSize
  {
    var n := (size + chunkSize - 1) / chunkSize;
    assert size + chunkSize - 1 == n * chunkSize + (size + chunkSize - 1) % chunkSize;
    assert (n - 1) * chunkSize == n * chunkSize - chunkSize;
    assert n * chunkSize > 0;
    assert n > 0;
  }

  // ---------------------------------------------------------------- the objects

  class PartFile {
    var content: Bytes
    var room: nat

    constructor (content: Bytes, room: nat)
      ensures View() == Sink(content, room)
    {
      this.content, this.room := content, room;
    }

    function View(): Sink
      reads this
    {
      Sink(content, room)
    }

    method Write(data: Bytes) returns (ok: bool)
      modifies this
      ensures (View(), ok) == Put(old(View()), data)
    {
      if |data| <= room {
        content, room, ok := content + data, room - |data|, true;
      } else {
        content, room, ok := content + data[..room], 0, false;
      }
    }
  }

  class ChunkAssembler {
    var nextSeq: int
    var pending: map<int, Bytes>
    var maxPending: int

    constructor (maxPending: int)
      ensures View() == Assembly(0, map[], if maxPending <= 0 then DEFAULT_MAX_PENDING else maxPending)
    {
      nextSeq, pending := 0, map[];
      this.maxPending := if maxPending <= 0 then DEFAULT_MAX_PENDING else maxPending;
    }

    function View(): Assembly
      reads this
    {
      Assembly(nextSeq, pending, maxPending)
    }

    method Write(w: PartFile, num: int, data: Bytes) returns (r: Outcome)
      modifies this, w
      ensures Fed(View(), w.View(), r) == Feed(old(View()), old(w.View()), num, data)
    {
      if num < 0 {
        return InvalidSeq;
      }
      if num < nextSeq {
        return Duplicate;
      }
      if num in pending {
        return Duplicate;
      }
      if num == nextSeq {
        var ok := w.Write(data);
        if !ok {
          return WriterFailed;
        }
        nextSeq := nextSeq + 1;
        r := Flush(w);
        return;
      }
      if |pending| >= maxPending {
        return OutOfOrder;
      }
      pending := pending[num := data];
      r := Accepted;
    }

    method Flush(w: PartFile) returns (r: Outcome)
      modifies this, w
      ensures Fed(View(), w.View(), r) == FlushFrom(old(View()), old(w.View()))
    {
      while nextSeq in pending
        invariant FlushFrom(View(), w.View()) == FlushFrom(old(View()), old(w.View()))
        decreases |pending|
      {
        var ok := w.Write(pending[nextSeq]);
        if !ok {
          return WriterFailed;
        }
        pending := pending - {nextSeq};
        nextSeq := nextSeq + 1;
      }
      r := Accepted;
    }

    method Resume(nextSeq: int)
      modifies this`nextSeq
      ensures View() == old(View()).(next := nextSeq)
    {
      this.nextSeq := nextSeq;
    }

    method Finish(totalChunks: int) returns (ok: bool)
      ensures ok == Complete(View(), totalChunks)
    {
      if |pending| != 0 {
        return false;
      }
      if totalChunks > 0 && nextSeq < totalChunks {
        return false;
      }
      ok := true;
    }
  }

  // ---------------------------------------------------------------- meaning: the set of received chunks

  /** The chunks lo..hi of m end to end. */
  ghost function Join(m: map<int, Bytes>, lo: int, hi: int): Bytes
    requires forall k :: lo <= k < hi ==> k in m
    decreases hi - lo
  {
    if lo >= hi then [] else Join(m, lo, hi - 1) + m[hi - 1]
  }

  lemma {:induction false} JoinSame(m: map<int, Bytes>, m': map<int, Bytes>, lo: int, hi: int)
    requires forall k :: lo <= k < hi ==> k in m && k in m' && m[k] == m'[k]
    ensures Join(m, lo, hi) == Join(m', lo, hi)
    decreases hi - lo
  {
    if lo < hi {
      JoinSame(m, m', lo, hi - 1);
    }
  }

  /** m holds every chunk of first..next, those are on disk after base, and the
      buffer holds the rest of m: everything at or above next. */
  ghost predicate Holds(a: Assembly, content: Bytes, base: Bytes, first: int, m: map<int, Bytes>) {
    && first <= a.next
    && (forall k :: k in m ==> first <= k)
    && (forall k :: first <= k < a.next ==> k in m)
    && content == base + Join(m, first, a.next)
    && (forall k :: k in a.pending <==> k in m && a.next <= k)
    && (forall k :: k in a.pending ==> a.pending[k] == m[k])
  }

  /** Between calls the next chunk is missing, so the buffer lies strictly above the gap. */
  ghost predicate Represents(a: Assembly, content: Bytes, base: Bytes, first: int, m: map<int, Bytes>) {
    Holds(a, content, base, first, m) && a.next !in m
  }

  /** content is base followed by a possibly torn run of m's chunks from first on. */
  ghost predicate TornPrefix(content: Bytes, base: Bytes, first: int, m: map<int, Bytes>) {
    exists n :: TornAt(content, base, first, m, n)
  }

  ghost predicate TornAt(content: Bytes, base: Bytes, first: int, m: map<int, Bytes>, n: int) {
    first <= n && (forall k :: first <= k < n ==> k in m) && base <= content <= base + Join(m, first, n)
  }

  /** The first number from first on that is missing. */
  ghost function Gap(keys: set<int>, first: int): (g: int)
    ensures first <= g && g !in keys
    ensures forall k :: first <= k < g ==> k in keys
    decreases |keys|
  {
    if first in keys then
      assert keys - {first} <= keys;
      Gap(keys - {first}, first + 1)
    else first
  }

  lemma GapUnique(keys: set<int>, first: int, g: int)
    requires first <= g && g !in keys && (forall k :: first <= k < g ==> k in keys)
    ensures Gap(keys, first) == g
  {}

  /** The unbroken run of chunks from first on: what can be on disk. */
  ghost function Contiguous(m: map<int, Bytes>, first: int): Bytes {
    Join(m, first, Gap(m.Keys, first))
  }

  lemma {:induction false} JoinGrows(m: map<int, Bytes>, lo: int, mid: int, hi: int)
    requires lo <= mid <= hi && (forall k :: lo <= k < hi ==> k in m)
    ensures Join(m, lo, mid) <= Join(m, lo, hi)
    decreases hi - mid
  {
    if mid < hi {
      JoinGrows(m, lo, mid, hi - 1);
    }
  }

  /** Writing the buffered next chunk out keeps the same chunks held. */
  lemma MoveOne(a: Assembly, content: Bytes, base: Bytes, first: int, m: map<int, Bytes>)
    requires Holds(a, content, base, first, m) && a.next in a.pending
    ensures base + Join(m, first, a.next + 1) == content + a.pending[a.next]
    ensures Holds(a.(next := a.next + 1, pending := a.pending - {a.next}), content + a.pending[a.next], base, first, m)
  {
    assert Join(m, first, a.next + 1) == Join(m, first, a.next) + m[a.next];
  }

  /** Flushing moves buffered chunks to disk and never changes which chunks are held; it
      fails exactly when the unbroken run is longer than the disk has room for. */
  lemma {:induction false} FlushKeepsMeaning(a: Assembly, s: Sink, base: Bytes, first: int, m: map<int, Bytes>)
    requires Holds(a, s.content, base, first, m)
    ensures var f := FlushFrom(a, s);
      && f.asm.maxPending == a.maxPending && Capacity(f.sink) == Capacity(s)
      && f.outcome in {Accepted, WriterFailed}
      && (f.outcome == Accepted ==> Represents(f.asm, f.sink.content, base, first, m))
      && (f.outcome == WriterFailed ==> f.sink.room == 0 && TornPrefix(f.sink.content, base, first, m))
      && (f.outcome == WriterFailed <==> Capacity(s) < |base + Contiguous(m, first)|)
    decreases |a.pending|
  {
    if a.next in a.pending {
      var (s', ok) := Put(s, a.pending[a.next]);
      MoveOne(a, s.content, base, first, m);
      if ok {
        FlushKeepsMeaning(a.(next := a.next + 1, pending := a.pending - {a.next}), s', base, first, m);
      } else {
        assert TornAt(s'.content, base, first, m, a.next + 1);
        RunReaches(m, first, a.next + 1);
      }
    } else {
      GapUnique(m.Keys, first, a.next);
    }
  }

  lemma RunReaches(m: map<int, Bytes>, first: int, n: int)
    requires first <= n && (forall k :: first <= k < n ==> k in m)
    ensures Join(m, first, n) <= Contiguous(m, first)
  {
    JoinGrows(m, first, n, Gap(m.Keys, first));
  }

  /** The chunk that fills the gap is written, and joins the set with everything it releases. */
  lemma InOrderJoins(a: Assembly, s: Sink, data: Bytes, base: Bytes, first: int, m: map<int, Bytes>)
    requires 0 <= first && Represents(a, s.content, base, first, m)
    ensures var f := Feed(a, s, a.next, data);
      && f.asm.maxPending == a.maxPending && Capacity(f.sink) == Capacity(s)
      && f.outcome in {Accepted, WriterFailed}
      && (f.outcome == Accepted ==> Represents(f.asm, f.sink.content, base, first, m[a.next := data]))
      && (f.outcome == WriterFailed ==>
            f.sink.room == 0 && TornPrefix(f.sink.content, base, first, m[a.next := data]))
      && (f.outcome == WriterFailed <==> Capacity(s) < |base + Contiguous(m[a.next := data], first)|)
  {
    var m' := m[a.next := data];
    var (s', ok) := Put(s, data);
    JoinSame(m, m', first, a.next);
    assert Join(m', first, a.next + 1) == Join(m', first, a.next) + data;
    assert base + Join(m', first, a.next + 1) == s.content + data;
    if ok {
      FlushKeepsMeaning(a.(next := a.next + 1), s', base, first, m');
    } else {
      assert TornAt(s'.content, base, first, m', a.next + 1);
      RunReaches(m', first, a.next + 1);
    }
  }

  /** The numbers that wait behind the gap. */
  ghost function Ahead(keys: set<int>, gap: int): set<int> {
    set k | k in keys && gap < k
  }

  lemma BufferIsAhead(a: Assembly, content: Bytes, base: Bytes, first: int, m: map<int, Bytes>)
    requires Represents(a, content, base, first, m)
    ensures a.pending.Keys == Ahead(m.Keys, a.next) && Gap(m.Keys, first) == a.next
  {
    forall k ensures k in a.pending.Keys <==> k in Ahead(m.Keys, a.next) {
      assert k in a.pending <==> k in m && a.next <= k;
    }
    GapUnique(m.Keys, first, a.next);
  }

  /** Finish succeeds exactly when no received chunk waits behind the gap and, for a positive
      total, the gap lies at or past it. */
  lemma FinishDecides(a: Assembly, content: Bytes, base: Bytes, first: int, m: map<int, Bytes>, totalChunks: int)
    requires Represents(a, content, base, first, m)
    ensures Complete(a, totalChunks) <==>
      && (forall k :: k in m ==> k < Gap(m.Keys, first))
      && (totalChunks > 0 ==> Gap(m.Keys, first) >= totalChunks)
  {
    BufferIsAhead(a, content, base, first, m);
    if |a.pending| == 0 {
      forall k | k in m ensures k < a.next {
        assert k !in a.pending;
      }
    } else {
      assert a.pending.Keys != {};
      var k :| k in a.pending.Keys;
      assert k in m && a.next <= k;
    }
  }

  /** One call: every refusal says exactly what the received set and the disk say, an
      accepted chunk joins the set, and a refused one changes nothing. */
  lemma FeedKeepsMeaning(a: Assembly, s: Sink, num: int, data: Bytes, base: Bytes, first: int, m: map<int, Bytes>)
    requires 0 <= first && Represents(a, s.content, base, first, m)
    ensures var f := Feed(a, s, num, data);
      && f.asm.maxPending == a.maxPending && Capacity(f.sink) == Capacity(s)
      && (f.outcome == InvalidSeq <==> num < 0)
      && (f.outcome == Duplicate <==> 0 <= num && (num < first || num in m))
      && (f.outcome == OutOfOrder <==>
            first <= num && num !in m && num != a.next && |Ahead(m.Keys, a.next)| >= a.maxPending)
      && (f.outcome == WriterFailed <==>
            num == a.next && Capacity(s) < |base + Contiguous(m[num := data], first)|)
      && (f.outcome == Accepted ==>
            first <= num && num !in m && Represents(f.asm, f.sink.content, base, first, m[num := data]))
      && (f.outcome == WriterFailed ==>
            f.sink.room == 0 && TornPrefix(f.sink.content, base, first, m[num := data]))
      && (f.outcome in {InvalidSeq, Duplicate, OutOfOrder} ==> f.asm == a && f.sink == s)
  {
    BufferIsAhead(a, s.content, base, first, m);
    if num == a.next {
      InOrderJoins(a, s, data, base, first, m);
    } else if num > a.next && num !in m {
      JoinSame(m, m[num := data], first, a.next);
    }
  }

  lemma {:induction false} FlushShrinks(a: Assembly, s: Sink)
    ensures |FlushFrom(a, s).asm.pending| <= |a.pending|
    decreases |a.pending|
  {
    if a.next in a.pending {
      FlushShrinks(a.(next := a.next + 1, pending := a.pending - {a.next}), Put(s, a.pending[a.next]).0);
    }
  }

  /** However chunks arrive, the buffer never holds more than maxPending of them. */
  lemma {:induction false} BufferBounded(a: Assembly, s: Sink, chunks: seq<Chunk>)
    requires |a.pending| <= a.maxPending
    ensures |FeedAll(a, s, chunks).asm.pending| <= a.maxPending
    decreases |chunks|
  {
    if chunks != [] {
      var c := chunks[0];
      var f := Feed(a, s, c.num, c.data);
      if c.num == a.next {
        FlushShrinks(a.(next := a.next + 1), Put(s, c.data).0);
      }
      assert |f.asm.pending| <= a.maxPending && (f.outcome == Accepted ==> f.asm.maxPending == a.maxPending) by {
        FlushKeepsLimit(a.(next := a.next + 1), Put(s, c.data).0);
      }
      if f.outcome == Accepted {
        BufferBounded(f.asm, f.sink, chunks[1..]);
      }
    }
  }

  lemma {:induction false} FlushKeepsLimit(a: Assembly, s: Sink)
    ensures FlushFrom(a, s).asm.maxPending == a.maxPending
    decreases |a.pending|
  {
    if a.next in a.pending {
      FlushKeepsLimit(a.(next := a.next + 1, pending := a.pending - {a.next}), Put(s, a.pending[a.next]).0);
    }
  }

  /** m is exactly the given chunks. */
  ghost predicate IsSetOf(m: map<int, Bytes>, chunks: seq<Chunk>) {
    && (forall c :: c in chunks ==> c.num in m && m[c.num] == c.data)
    && (forall k :: k in m ==> Chunk(k, m[k]) in chunks)
  }

  /** m holds nothing but chunks from first on that are among the given ones. */
  ghost predicate Among(m: map<int, Bytes>, first: int, chunks: seq<Chunk>) {
    forall k :: k in m ==> first <= k && Chunk(k, m[k]) in chunks
  }

  lemma SetGrows(m: map<int, Bytes>, seen: seq<Chunk>, c: Chunk, rest: seq<Chunk>, first: int)
    requires IsSetOf(m, seen) && (forall k :: k in m ==> first <= k) && first <= c.num && c.num !in m
    ensures IsSetOf(m[c.num := c.data], seen + [c])
    ensures Among(m, first, seen + ([c] + rest)) && Among(m[c.num := c.data], first, seen + ([c] + rest))
  {}

  /** A whole delivery: what is accepted is held; what a failed delivery wrote is a torn run of what arrived. */
  lemma {:induction false} FeedAllKeepsMeaning(a: Assembly, s: Sink, seen: seq<Chunk>, chunks: seq<Chunk>,
                                               base: Bytes, first: int, m: map<int, Bytes>)
    returns (m': map<int, Bytes>)
    requires 0 <= first && Represents(a, s.content, base, first, m) && IsSetOf(m, seen)
    ensures var f := FeedAll(a, s, chunks);
      if f.outcome == Accepted
      then Represents(f.asm, f.sink.content, base, first, m') && IsSetOf(m', seen + chunks)
      else TornPrefix(f.sink.content, base, first, m')
    ensures Among(m', first, seen + chunks) && FeedAll(a, s, chunks).asm.maxPending == a.maxPending
    decreases |chunks|
  {
    if chunks == [] {
      assert seen + chunks == seen;
      m' := m;
    } else {
      var c := chunks[0];
      var f := Feed(a, s, c.num, c.data);
      FeedKeepsMeaning(a, s, c.num, c.data, base, first, m);
      assert chunks == [c] + chunks[1..];
      if f.outcome == Accepted {
        SetGrows(m, seen, c, chunks[1..], first);
        assert seen + chunks == (seen + [c]) + chunks[1..];
        m' := FeedAllKeepsMeaning(f.asm, f.sink, seen + [c], chunks[1..], base, first, m[c.num := c.data]);
      } else if f.outcome == WriterFailed {
        SetGrows(m, seen, c, chunks[1..], first);
        m' := m[c.num := c.data];
      } else {
        m' := m;
        assert TornAt(s.content, base, first, m, a.next);
      }
    }
  }

  /** A received set has only one representation. */
  lemma RepresentationUnique(a: Assembly, content: Bytes, a': Assembly, content': Bytes,
                             base: Bytes, first: int, m: map<int, Bytes>)
    requires Represents(a, content, base, first, m) && Represents(a', content', base, first, m)
    ensures a.next == a'.next && a.pending == a'.pending && content == content'
  {
    assert a.next < a'.next ==> a.next in m;
    assert a'.next < a.next ==> a'.next in m;
    forall k
      ensures k in a.pending <==> k in a'.pending
      ensures k in a.pending ==> a.pending[k] == a'.pending[k]
    {
      assert k in a.pending <==> k in m && a.next <= k;
    }
  }

  lemma SetUnique(m1: map<int, Bytes>, m2: map<int, Bytes>, one: seq<Chunk>, two: seq<Chunk>)
    requires (forall c :: c in one <==> c in two) && IsSetOf(m1, one) && IsSetOf(m2, two)
    ensures m1 == m2
  {
    forall k | k in m1 ensures k in m2 && m2[k] == m1[k] {
      assert Chunk(k, m1[k]) in two;
    }
    forall k | k in m2 ensures k in m1 {
      assert Chunk(k, m2[k]) in one;
    }
  }

  function Fresh(first: int, maxPending: int): Assembly {
    Assembly(first, map[], maxPending)
  }

  /** Any two accepted deliveries of the same chunks leave the same file and the same buffer. */
  lemma OrderIndependent(first: nat, maxPending: int, s: Sink, one: seq<Chunk>, two: seq<Chunk>)
    requires forall c :: c in one <==> c in two
    requires FeedAll(Fresh(first, maxPending), s, one).outcome == Accepted
    requires FeedAll(Fresh(first, maxPending), s, two).outcome == Accepted
    ensures var f1, f2 := FeedAll(Fresh(first, maxPending), s, one), FeedAll(Fresh(first, maxPending), s, two);
      f1.asm == f2.asm && f1.sink.content == f2.sink.content
  {
    var a := Fresh(first, maxPending);
    var m1 := FeedAllKeepsMeaning(a, s, [], one, s.content, first, map[]);
    var m2 := FeedAllKeepsMeaning(a, s, [], two, s.content, first, map[]);
    assert [] + one == one && [] + two == two;
    SetUnique(m1, m2, one, two);
    var f1, f2 := FeedAll(a, s, one), FeedAll(a, s, two);
    RepresentationUnique(f1.asm, f1.sink.content, f2.asm, f2.sink.content, s.content, first, m1);
  }

  // ---------------------------------------------------------------- when a delivery is accepted

  ghost function Nums(chunks: seq<Chunk>): set<int> {
    set c | c in chunks :: c.num
  }

  /** The chunks by number; the last of a number counts. */
  ghost function Collected(chunks: seq<Chunk>): (m: map<int, Bytes>)
    ensures m.Keys == Nums(chunks)
  {
    if chunks == [] then map[]
    else
      var last := chunks[|chunks| - 1];
      assert chunks == chunks[..|chunks| - 1] + [last];
      Collected(chunks[..|chunks| - 1])[last.num := last.data]
  }

  ghost predicate NoRepeats(chunks: seq<Chunk>) {
    forall i, j :: 0 <= i < j < |chunks| ==> chunks[i].num != chunks[j].num
  }

  /** Chunk j comes next, or fewer than limit chunks wait behind the gap when it arrives. */
  ghost predicate RoomAt(chunks: seq<Chunk>, j: nat, first: int, limit: int)
    requires j < |chunks|
  {
    var gap := Gap(Nums(chunks[..j]), first);
    chunks[j].num == gap || |Ahead(Nums(chunks[..j]), gap)| < limit
  }

  /** What a delivery must be like, in terms of its numbers alone. */
  ghost predicate Orderly(chunks: seq<Chunk>, first: int, limit: int) {
    && (forall j :: 0 <= j < |chunks| ==> first <= chunks[j].num)
    && NoRepeats(chunks)
    && (forall j :: 0 <= j < |chunks| ==> RoomAt(chunks, j, first, limit))
  }

  lemma NoRepeatsSoFar(chunks: seq<Chunk>, c: Chunk)
    ensures NoRepeats(chunks + [c]) <==> NoRepeats(chunks) && c.num !in Nums(chunks)
  {
    var all := chunks + [c];
    assert forall j :: 0 <= j < |chunks| ==> all[j] == chunks[j];
    if c.num in Nums(chunks) {
      var d :| d in chunks && d.num == c.num;
      var i :| 0 <= i < |chunks| && chunks[i] == d;
      assert all[i].num == all[|chunks|].num;
    } else {
      assert forall j :: 0 <= j < |chunks| ==> chunks[j].num in Nums(chunks);
    }
    if NoRepeats(all) {
      assert forall i, j :: 0 <= i < j < |chunks| ==> all[i].num != all[j].num;
    }
  }

  lemma RoomSoFar(chunks: seq<Chunk>, c: Chunk, first: int, limit: int)
    ensures (forall j :: 0 <= j < |chunks| + 1 ==> RoomAt(chunks + [c], j, first, limit)) <==>
      && (forall j :: 0 <= j < |chunks| ==> RoomAt(chunks, j, first, limit))
      && RoomAt(chunks + [c], |chunks|, first, limit)
  {
    var all := chunks + [c];
    forall j | 0 <= j < |chunks| ensures RoomAt(all, j, first, limit) == RoomAt(chunks, j, first, limit) {
      assert all[j] == chunks[j] && all[..j] == chunks[..j];
    }
  }

  lemma OrderlySoFar(chunks: seq<Chunk>, c: Chunk, first: int, limit: int)
    ensures Orderly(chunks + [c], first, limit) <==>
      && Orderly(chunks, first, limit)
      && first <= c.num && c.num !in Nums(chunks) && RoomAt(chunks + [c], |chunks|, first, limit)
  {
    var all := chunks + [c];
    NoRepeatsSoFar(chunks, c);
    RoomSoFar(chunks, c, first, limit);
    assert forall j :: 0 <= j < |chunks| ==> all[j] == chunks[j];
    assert all[|chunks|] == c;
  }

  predicate InOrder(chunks: seq<Chunk>, first: int) {
    forall j :: 0 <= j < |chunks| ==> chunks[j].num == first + j
  }

  /** Chunks in order never have to wait. */
  lemma InOrderIsOrderly(chunks: seq<Chunk>, first: int, limit: int)
    requires InOrder(chunks, first)
    ensures Orderly(chunks, first, limit)
  {
    forall j | 0 <= j < |chunks| ensures RoomAt(chunks, j, first, limit) {
      var before := Nums(chunks[..j]);
      forall k | first <= k < first + j ensures k in before {
        assert chunks[..j][k - first].num == k;
      }
      GapUnique(before, first, first + j);
    }
  }

  lemma {:induction false} FeedAllSnoc(a: Assembly, s: Sink, chunks: seq<Chunk>, c: Chunk)
    ensures var f := FeedAll(a, s, chunks);
      FeedAll(a, s, chunks + [c]) == if f.outcome != Accepted then f else Feed(f.asm, f.sink, c.num, c.data)
    decreases |chunks|
  {
    if chunks == [] {
      assert ([] + [c])[1..] == [];
    } else {
      assert (chunks + [c])[0] == chunks[0] && (chunks + [c])[1..] == chunks[1..] + [c];
      var f := Feed(a, s, chunks[0].num, chunks[0].data);
      FeedAllSnoc(f.asm, f.sink, chunks[1..], c);
    }
  }

  lemma ContiguousGrows(m: map<int, Bytes>, num: int, data: Bytes, first: int)
    requires num !in m
    ensures Contiguous(m, first) <= Contiguous(m[num := data], first)
  {
    var m', g := m[num := data], Gap(m.Keys, first);
    JoinSame(m, m', first, g);
    RunReaches(m', first, g);
  }

  /** What is known after the chunks: accepted exactly when orderly and fitting, and then represented. */
  ghost predicate AcceptedExactly(first: nat, limit: int, s: Sink, chunks: seq<Chunk>, f: Fed) {
    && Capacity(f.sink) == Capacity(s)
    && (f.outcome == Accepted <==> Orderly(chunks, first, limit) && |Contiguous(Collected(chunks), first)| <= s.room)
    && (f.outcome == Accepted ==>
          f.asm.maxPending == limit && Represents(f.asm, f.sink.content, s.content, first, Collected(chunks)))
  }

  lemma CollectedSnoc(chunks: seq<Chunk>, c: Chunk)
    ensures Collected(chunks + [c]) == Collected(chunks)[c.num := c.data]
    ensures (chunks + [c])[..|chunks|] == chunks
  {
    assert (chunks + [c])[..|chunks|] == chunks;
  }

  /** One more chunk after an accepted delivery. */
  lemma OneMoreAccepted(first: nat, limit: int, s: Sink, before: seq<Chunk>, c: Chunk, f: Fed)
    requires f.outcome == Accepted && AcceptedExactly(first, limit, s, before, f)
    ensures AcceptedExactly(first, limit, s, before + [c], Feed(f.asm, f.sink, c.num, c.data))
  {
    var m := Collected(before);
    FeedKeepsMeaning(f.asm, f.sink, c.num, c.data, s.content, first, m);
    BufferIsAhead(f.asm, f.sink.content, s.content, first, m);
    OrderlySoFar(before, c, first, limit);
    CollectedSnoc(before, c);
    var f' := Feed(f.asm, f.sink, c.num, c.data);
    if f'.outcome == Accepted {
      BufferIsAhead(f'.asm, f'.sink.content, s.content, first, m[c.num := c.data]);
    }
  }

  /** A delivery once refused stays refused. */
  lemma NoMoreAccepted(first: nat, limit: int, s: Sink, before: seq<Chunk>, c: Chunk, f: Fed)
    requires f.outcome != Accepted && AcceptedExactly(first, limit, s, before, f)
    ensures AcceptedExactly(first, limit, s, before + [c], f)
  {
    OrderlySoFar(before, c, first, limit);
    CollectedSnoc(before, c);
    if c.num !in Nums(before) {
      ContiguousGrows(Collected(before), c.num, c.data, first);
    }
  }

  /** A delivery is accepted exactly when its numbers are orderly and the unbroken run they
      make fits on the disk; the assembler then represents what was delivered. */
  lemma {:induction false} DeliveryAcceptedExactly(first: nat, limit: int, s: Sink, chunks: seq<Chunk>)
    ensures AcceptedExactly(first, limit, s, chunks, FeedAll(Fresh(first, limit), s, chunks))
    decreases |chunks|
  {
    if chunks == [] {
      assert Contiguous(map[], first) == [];
      assert Represents(Fresh(first, limit), s.content, s.content, first, map[]);
    } else {
      var before, c := chunks[..|chunks| - 1], chunks[|chunks| - 1];
      assert chunks == before + [c];
      DeliveryAcceptedExactly(first, limit, s, before);
      FeedAllSnoc(Fresh(first, limit), s, before, c);
      var f := FeedAll(Fresh(first, limit), s, before);
      if f.outcome == Accepted {
        OneMoreAccepted(first, limit, s, before, c, f);
      } else {
        NoMoreAccepted(first, limit, s, before, c, f);
      }
    }
  }

  // ---------------------------------------------------------------- what a delivery leaves on disk

  /** How many chunks of a delivery come before the first that is out of order. */
  ghost function OrderlyPrefix(chunks: seq<Chunk>, first: int, limit: int): (k: nat)
    ensures k <= |chunks|
    ensures k == |chunks| <==> Orderly(chunks, first, limit)
  {
    if chunks == [] then 0
    else
      var before, last := chunks[..|chunks| - 1], chunks[|chunks| - 1];
      assert chunks == before + [last];
      OrderlySoFar(before, last, first, limit);
      if Orderly(chunks, first, limit) then |chunks| else OrderlyPrefix(before, first, limit)
  }

  lemma OrderlyPrefixSnoc(before: seq<Chunk>, c: Chunk, first: int, limit: int)
    ensures var k := OrderlyPrefix(before + [c], first, limit);
      k == if Orderly(before + [c], first, limit) then |before| + 1 else OrderlyPrefix(before, first, limit)
  {
    assert (before + [c])[..|before|] == before;
  }

  /** The unbroken run of the orderly part of a delivery. */
  ghost function OrderlyRun(chunks: seq<Chunk>, first: int, limit: int): Bytes {
    Contiguous(Collected(chunks[..OrderlyPrefix(chunks, first, limit)]), first)
  }

  /** file cut where the disk ends. */
  function Cut(file: Bytes, capacity: nat): Bytes {
    if |file| <= capacity then file else file[..capacity]
  }

  lemma CutOfLonger(one: Bytes, two: Bytes, capacity: nat)
    requires one <= two && |one| > capacity
    ensures Cut(one, capacity) == Cut(two, capacity)
  {}

  lemma TornWithinRun(content: Bytes, base: Bytes, first: int, m: map<int, Bytes>)
    requires TornPrefix(content, base, first, m)
    ensures content <= base + Contiguous(m, first)
  {
    var n :| TornAt(content, base, first, m, n);
    RunReaches(m, first, n);
  }

  /** One call, by what it leaves on disk. */
  lemma FeedLeaves(a: Assembly, s: Sink, c: Chunk, base: Bytes, first: int, m: map<int, Bytes>)
    requires 0 <= first && Represents(a, s.content, base, first, m)
    ensures var f := Feed(a, s, c.num, c.data);
      if f.outcome in {Accepted, WriterFailed}
      then f.sink.content == Cut(base + Contiguous(m[c.num := c.data], first), Capacity(s))
      else f.sink.content == s.content
  {
    var f := Feed(a, s, c.num, c.data);
    FeedKeepsMeaning(a, s, c.num, c.data, base, first, m);
    if f.outcome == Accepted {
      BufferIsAhead(f.asm, f.sink.content, base, first, m[c.num := c.data]);
    } else if f.outcome == WriterFailed {
      TornWithinRun(f.sink.content, base, first, m[c.num := c.data]);
    }
  }

  /** After an accepted delivery, the next chunk is written or buffered exactly when it is in order. */
  lemma TakenWhenOrderly(first: nat, limit: int, s: Sink, before: seq<Chunk>, c: Chunk, f: Fed)
    requires f.outcome == Accepted && AcceptedExactly(first, limit, s, before, f)
    ensures Feed(f.asm, f.sink, c.num, c.data).outcome in {Accepted, WriterFailed} <==>
      Orderly(before + [c], first, limit)
  {
    var m := Collected(before);
    FeedKeepsMeaning(f.asm, f.sink, c.num, c.data, s.content, first, m);
    BufferIsAhead(f.asm, f.sink.content, s.content, first, m);
    OrderlySoFar(before, c, first, limit);
    CollectedSnoc(before, c);
  }

  lemma OrderlyRunSnoc(before: seq<Chunk>, c: Chunk, first: int, limit: int)
    ensures OrderlyRun(before + [c], first, limit) ==
      if Orderly(before + [c], first, limit) then Contiguous(Collected(before)[c.num := c.data], first)
      else OrderlyRun(before, first, limit)
    ensures Orderly(before, first, limit) ==> OrderlyRun(before, first, limit) == Contiguous(Collected(before), first)
    ensures Orderly(before + [c], first, limit) ==> Orderly(before, first, limit)
  {
    var k := OrderlyPrefix(before, first, limit);
    OrderlyPrefixSnoc(before, c, first, limit);
    OrderlySoFar(before, c, first, limit);
    CollectedSnoc(before, c);
    assert (before + [c])[..|before| + 1] == before + [c];
    assert before[..|before|] == before && (before + [c])[..k] == before[..k];
  }

  /** One more chunk after an accepted delivery. */
  lemma OneMoreLeft(first: nat, limit: int, s: Sink, before: seq<Chunk>, c: Chunk, f: Fed)
    requires f.outcome == Accepted && AcceptedExactly(first, limit, s, before, f)
    requires f.sink.content == Cut(s.content + OrderlyRun(before, first, limit), Capacity(s))
    ensures Feed(f.asm, f.sink, c.num, c.data).sink.content
         == Cut(s.content + OrderlyRun(before + [c], first, limit), Capacity(s))
  {
    FeedLeaves(f.asm, f.sink, c, s.content, first, Collected(before));
    TakenWhenOrderly(first, limit, s, before, c, f);
    OrderlyRunSnoc(before, c, first, limit);
  }

  /** Nothing more is written once a chunk was refused or the disk was full. */
  lemma NoMoreLeft(first: nat, limit: int, s: Sink, before: seq<Chunk>, c: Chunk, f: Fed)
    requires f.outcome != Accepted && AcceptedExactly(first, limit, s, before, f)
    requires f.sink.content == Cut(s.content + OrderlyRun(before, first, limit), Capacity(s))
    ensures f.sink.content == Cut(s.content + OrderlyRun(before + [c], first, limit), Capacity(s))
  {
    OrderlyRunSnoc(before, c, first, limit);
    if Orderly(before + [c], first, limit) {
      OrderlySoFar(before, c, first, limit);
      ContiguousGrows(Collected(before), c.num, c.data, first);
      var one, two := OrderlyRun(before, first, limit), OrderlyRun(before + [c], first, limit);
      assert s.content + one <= s.content + two;
      CutOfLonger(s.content + one, s.content + two, Capacity(s));
    }
  }

  /** Whatever arrives, what is on disk is what was there, followed by the unbroken run of
      the chunks before the first one out of order, cut where the disk ends. */
  lemma {:induction false} DeliveryLeavesExactly(first: nat, limit: int, s: Sink, chunks: seq<Chunk>)
    ensures FeedAll(Fresh(first, limit), s, chunks).sink.content
         == Cut(s.content + OrderlyRun(chunks, first, limit), Capacity(s))
    decreases |chunks|
  {
    if chunks == [] {
      assert Contiguous(map[], first) == [];
    } else {
      var before, c := chunks[..|chunks| - 1], chunks[|chunks| - 1];
      assert chunks == before + [c];
      DeliveryLeavesExactly(first, limit, s, before);
      DeliveryAcceptedExactly(first, limit, s, before);
      FeedAllSnoc(Fresh(first, limit), s, before, c);
      var f := FeedAll(Fresh(first, limit), s, before);
      if f.outcome == Accepted {
        OneMoreLeft(first, limit, s, before, c, f);
      } else {
        NoMoreLeft(first, limit, s, before, c, f);
      }
    }
  }

  // ---------------------------------------------------------------- accounting

  ghost function Buffered(m: map<int, Bytes>): nat {
    if k :| k in m then |m[k]| + Buffered(m - {k}) else 0
  }

  lemma {:induction false} BufferedSplit(m: map<int, Bytes>, k: int)
    requires k in m
    ensures Buffered(m) == |m[k]| + Buffered(m - {k})
    decreases |m|
  {
    var j :| j in m && Buffered(m) == |m[j]| + Buffered(m - {j});
    if j != k {
      BufferedSplit(m - {j}, k);
      BufferedSplit(m - {k}, j);
      assert m - {j} - {k} == m - {k} - {j};
    }
  }

  lemma {:induction false} FlushConserves(a: Assembly, s: Sink)
    requires FlushFrom(a, s).outcome == Accepted
    ensures var f := FlushFrom(a, s);
      |f.sink.content| + Buffered(f.asm.pending) == |s.content| + Buffered(a.pending)
    decreases |a.pending|
  {
    if a.next in a.pending {
      BufferedSplit(a.pending, a.next);
      var (s', ok) := Put(s, a.pending[a.next]);
      FlushConserves(a.(next := a.next + 1, pending := a.pending - {a.next}), s');
    }
  }

  /** Every accepted byte is on disk or in the buffer, exactly once. */
  lemma FeedConserves(a: Assembly, s: Sink, num: int, data: Bytes)
    requires Feed(a, s, num, data).outcome == Accepted
    ensures var f := Feed(a, s, num, data);
      |f.sink.content| + Buffered(f.asm.pending) == |s.content| + Buffered(a.pending) + |data|
  {
    if num == a.next {
      FlushConserves(a.(next := num + 1), Put(s, data).0);
    } else {
      BufferedSplit(a.pending[num := data], num);
      assert a.pending[num := data] - {num} == a.pending;
    }
  }

  /** A transfer's receiving end: the agent's uploadState, and the server's
      transferState of a download, count bytes alike. */
  class Receiver {
    const file: PartFile
    const assembler: ChunkAssembler
    const expectedChunks: int
    var received: int
    var live: bool

    ghost predicate Valid()
      reads this, file, assembler
    {
      live ==> received == |file.content| + Buffered(assembler.pending)
    }

    constructor (file: PartFile, offset: int, size: int, chunkSize: int)
      requires chunkSize > 0 && offset == |file.content|
      ensures Valid() && live && this.file == file && fresh(assembler)
      ensures assembler.View() == Fresh(offset / chunkSize, DEFAULT_MAX_PENDING)
      ensures expectedChunks == ChunkCount(size, chunkSize) && received == offset
    {
      var a := new ChunkAssembler(0);
      a.Resume(offset / chunkSize);
      this.file, assembler := file, a;
      expectedChunks := ChunkCount(size, chunkSize);
      received, live := offset, true;
    }

    method HandleChunk(num: int, data: Bytes)
      requires Valid()
      modifies this, file, assembler
      ensures Valid()
      ensures !old(live) ==>
        && !live && received == old(received)
        && assembler.View() == old(assembler.View()) && file.View() == old(file.View())
      ensures old(live) ==>
        var f := Feed(old(assembler.View()), old(file.View()), num, data);
        && assembler.View() == f.asm && file.View() == f.sink && live == (f.outcome == Accepted)
        && received == old(received) + (if live then |data| else 0)
    {
      if !live {
        return;
      }
      ghost var a, s := assembler.View(), file.View();
      var r := assembler.Write(file, num, data);
      if r != Accepted {
        live := false;
        return;
      }
      received := received + |data|;
      FeedConserves(a, s, num, data);
    }
  }
}
