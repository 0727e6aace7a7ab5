/**
Reading a disk into the store: whole, or, over the previous backup's index, only the chunks the dirty bitmap shows and
the ones the store lost. Futures are waited for in order, a bounded number of chunks in flight; a future's put happens
when it is waited for.
*/
module IncrementalBackup {
  import opened Wrappers
  import opened StoreSettings
  import opened Bytes
  import opened ChunkCodec
  import opened ChunkStore
  import opened BackupStore
  import opened DiskCut
  import opened Sorting
  import IndexCodec

  /** A run of the dirty bitmap, as nbdinfo lists it. */
  datatype Extent = Extent(offset: nat, length: nat, dirty: bool)

  function FirstChunk(e: Extent, chunkSize: nat): nat
    requires chunkSize > 0
  {
    e.offset / chunkSize
  }

  /** -1 before the first chunk, as Python divides. */
  function LastChunk(e: Extent, size: nat, chunkSize: nat): int
    requires chunkSize > 0
  {
    (Min(e.offset + e.length, size) - 1) / chunkSize
  }

  ghost predicate Covers(e: Extent, size: nat, chunkSize: nat, i: int)
    requires chunkSize > 0
  {
    e.dirty && FirstChunk(e, chunkSize) <= i <= LastChunk(e, size, chunkSize)
  }

  /** range(first, last + 1), as a set. */
  function Span(first: int, last: int): (s: set<int>)
    ensures forall i :: i in s <==> first <= i <= last
    decreases last - first + 1
  {
    if first > last then {} else {first} + Span(first + 1, last)
  }

  /** The chunks some dirty extent covers. */
  function Changed(extents: seq<Extent>, size: nat, chunkSize: nat): (changed: set<int>)
    requires chunkSize > 0
    ensures forall i :: i in changed <==> exists k | 0 <= k < |extents| :: Covers(extents[k], size, chunkSize, i)
  {
    if extents == [] then {}
    else
      var n := |extents| - 1;
      var e, before := extents[n], extents[..n];
      var rest := Changed(before, size, chunkSize);
      assert forall k | 0 <= k < n :: before[k] == extents[k];
      if e.dirty then rest + Span(FirstChunk(e, chunkSize), LastChunk(e, size, chunkSize)) else rest
  }

  method ChangedChunks(extents: seq<Extent>, size: nat, chunkSize: nat) returns (changed: set<int>)
    requires chunkSize > 0
    ensures changed == Changed(extents, size, chunkSize)
    ensures forall i | i in changed :: 0 <= i < IndexCodec.Ceil(size, chunkSize)
    ensures Substantial(extents, size) ==> forall i :: i in changed <==> HoldDirtyByteOf(extents, size, chunkSize, i)
  {
    changed := {};
    for n := 0 to |extents|
      invariant changed == Changed(extents[..n], size, chunkSize)
    {
      var e := extents[n];
      assert extents[..n + 1][..n] == extents[..n];
      if e.dirty {
        changed := changed + Span(FirstChunk(e, chunkSize), LastChunk(e, size, chunkSize));
      }
    }
    assert extents[..|extents|] == extents;
    ChangedInDisk(extents, size, chunkSize);
    forall i | Substantial(extents, size)
      ensures i in changed <==> HoldDirtyByteOf(extents, size, chunkSize, i)
    {
      ChangedMeans(extents, size, chunkSize, i);
    }
  }

  /** No extent is empty or begins beyond the disk. */
  ghost predicate Substantial(extents: seq<Extent>, size: nat)
  {
    forall k | 0 <= k < |extents| :: extents[k].length > 0 && extents[k].offset < size
  }

  /** Some dirty extent has a byte of the disk in chunk `i`. */
  ghost predicate HoldDirtyByteOf(extents: seq<Extent>, size: nat, c: nat, i: int)
  {
    exists k | 0 <= k < |extents| :: extents[k].dirty && HoldsByteOf(extents[k], size, c, i)
  }

  lemma ChangedInDisk(extents: seq<Extent>, size: nat, c: nat)
    requires c > 0
    ensures forall i | i in Changed(extents, size, c) :: 0 <= i < IndexCodec.Ceil(size, c)
  {
    forall i | i in Changed(extents, size, c)
      ensures 0 <= i < IndexCodec.Ceil(size, c)
    {
      var k :| 0 <= k < |extents| && Covers(extents[k], size, c, i);
      CoveredInDisk(extents[k], size, c, i);
    }
  }

  lemma CoveredInDisk(e: Extent, size: nat, c: nat, i: int)
    requires c > 0 && Covers(e, size, c, i)
    ensures 0 <= i < IndexCodec.Ceil(size, c)
  {
    QuotientMonotone(Min(e.offset + e.length, size) - 1, size - 1, c);
    if size > 0 {
      DivideOnce(size - 1 + c, c);
    } else {
      DivModUnique(c, 0, c - 1);
      NegativeOne(c);
    }
  }

  lemma NegativeOne(c: nat)
    requires c > 0
    ensures -1 / c == -1
  {
    var q := -1 / c;
    assert -1 == c * q + (-1) % c;
    NoMultipleBelow(c, q);
    NoMultipleBelow(c, q + 1);
    assert c * (q + 1) == c * q + c;
  }

  /** Every byte that differs from `before` to `after` lies in a dirty extent. */
  ghost predicate DirtyCovers(extents: seq<Extent>, before: Bytes, after: Bytes)
  {
    && |before| == |after|
    && forall p | 0 <= p < |before| && before[p] != after[p] ::
         exists k | 0 <= k < |extents| ::
           extents[k].dirty && extents[k].offset <= p < extents[k].offset + extents[k].length
  }

  lemma DirtyByteCovered(e: Extent, p: nat, size: nat, c: nat, i: nat)
    requires c > 0 && e.dirty && e.offset <= p < e.offset + e.length && p < size && i * c <= p < i * c + c
    ensures Covers(e, size, c, i)
  {
    ChunkOfByte(p, i, c);
    QuotientMonotone(e.offset, p, c);
    QuotientMonotone(p, Min(e.offset + e.length, size) - 1, c);
  }

  /** A byte of the extent, on the disk, lies in chunk `i`. */
  ghost predicate HoldsByteOf(e: Extent, size: nat, c: nat, i: int)
  {
    exists p: nat :: InExtent(e, p, size) && i * c <= p < i * c + c
  }

  predicate InExtent(e: Extent, p: nat, size: nat)
  {
    e.offset <= p < e.offset + e.length && p < size
  }

  lemma CoversIff(e: Extent, size: nat, c: nat, i: int)
    requires c > 0 && e.length > 0 && e.offset < size
    ensures Covers(e, size, c, i) <==> e.dirty && HoldsByteOf(e, size, c, i)
  {
    if e.dirty && HoldsByteOf(e, size, c, i) {
      var p: nat :| InExtent(e, p, size) && i * c <= p < i * c + c;
      NonNegativeChunk(p, i, c);
      DirtyByteCovered(e, p, size, c, i);
    }
    if Covers(e, size, c, i) {
      CoveredHoldsByte(e, size, c, i);
    }
  }

  lemma NonNegativeChunk(p: nat, i: int, c: nat)
    requires c > 0 && p < i * c + c
    ensures i >= 0
  {
    NoMultipleBelow(c, i);
  }

  lemma CoveredHoldsByte(e: Extent, size: nat, c: nat, i: int)
    requires c > 0 && e.length > 0 && e.offset < size && Covers(e, size, c, i)
    ensures HoldsByteOf(e, size, c, i)
  {
    var end := Min(e.offset + e.length, size);
    var first, last := e.offset / c, (end - 1) / c;
    DivModIdentity(c, e.offset);
    DivModIdentity(c, end - 1);
    Multiples(first, i, c);
    Multiples(i, last, c);
    var p := if e.offset >= i * c then e.offset else i * c;
    assert InExtent(e, p, size) && i * c <= p < i * c + c;
  }

  lemma Multiples(a: nat, b: nat, c: nat)
    requires a <= b
    ensures a * c <= b * c
  {
  }

  /** The changed chunks are those in which a dirty extent has a byte of the disk. */
  lemma ChangedMeans(extents: seq<Extent>, size: nat, c: nat, i: int)
    requires c > 0 && Substantial(extents, size)
    ensures i in Changed(extents, size, c) <==> HoldDirtyByteOf(extents, size, c, i)
  {
    forall k | 0 <= k < |extents|
      ensures Covers(extents[k], size, c, i) <==> extents[k].dirty && HoldsByteOf(extents[k], size, c, i)
    {
      CoversIff(extents[k], size, c, i);
    }
  }

  /** A chunk no dirty extent covers is the same in both disks. */
  lemma UncoveredChunkUnchanged(extents: seq<Extent>, before: Bytes, after: Bytes, c: nat, i: nat)
    requires c > 0 && DirtyCovers(extents, before, after) && i < |Cut(after, c)|
    requires forall k | 0 <= k < |extents| :: !Covers(extents[k], |after|, c, i)
    ensures |Cut(before, c)| == |Cut(after, c)| && Cut(before, c)[i] == Cut(after, c)[i]
  {
    CutCount(before, c);
    CutCount(after, c);
    CutAt(before, c, i);
    CutAt(after, c, i);
    var lo, hi := i * c, Min(i * c + c, |after|);
    forall p | lo <= p < hi
      ensures before[p] == after[p]
    {
      if before[p] != after[p] {
        var k :| 0 <= k < |extents| && extents[k].dirty &&
                 extents[k].offset <= p < extents[k].offset + extents[k].length;
        DirtyByteCovered(extents[k], p, |after|, c, i);
        assert false;
      }
    }
    assert before[lo..hi] == after[lo..hi];
  }

  // ---- What an incremental read computes ----

  predicate Lost(chunks: Chunks, d: Digest)
  {
    d != ZERO && d !in chunks
  }

  /** The chunks read: the changed ones, and those of the base the store no longer has. */
  function ToRead(chunks: Chunks, base: seq<Digest>, changed: set<int>): set<int>
  {
    set i | 0 <= i < |base| && (i in changed || Lost(chunks, base[i]))
  }

  function Merged(digest: Bytes -> Digest, parts: seq<Bytes>, base: seq<Digest>, read: set<int>): (ds: seq<Digest>)
    requires |parts| == |base|
    ensures |ds| == |base|
  {
    seq(|base|, i requires 0 <= i < |base| => if i in read then NameOf(digest, parts[i]) else base[i])
  }

  /** The chunks an incremental read leaves alone but for a touch. */
  function Reused(base: seq<Digest>, read: set<int>): set<Digest>
  {
    set i | 0 <= i < |base| && i !in read && base[i] != ZERO :: base[i]
  }

  function Picked(parts: seq<Bytes>, order: seq<int>): (s: seq<Bytes>)
    ensures |s| == |order|
  {
    seq(|order|, k requires 0 <= k < |order| => if 0 <= order[k] < |parts| then parts[order[k]] else [])
  }

  /** The chunks after an incremental read: the reused ones touched, then the ones read put in order. */
  function IncrementallyStored(digest: Bytes -> Digest, chunks: Chunks, parts: seq<Bytes>, base: seq<Digest>,
      read: set<int>, now: real): Chunks
  {
    Stored(digest, Touched(chunks, Reused(base, read), now), Picked(parts, Ascending(read)), now)
  }

  /** The chunks read, each once named in `order`. */
  ghost predicate Orders(order: seq<int>, read: set<int>, count: nat)
  {
    (forall k | 0 <= k < |order| :: 0 <= order[k] < count) && (forall i :: i in order <==> i in read)
  }

  // ---- Incremental refines full ----

  /** With the base the index of the old disk and every difference dirty, the merged digests are those of a whole read
      of the new disk, whichever chunks of the base the store lost. */
  lemma MergedIsWhole(digest: Bytes -> Digest, chunks: Chunks, extents: seq<Extent>, before: Bytes, after: Bytes,
      c: nat, changed: set<int>)
    requires c > 0 && DirtyCovers(extents, before, after) && changed == Changed(extents, |after|, c)
    ensures |Cut(before, c)| == |Cut(after, c)|
    ensures var base := Names(digest, Cut(before, c));
            Merged(digest, Cut(after, c), base, ToRead(chunks, base, changed)) == Names(digest, Cut(after, c))
  {
    CutCount(before, c);
    CutCount(after, c);
    var base, parts := Names(digest, Cut(before, c)), Cut(after, c);
    var read := ToRead(chunks, base, changed);
    forall i | 0 <= i < |parts|
      ensures Merged(digest, parts, base, read)[i] == NameOf(digest, parts[i])
    {
      if i !in read {
        assert i !in changed;
        UncoveredChunkUnchanged(extents, before, after, c, i);
      }
    }
  }

  /** A name of the whole disk is a name read or a name reused. */
  lemma NamedSplits(digest: Bytes -> Digest, parts: seq<Bytes>, base: seq<Digest>, read: set<int>, order: seq<int>,
      d: Digest)
    requires |parts| == |base| && Merged(digest, parts, base, read) == Names(digest, parts)
    requires Orders(order, read, |parts|)
    requires d != ZERO
    ensures IsNamed(digest, parts, d) <==> d in Reused(base, read) || IsNamed(digest, Picked(parts, order), d)
  {
    if IsNamed(digest, parts, d) {
      var i :| 0 <= i < |parts| && NameOf(digest, parts[i]) == d;
      if i in read {
        assert i in order;
        var k :| 0 <= k < |order| && order[k] == i;
        assert Picked(parts, order)[k] == parts[i];
      } else {
        assert Merged(digest, parts, base, read)[i] == Names(digest, parts)[i];
        assert base[i] == d;
      }
    }
    if IsNamed(digest, Picked(parts, order), d) {
      var k :| 0 <= k < |order| && NameOf(digest, Picked(parts, order)[k]) == d;
      assert order[k] in order && NameOf(digest, parts[order[k]]) == d;
    }
    if d in Reused(base, read) {
      var i :| 0 <= i < |base| && i !in read && base[i] == d;
      assert Merged(digest, parts, base, read)[i] == Names(digest, parts)[i];
      assert NameOf(digest, parts[i]) == d;
    }
  }

  /** And the store is left chunk for chunk as a whole read leaves it. */
  lemma StoredIsWhole(digest: Bytes -> Digest, chunks: Chunks, parts: seq<Bytes>, base: seq<Digest>, read: set<int>,
                      order: seq<int>, now: real)
    requires NamesApart(digest) && |parts| == |base| && Merged(digest, parts, base, read) == Names(digest, parts)
    requires Orders(order, read, |parts|)
    requires forall i | 0 <= i < |base| && i !in read :: !Lost(chunks, base[i])
    ensures Stored(digest, Touched(chunks, Reused(base, read), now), Picked(parts, order), now) ==
              Stored(digest, chunks, parts, now)
  {
    var touched := Touched(chunks, Reused(base, read), now);
    var incremental, full := Stored(digest, touched, Picked(parts, order), now), Stored(digest, chunks, parts, now);
    forall d
      ensures d in incremental <==> d in full
      ensures d in incremental ==> incremental[d] == full[d]
    {
      StoredAt(digest, touched, Picked(parts, order), now, d);
      StoredAt(digest, chunks, parts, now, d);
      if d != ZERO {
        NamedSplits(digest, parts, base, read, order, d);
      }
      assert d in Reused(base, read) ==> d != ZERO && d in chunks;
      if d in incremental && d in full && incremental[d].content.Some? && full[d].content.Some? {
        assert Apart(digest, incremental[d].content.value, full[d].content.value);
      }
    }
  }

  /** Over a base that is the index of the old disk, with every differing byte in a dirty extent, an incremental read
      gives digest for digest the index a whole read of the new disk gives, and leaves the store as that read would. */
  lemma IncrementalRefinesFull(digest: Bytes -> Digest, chunks: Chunks, extents: seq<Extent>, before: Bytes,
      after: Bytes, c: nat, now: real)
    requires NamesApart(digest) && c > 0 && DirtyCovers(extents, before, after)
    ensures |Cut(before, c)| == |Cut(after, c)|
    ensures var base := IndexOf(digest, before, c).digests;
            var read := ToRead(chunks, base, Changed(extents, |after|, c));
            && IndexCodec.Index(|after|, c, Merged(digest, Cut(after, c), base, read)) == IndexOf(digest, after, c)
            && IncrementallyStored(digest, chunks, Cut(after, c), base, read, now) ==
                 Stored(digest, chunks, Cut(after, c), now)
  {
    var changed := Changed(extents, |after|, c);
    MergedIsWhole(digest, chunks, extents, before, after, c, changed);
    var base := IndexOf(digest, before, c).digests;
    var read := ToRead(chunks, base, changed);
    var order := Ascending(read);
    assert forall k | 0 <= k < |order| :: order[k] in order;
    StoredIsWhole(digest, chunks, Cut(after, c), base, read, order, now);
  }

  // ---- The readers ----

  datatype ReadError = EndedEarly | Larger | ReaderFailed

  ghost predicate Nonces(nonces: nat -> Bytes)
  {
    forall k :: |nonces(k)| == NONCE_SIZE
  }

  /** Every byte of an export of `size` bytes, cut into the store's chunks. `exited`: the reading process ended well.
      `peak`: the most chunks in flight. Whatever comes of it, the chunks read in whole are stored. */
  method ReadIntoStore(store: Store, stream: Bytes, size: nat, exited: bool, nonces: nat -> Bytes, now: real)
    returns (r: Result<IndexCodec.Index, ReadError>, peak: nat)
    requires Lawful(store.scheme) && 0 < store.chunkSize < 0x1_0000_0000 && Nonces(nonces)
    modifies store`files
    ensures r.Ok? <==> |stream| == size && exited
    ensures r.Err? ==>
              r.error == if |stream| < size then EndedEarly else if |stream| > size then Larger else ReaderFailed
    ensures r.Ok? ==> r.value == IndexOf(store.scheme.digest, stream, store.chunkSize)
    ensures var whole := stream[..Whole(|stream|, size, store.chunkSize)];
            store.Chunks() == Stored(store.scheme.digest, old(store.Chunks()), Cut(whole, store.chunkSize), now)
    ensures peak <= 2 * WORKERS + 1
  {
    var digests;
    digests, peak := StoreStream(store, stream, size, nonces, now);
    if |stream| < size {
      return Err(EndedEarly), peak;
    }
    if |stream| > size {
      return Err(Larger), peak;
    }
    assert stream[..size] == stream;
    r := if exited then Ok(IndexCodec.Index(size, store.chunkSize, digests)) else Err(ReaderFailed);
  }

  /** The chunks of the stream, stored in order up to `size` or to the first one that is not whole. */
  method StoreStream(store: Store, stream: Bytes, size: nat, nonces: nat -> Bytes, now: real)
    returns (digests: seq<Digest>, peak: nat)
    requires Lawful(store.scheme) && 0 < store.chunkSize < 0x1_0000_0000 && Nonces(nonces)
    modifies store`files
    ensures var sent := Cut(stream[..Whole(|stream|, size, store.chunkSize)], store.chunkSize);
            && digests == Names(store.scheme.digest, sent)
            && store.Chunks() == Stored(store.scheme.digest, old(store.Chunks()), sent, now)
    ensures peak <= 2 * WORKERS + 1
  {
    ghost var c, digest := store.chunkSize, store.scheme.digest;
    var pending: seq<Content> := [];
    ghost var sent: seq<Bytes> := [];
    var offset := 0;
    digests, peak := [], 0;
    while offset < size
      invariant offset <= size && offset <= |stream| && CutSoFar(stream, offset, size, c, sent)
      invariant Popped(digest, old(store.Chunks()), store.Chunks(), sent, digests, pending, now)
      invariant |pending| <= 2 * WORKERS && peak <= 2 * WORKERS + 1
    {
      ghost var before := sent;
      var content;
      content, offset, sent := ReadFull(stream, offset, size, store.chunkSize, sent);
      if content.None? {
        break;
      }
      peak := if |pending| + 1 > peak then |pending| + 1 else peak;
      digests, pending :=
        Send(store, old(store.Chunks()), before, digests, pending, content.value, nonces(|digests|), now);
    }
    assert offset == Whole(|stream|, size, c);
    digests := Flush(store, old(store.Chunks()), sent, digests, pending, nonces, now);
  }

  /** The contents sent to the pool: the first ones stored and their digests known, the others waiting in order. */
  ghost predicate Popped(digest: Bytes -> Digest, before: Chunks, current: Chunks, sent: seq<Bytes>,
      digests: seq<Digest>, pending: seq<Bytes>, now: real)
  {
    && |digests| + |pending| == |sent|
    && digests == Names(digest, sent[..|digests|])
    && pending == sent[|digests|..]
    && current == Stored(digest, before, sent[..|digests|], now)
  }

  lemma PushedStays(digest: Bytes -> Digest, before: Chunks, current: Chunks, sent: seq<Bytes>, digests: seq<Digest>,
                    pending: seq<Bytes>, content: Bytes, now: real)
    requires Popped(digest, before, current, sent, digests, pending, now)
    ensures Popped(digest, before, current, sent + [content], digests, pending + [content], now)
  {
    assert (sent + [content])[..|digests|] == sent[..|digests|];
  }

  lemma PoppedNext(digest: Bytes -> Digest, before: Chunks, current: Chunks, sent: seq<Bytes>, digests: seq<Digest>,
                   pending: seq<Bytes>, now: real)
    requires Popped(digest, before, current, sent, digests, pending, now) && pending != []
    ensures Popped(digest, before, PutChunk(digest, current, pending[0], now), sent,
                   digests + [NameOf(digest, pending[0])], pending[1..], now)
  {
    var n := |digests|;
    assert sent[n] == pending[0];
    assert sent[..n + 1][..n] == sent[..n] && sent[..n + 1][n] == sent[n];
  }

  /** What was sent is the disk's chunks up to `offset`. */
  ghost predicate CutSoFar(stream: Bytes, offset: nat, size: nat, c: nat, sent: seq<Bytes>)
    requires c > 0 && offset <= |stream|
  {
    sent == Cut(stream[..offset], c) && (offset < size ==> Aligned(offset, c))
  }

  /** The next chunk of the stream, or none when it ends before. */
  method ReadFull(stream: Bytes, offset: nat, size: nat, c: nat, ghost sent: seq<Bytes>)
    returns (r: Option<Content>, next: nat, ghost more: seq<Bytes>)
    requires 0 < c < 0x1_0000_0000 && offset < size && offset <= |stream| && CutSoFar(stream, offset, size, c, sent)
    ensures r.None? ==> |stream| < size && next == offset == Whole(|stream|, size, c) && more == sent
    ensures r.Some? ==> offset < next <= size && next <= |stream| && r.value == stream[offset..next]
    ensures r.Some? ==> more == sent + [r.value] && CutSoFar(stream, next, size, c, more)
  {
    var length := Min(c, size - offset);
    next, more := offset + length, sent;
    if |stream| < next {
      InChunksIs(|stream|, offset, c);
      return None, offset, more;
    }
    r := Some(stream[offset..next]);
    more := sent + [r.value];
    assert stream[..offset] + r.value == stream[..next];
    CutAppend(stream[..offset], r.value, c);
    assert next < size ==> Aligned(offset + c, c);
  }

  /** The oldest future's result. */
  method PutFirst(store: Store, ghost before: Chunks, ghost sent: seq<Bytes>, digests: seq<Digest>,
      pending: seq<Content>, nonce: Bytes, now: real)
    returns (more: seq<Digest>, rest: seq<Content>)
    requires Lawful(store.scheme) && |nonce| == NONCE_SIZE && pending != []
    requires Popped(store.scheme.digest, before, store.Chunks(), sent, digests, pending, now)
    modifies store`files
    ensures Popped(store.scheme.digest, before, store.Chunks(), sent, more, rest, now)
    ensures |rest| == |pending| - 1 && |more| == |digests| + 1
  {
    PoppedNext(store.scheme.digest, before, store.Chunks(), sent, digests, pending, now);
    var d := store.Put(pending[0], nonce, now);
    more, rest := digests + [d], pending[1..];
  }

  /** One more future; the oldest one is waited for when more than 2 * WORKERS are in flight. */
  method Send(store: Store, ghost before: Chunks, ghost sent: seq<Bytes>, digests: seq<Digest>, pending: seq<Content>,
              content: Content, nonce: Bytes, now: real)
    returns (more: seq<Digest>, rest: seq<Content>)
    requires Lawful(store.scheme) && |nonce| == NONCE_SIZE && |pending| <= 2 * WORKERS
    requires Popped(store.scheme.digest, before, store.Chunks(), sent, digests, pending, now)
    modifies store`files
    ensures Popped(store.scheme.digest, before, store.Chunks(), sent + [content], more, rest, now)
    ensures |rest| <= 2 * WORKERS && |digests| <= |more|
  {
    PushedStays(store.scheme.digest, before, store.Chunks(), sent, digests, pending, content, now);
    more, rest := digests, pending + [content];
    if |rest| > 2 * WORKERS {
      more, rest := PutFirst(store, before, sent + [content], more, rest, nonce, now);
    }
  }

  /** The futures left, in order. */
  method Flush(store: Store, ghost before: Chunks, ghost sent: seq<Bytes>, digests: seq<Digest>, pending: seq<Content>,
               nonces: nat -> Bytes, now: real)
    returns (all: seq<Digest>)
    requires Lawful(store.scheme) && Nonces(nonces)
    requires Popped(store.scheme.digest, before, store.Chunks(), sent, digests, pending, now)
    modifies store`files
    ensures all == Names(store.scheme.digest, sent)
    ensures store.Chunks() == Stored(store.scheme.digest, before, sent, now)
  {
    var rest := pending;
    all := digests;
    while rest != []
      invariant Popped(store.scheme.digest, before, store.Chunks(), sent, all, rest, now)
      decreases |rest|
    {
      all, rest := PutFirst(store, before, sent, all, rest, nonces(|all|), now);
    }
    assert sent[..|sent|] == sent;
  }

  /** The chunks of the base that are kept are touched; the ones the store lost join those to read. */
  method TouchBase(store: Store, base: seq<Digest>, changed: set<int>, now: real) returns (toRead: set<int>)
    requires forall i | i in changed :: 0 <= i < |base|
    modifies store`files
    ensures toRead == ToRead(old(store.Chunks()), base, changed)
    ensures store.Chunks() == Touched(old(store.Chunks()), Reused(base, toRead), now)
  {
    toRead := changed;
    ghost var before := store.Chunks();
    ghost var read := ToRead(before, base, changed);
    ghost var kept: set<Digest> := {};
    for i := 0 to |base|
      invariant forall j :: j in toRead <==> j in changed || (j in read && j < i)
      invariant kept == Reused(base[..i], read)
      invariant store.Chunks() == Touched(before, kept, now)
    {
      ReusedNext(base, read, i);
      if i !in toRead {
        TouchedOne(before, kept, base[i], now);
        var found := store.Touch(base[i], now);
        if !found {
          toRead := toRead + {i};
        } else if base[i] != ZERO {
          kept := kept + {base[i]};
        }
      }
    }
    assert base[..|base|] == base;
    assert toRead == read;
  }

  lemma ReusedNext(base: seq<Digest>, read: set<int>, i: nat)
    requires i < |base|
    ensures Reused(base[..i + 1], read) ==
              if i !in read && base[i] != ZERO then Reused(base[..i], read) + {base[i]} else Reused(base[..i], read)
  {
    var a, b := base[..i], base[..i + 1];
    forall d
      ensures d in Reused(b, read) <==> d in Reused(a, read) || (i !in read && base[i] != ZERO && d == base[i])
    {
      if d in Reused(b, read) {
        var j :| 0 <= j < i + 1 && j !in read && b[j] == d;
        assert j < i ==> a[j] == d;
      }
      if d in Reused(a, read) {
        var j :| 0 <= j < i && j !in read && a[j] == d;
        assert b[j] == d;
      }
      assert b[i] == base[i];
    }
  }

  lemma TouchedOne(chunks: Chunks, names: set<Digest>, d: Digest, now: real)
    ensures TouchChunk(Touched(chunks, names, now), d, now) ==
              if d != ZERO && d in chunks then Touched(chunks, names + {d}, now) else Touched(chunks, names, now)
  {
  }

  /** The bytes of one range of the export. */
  method ReadRange(disk: Bytes, c: nat, i: nat) returns (content: Content)
    requires 0 < c < 0x1_0000_0000 && i < |Cut(disk, c)|
    ensures content == Cut(disk, c)[i]
  {
    CutAt(disk, c, i);
    content := disk[i * c..Min(i * c + c, |disk|)];
  }

  /** The results known so far, put at their places. */
  ghost predicate Placed(digest: Bytes -> Digest, parts: seq<Bytes>, base: seq<Digest>, order: seq<int>, n: nat,
                         digests: seq<Digest>)
  {
    && |digests| == |base| == |parts| && n <= |order|
    && (forall k | 0 <= k < |order| :: 0 <= order[k] < |parts|)
    && forall i | 0 <= i < |base| ::
         digests[i] == if i in order[..n] then NameOf(digest, parts[i]) else base[i]
  }

  lemma PlacedNext(digest: Bytes -> Digest, parts: seq<Bytes>, base: seq<Digest>, order: seq<int>, n: nat,
      digests: seq<Digest>)
    requires n < |order| && Placed(digest, parts, base, order, n, digests)
    ensures Placed(digest, parts, base, order, n + 1, digests[order[n] := NameOf(digest, parts[order[n]])])
  {
    assert order[..n + 1] == order[..n] + [order[n]];
  }

  method Place(ghost digest: Bytes -> Digest, ghost parts: seq<Bytes>, ghost base: seq<Digest>, order: seq<int>,
      from: nat, digests: seq<Digest>, results: seq<Digest>)
    returns (placed: seq<Digest>)
    requires from <= |results| <= |order| && Placed(digest, parts, base, order, from, digests)
    requires results == Names(digest, Picked(parts, order)[..|results|])
    ensures Placed(digest, parts, base, order, |results|, placed)
  {
    placed := digests;
    for n := from to |results|
      invariant Placed(digest, parts, base, order, n, placed)
    {
      PlacedNext(digest, parts, base, order, n, placed);
      assert results[n] == NameOf(digest, Picked(parts, order)[..|results|][n]);
      placed := placed[order[n] := results[n]];
    }
  }

  ghost predicate Progress(digest: Bytes -> Digest, before: Chunks, chunks: Chunks, parts: seq<Bytes>,
      base: seq<Digest>, order: seq<int>, k: nat, results: seq<Digest>, pending: seq<Bytes>, digests: seq<Digest>,
                           now: real)
  {
    && k <= |order|
    && Popped(digest, before, chunks, Picked(parts, order)[..k], results, pending, now)
    && Placed(digest, parts, base, order, |results|, digests)
  }

  /** One range read and sent; the results that came are put at their places. */
  method SendRange(store: Store, ghost before: Chunks, disk: Bytes, ghost base: seq<Digest>, order: seq<int>, k: nat,
                   results: seq<Digest>, pending: seq<Content>, digests: seq<Digest>, nonce: Bytes, now: real)
    returns (results': seq<Digest>, pending': seq<Content>, digests': seq<Digest>)
    requires Lawful(store.scheme) && 0 < store.chunkSize < 0x1_0000_0000 && |nonce| == NONCE_SIZE
    requires k < |order| && |pending| <= 2 * WORKERS
    requires Progress(store.scheme.digest, before, store.Chunks(), Cut(disk, store.chunkSize), base, order, k, results,
                      pending, digests, now)
    modifies store`files
    ensures Progress(store.scheme.digest, before, store.Chunks(), Cut(disk, store.chunkSize), base, order, k + 1,
                     results', pending', digests', now)
    ensures |pending'| <= 2 * WORKERS
  {
    ghost var parts := Cut(disk, store.chunkSize);
    ghost var picked := Picked(parts, order);
    var content := ReadRange(disk, store.chunkSize, order[k]);
    results', pending' := Send(store, before, picked[..k], results, pending, content, nonce, now);
    PickedNext(parts, order, k);
    PrefixNames(store.scheme.digest, picked, k + 1, |results'|);
    digests' := Place(store.scheme.digest, parts, base, order, |results|, digests, results');
  }

  /** The ranges of `order` read, stored and put at their places in the list of digests. `available`: how many the
      stream holds in whole; those are stored, and with fewer than asked for the read fails. */
  method StoreRanges(store: Store, disk: Bytes, base: seq<Digest>, order: seq<int>, available: nat,
                     nonces: nat -> Bytes, now: real)
    returns (r: Result<seq<Digest>, ReadError>, peak: nat)
    requires Lawful(store.scheme) && 0 < store.chunkSize < 0x1_0000_0000 && Nonces(nonces)
    requires |Cut(disk, store.chunkSize)| == |base|
    requires forall k | 0 <= k < |order| :: 0 <= order[k] < |base|
    modifies store`files
    ensures r.Ok? <==> |order| <= available
    ensures r.Err? ==> r.error == EndedEarly
    ensures r.Ok? ==> Placed(store.scheme.digest, Cut(disk, store.chunkSize), base, order, |order|, r.value)
    ensures var picked := Picked(Cut(disk, store.chunkSize), order)[..Min(available, |order|)];
            store.Chunks() == Stored(store.scheme.digest, old(store.Chunks()), picked, now)
    ensures peak <= 2 * WORKERS + 1
  {
    ghost var parts := Cut(disk, store.chunkSize);
    ghost var digest := store.scheme.digest;
    ghost var before := store.Chunks();
    ghost var picked := Picked(parts, order);
    var results: seq<Digest>, pending: seq<Content> := [], [];
    var digests := base;
    peak := 0;
    for k := 0 to |order|
      invariant k <= available
      invariant Progress(digest, before, store.Chunks(), parts, base, order, k, results, pending, digests, now)
      invariant |pending| <= 2 * WORKERS && peak <= 2 * WORKERS + 1
    {
      if k == available {
        results := Flush(store, before, picked[..k], results, pending, nonces, now);
        return Err(EndedEarly), peak;
      }
      peak := if |pending| + 1 > peak then |pending| + 1 else peak;
      results, pending, digests :=
        SendRange(store, before, disk, base, order, k, results, pending, digests, nonces(|results|), now);
    }
    assert picked[..|order|] == picked;
    var known := |results|;
    results := Flush(store, before, picked, results, pending, nonces, now);
    assert picked[..|results|] == picked;
    digests := Place(digest, parts, base, order, known, digests, results);
    r := Ok(digests);
  }

  lemma PickedNext(parts: seq<Bytes>, order: seq<int>, k: nat)
    requires k < |order| && 0 <= order[k] < |parts|
    ensures Picked(parts, order)[..k + 1] == Picked(parts, order)[..k] + [parts[order[k]]]
  {
  }

  lemma PlacedAll(digest: Bytes -> Digest, parts: seq<Bytes>, base: seq<Digest>, order: seq<int>, read: set<int>,
                  digests: seq<Digest>)
    requires Placed(digest, parts, base, order, |order|, digests) && forall i :: i in order <==> i in read
    ensures digests == Merged(digest, parts, base, read)
  {
    assert order[..|order|] == order;
  }

  /** An index over `base`: the chunks in `changed` and those the store lost are read and stored, the others taken
      from the base. `read`: how many were to be read; `available`: how many the stream holds; `exited`: the reading
      process ended well. */
  method ReadChangedIntoStore(store: Store, disk: Bytes, base: IndexCodec.Index, changed: set<int>, available: nat,
                              exited: bool, nonces: nat -> Bytes, now: real)
    returns (r: Result<IndexCodec.Index, ReadError>, read: nat, peak: nat)
    requires Lawful(store.scheme) && 0 < store.chunkSize < 0x1_0000_0000 && Nonces(nonces)
    requires base.chunkSize == store.chunkSize && base.size == |disk|
    requires |base.digests| == |Cut(disk, store.chunkSize)|
    requires forall i | i in changed :: 0 <= i < |base.digests|
    modifies store`files
    ensures read == |ToRead(old(store.Chunks()), base.digests, changed)|
    ensures r.Ok? <==> read <= available && exited
    ensures r.Err? ==> r.error == if available < read then EndedEarly else ReaderFailed
    ensures r.Ok? ==> r.value == IndexCodec.Index(|disk|, store.chunkSize,
                       Merged(store.scheme.digest, Cut(disk, store.chunkSize), base.digests,
                              ToRead(old(store.Chunks()), base.digests, changed)))
    ensures read <= available ==>
              var toRead := ToRead(old(store.Chunks()), base.digests, changed);
              var parts := Cut(disk, store.chunkSize);
              store.Chunks() ==
                IncrementallyStored(store.scheme.digest, old(store.Chunks()), parts, base.digests, toRead, now)
    ensures available < read ==>
              var toRead := ToRead(old(store.Chunks()), base.digests, changed);
              var touched := Touched(old(store.Chunks()), Reused(base.digests, toRead), now);
              var picked := Picked(Cut(disk, store.chunkSize), Ascending(toRead))[..available];
              store.Chunks() == Stored(store.scheme.digest, touched, picked, now)
    ensures peak <= 2 * WORKERS + 1
  {
    var toRead := TouchBase(store, base.digests, changed, now);
    var order := Ascending(toRead);
    assert forall k | 0 <= k < |order| :: order[k] in order;
    ghost var picked := Picked(Cut(disk, store.chunkSize), order);
    assert picked[..|order|] == picked;
    read := |order|;
    var stored;
    stored, peak := StoreRanges(store, disk, base.digests, order, available, nonces, now);
    if stored.Err? {
      return Err(EndedEarly), read, peak;
    }
    PlacedAll(store.scheme.digest, Cut(disk, store.chunkSize), base.digests, order, toRead, stored.value);
    r := if exited then Ok(IndexCodec.Index(|disk|, store.chunkSize, stored.value)) else Err(ReaderFailed);
  }

  lemma PrefixNames(digest: Bytes -> Digest, picked: seq<Bytes>, k: nat, n: nat)
    requires n <= k <= |picked|
    ensures Names(digest, picked[..k][..n]) == Names(digest, picked[..n])
  {
    assert picked[..k][..n] == picked[..n];
  }
}
