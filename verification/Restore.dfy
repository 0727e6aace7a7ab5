/**
Restoring a disk: chunks fetched ahead by a bounded number of futures and written in disk order, or written at their
offsets into a file of zeros; and the repair of damaged chunks.
*/
module Restore {
  import opened Wrappers
  import opened StoreSettings
  import opened Bytes
  import opened ChunkCodec
  import opened ChunkStore
  import opened BackupStore
  import opened DiskCut
  import IndexCodec

  type Piece = Result<Bytes, ChunkError>

  function Prepend(piece: Piece, tail: Piece): Piece
  {
    if piece.Err? then piece else if tail.Err? then tail else Ok(piece.value + tail.value)
  }

  /** What the restore comes to: the bytes written, then the pieces waiting, then the rest. */
  function Then(written: Bytes, pending: seq<Piece>, tail: Piece): Piece
    decreases |pending|
  {
    if pending == [] then Prepend(Ok(written), tail)
    else if pending[0].Err? then pending[0]
    else Then(written + pending[0].value, pending[1..], tail)
  }

  lemma {:induction false} ThenPush(written: Bytes, pending: seq<Piece>, piece: Piece, tail: Piece)
    ensures Then(written, pending + [piece], tail) == Then(written, pending, Prepend(piece, tail))
    decreases |pending|
  {
    if pending == [] {
      assert pending + [piece] == [piece] && [piece][1..] == [];
      if piece.Ok? && tail.Ok? {
        assert written + (piece.value + tail.value) == written + piece.value + tail.value;
      }
    } else {
      assert (pending + [piece])[1..] == pending[1..] + [piece];
      if pending[0].Ok? {
        ThenPush(written + pending[0].value, pending[1..], piece, tail);
      }
    }
  }

  lemma ReadAllNext(chunks: Chunks, digests: seq<Digest>, i: nat, c: nat, left: nat)
    requires i < |digests|
    ensures ReadAll(chunks, digests[i..], c, left) ==
              Prepend(GetChunk(chunks, digests[i], Min(c, left)),
                      ReadAll(chunks, digests[i + 1..], c, left - Min(c, left)))
  {
    assert digests[i..][1..] == digests[i + 1..];
  }

  /** The futures popped when more than 2 * WORKERS wait, all of them after the last one. Every byte comes in disk
      order; the first chunk that cannot be read, in that order, stops the restore. */
  method RestoreDisk(store: Store, index: IndexCodec.Index) returns (r: Piece, peak: nat)
    ensures r == ReadIndex(store.Chunks(), index)
    ensures peak <= 2 * WORKERS + 1
  {
    ghost var chunks := store.Chunks();
    var digests, c, left: nat := index.digests, index.chunkSize, index.size;
    var written: Bytes, pending: seq<Piece> := [], [];
    peak := 0;
    ghost var whole := ReadIndex(chunks, index);
    assert digests[0..] == digests && (whole.Ok? ==> [] + whole.value == whole.value);
    for i := 0 to |digests|
      invariant store.Chunks() == chunks
      invariant Then(written, pending, ReadAll(chunks, digests[i..], c, left)) == ReadIndex(chunks, index)
      invariant |pending| <= 2 * WORKERS && (i == |digests| ==> pending == [])
      invariant peak <= 2 * WORKERS + 1
    {
      var piece := store.Get(digests[i], Min(c, left));
      ReadAllNext(chunks, digests, i, c, left);
      ThenPush(written, pending, piece, ReadAll(chunks, digests[i + 1..], c, left - Min(c, left)));
      pending, left := pending + [piece], left - Min(c, left);
      peak := if |pending| > peak then |pending| else peak;
      while |pending| > 2 * WORKERS || (pending != [] && i == |digests| - 1)
        invariant Then(written, pending, ReadAll(chunks, digests[i + 1..], c, left)) == ReadIndex(chunks, index)
        decreases |pending|
      {
        if pending[0].Err? {
          return pending[0], peak;
        }
        written, pending := written + pending[0].value, pending[1..];
      }
    }
    assert digests[|digests|..] == [];
    assert written + [] == written;
    r := Ok(written);
  }

  // ---- A sparse raw image ----

  /** The file up to chunk `i` is the disk, and zeros beyond. */
  ghost predicate WrittenTo(file: seq<byte>, disk: Bytes, at: nat)
  {
    && |file| == |disk|
    && (forall p | 0 <= p < |disk| && p < at :: file[p] == disk[p])
    && (forall p | at <= p < |disk| :: file[p] == 0)
  }

  lemma ZeroChunkWritten(file: seq<byte>, disk: Bytes, at: nat, to: nat)
    requires WrittenTo(file, disk, at) && at <= to <= |disk| && AllZero(disk[at..to])
    ensures WrittenTo(file, disk, to)
  {
    forall p | at <= p < to
      ensures disk[p] == 0
    {
      assert disk[p] == disk[at..to][p - at];
    }
  }

  lemma NextOffset(i: nat, c: nat)
    ensures (i + 1) * c == i * c + c
  {
  }

  lemma {:induction false} OffsetOf(disk: Bytes, c: nat, i: nat)
    requires c > 0 && i <= |Cut(disk, c)|
    ensures i < |Cut(disk, c)| ==> i * c < |disk| && Min(i * c + c, |disk|) == Min((i + 1) * c, |disk|)
    ensures i == |Cut(disk, c)| ==> |disk| <= i * c
    decreases i
  {
    if i < |Cut(disk, c)| {
      CutAt(disk, c, i);
      NextOffset(i, c);
    } else if i > 0 {
      var m := Min(c, |disk|);
      OffsetOf(disk[m..], c, i - 1);
      NextOffset(i - 1, c);
    }
  }

  ghost predicate IsIndexOf(store: Store, index: IndexCodec.Index, disk: Bytes)
  {
    && NamesApart(store.scheme.digest) && index.chunkSize > 0
    && index == IndexOf(store.scheme.digest, disk, index.chunkSize)
  }

  method WriteChunk(store: Store, index: IndexCodec.Index, i: nat, file: array<byte>, ghost disk: Bytes)
    returns (r: Result<(), ChunkError>)
    requires IsIndexOf(store, index, disk) && i < |index.digests|
    requires WrittenTo(file[..], disk, Min(i * index.chunkSize, |disk|))
    modifies file
    ensures r.Ok? <==> Readable(store.Chunks(), index.digests[i])
    ensures r.Ok? ==> WrittenTo(file[..], disk, Min((i + 1) * index.chunkSize, |disk|))
  {
    ghost var digest := store.scheme.digest;
    var c, d := index.chunkSize, index.digests[i];
    ghost var part := Cut(disk, c)[i];
    CutAt(disk, c, i);
    OffsetOf(disk, c, i);
    var offset := i * c;
    if d == ZERO {
      assert AllZero(part);
      ZeroChunkWritten(file[..], disk, offset, Min(offset + c, |disk|));
      return Ok(());
    }
    ViewIsSound(store.scheme, store.files);
    GetByName(digest, store.Chunks(), part);
    var content := store.Get(d, Min(c, index.size - offset));
    if content.Err? {
      return Err(content.error);
    }
    ChunkWritten(file[..], disk, offset, part);
    WriteAt(file, offset, content.value);
    r := Ok(());
  }

  lemma ChunkWritten(file: seq<byte>, disk: Bytes, at: nat, part: Bytes)
    requires WrittenTo(file, disk, at) && at + |part| <= |disk| && disk[at..at + |part|] == part
    ensures WrittenTo(file[..at] + part + file[at + |part|..], disk, at + |part|)
  {
    forall p | at <= p < at + |part|
      ensures part[p - at] == disk[p]
    {
      assert disk[at..at + |part|][p - at] == disk[p];
    }
  }

  /** The zero chunks are left as holes, the others written at their offsets. Whatever the state of the chunk files, the
      image is the disk's own bytes or the restore fails, and it succeeds exactly when every chunk can be read. */
  method WriteRaw(store: Store, index: IndexCodec.Index, ghost disk: Bytes) returns (r: Result<array<byte>, ChunkError>)
    requires IsIndexOf(store, index, disk)
    ensures r.Ok? <==> Complete(store.Chunks(), index.digests)
    ensures r.Ok? ==> fresh(r.value) && r.value[..] == disk
  {
    var file := new byte[index.size](_ => 0);
    ghost var chunks := store.Chunks();
    assert 0 * index.chunkSize == 0;
    for i := 0 to |index.digests|
      invariant store.Chunks() == chunks && WrittenTo(file[..], disk, Min(i * index.chunkSize, |disk|))
      invariant forall j | 0 <= j < i :: Readable(chunks, index.digests[j])
    {
      var one := WriteChunk(store, index, i, file, disk);
      if one.Err? {
        return Err(one.error);
      }
    }
    OffsetOf(disk, index.chunkSize, |index.digests|);
    assert file[..] == disk;
    r := Ok(file);
  }

  /** seek, then write. */
  method WriteAt(file: array<byte>, offset: nat, content: Bytes)
    requires offset + |content| <= file.Length
    modifies file
    ensures file[..] == old(file[..offset]) + content + old(file[offset + |content|..])
  {
    forall k | 0 <= k < |content| {
      file[offset + k] := content[k];
    }
  }

  // ---- Damage and repair ----

  /** A put makes its chunk readable exactly when no damaged file stands at its path: a damaged chunk left in place is
      only touched. */
  lemma PutRepairsWhenAside(digest: Bytes -> Digest, chunks: Chunks, content: Bytes, now: real)
    ensures var d := NameOf(digest, content);
            var after := PutChunk(digest, chunks, content, now);
            Readable(after, d) <==> d == ZERO || d !in chunks || chunks[d].content.Some?
  {
  }

  /** A damaged chunk alone in its store: the put of its own content leaves it damaged, and touched. */
  lemma DamagedChunkIsOnlyTouched(digest: Bytes -> Digest, at: real, now: real)
    requires NamesApart(digest)
    ensures var d := NameOf(digest, [1]);
            var after := PutChunk(digest, map[d := Chunk(None, at)], [1], now);
            after == map[d := Chunk(None, now)] && !Readable(after, d)
  {
    assert !AllZero([1]) by {
      assert [1 as byte][0] != 0;
    }
  }

  /** Once verification set a damaged chunk aside, with any others that are damaged, one put of its content repairs, at
      once, every backup that named it: a disk reads back exactly when each of its chunks was readable or is the one
      put. */
  lemma OnePutRepairsEveryDisk(
    s: Scheme, files: map<Digest, File>, gone: set<Digest>, content: Bytes, disk: Bytes, c: nat, now: real)
    requires NamesApart(s.digest) && c > 0
    requires NameOf(s.digest, content) in gone && gone <= Unsound(s, files)
    ensures var aside := View(s, files - gone);
            var repaired := PutChunk(s.digest, aside, content, now);
            var index := IndexOf(s.digest, disk, c);
            ReadIndex(repaired, index) == Ok(disk) <==>
              forall i | 0 <= i < |index.digests| ::
                Readable(View(s, files), index.digests[i]) || index.digests[i] == NameOf(s.digest, content)
  {
    var aside := View(s, files - gone);
    var repaired := PutChunk(s.digest, aside, content, now);
    var index := IndexOf(s.digest, disk, c);
    ViewIsSound(s, files - gone);
    assert Sound(s.digest, repaired);
    ReadIndexOf(s.digest, repaired, disk, c);
    forall d
      ensures Readable(repaired, d) <==> Readable(View(s, files), d) || d == NameOf(s.digest, content)
    {
    }
  }
}
