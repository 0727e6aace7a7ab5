/**
What a store holds, seen from its readers: each chunk's content (none when its file does not decode) and its access
time. Disks are cut into fixed-size chunks named by their digest; an index of digests is a whole disk.
*/
module ChunkStore {
  import opened Wrappers
  import opened StoreSettings
  import opened Bytes
  import opened ChunkCodec
  import opened IndexCodec

  datatype Chunk = Chunk(content: Option<Bytes>, atime: real)
  type Chunks = map<Digest, Chunk>

  datatype ChunkError = Missing | Damaged

  predicate AllZero(c: Bytes)
  {
    forall i | 0 <= i < |c| :: c[i] == 0
  }

  /** A chunk of zeros is never stored: its index entry is ZERO. */
  function NameOf(digest: Bytes -> Digest, content: Bytes): Digest
  {
    if AllZero(content) then ZERO else digest(content)
  }

  /** Every chunk that decodes has the content its name says. */
  ghost predicate Sound(digest: Bytes -> Digest, chunks: Chunks)
  {
    forall d | d in chunks && chunks[d].content.Some? :: digest(chunks[d].content.value) == d
  }

  // ---- Chunks ----

  /** A chunk already held is only touched, even one that does not decode. */
  function PutChunk(digest: Bytes -> Digest, chunks: Chunks, content: Bytes, now: real): Chunks
  {
    var d := NameOf(digest, content);
    if d == ZERO then chunks
    else if d in chunks then chunks[d := chunks[d].(atime := now)]
    else chunks[d := Chunk(Some(content), now)]
  }

  function TouchChunk(chunks: Chunks, d: Digest, now: real): Chunks
  {
    if d != ZERO && d in chunks then chunks[d := chunks[d].(atime := now)] else chunks
  }

  function GetChunk(chunks: Chunks, d: Digest, size: nat): Result<Bytes, ChunkError>
  {
    if d == ZERO then Ok(ZeroBytes(size))
    else if d !in chunks then Err(Missing)
    else if chunks[d].content.None? then Err(Damaged)
    else Ok(chunks[d].content.value)
  }

  /** The chunks after each content is put in turn. */
  function Stored(digest: Bytes -> Digest, chunks: Chunks, contents: seq<Bytes>, now: real): Chunks
  {
    if contents == [] then chunks
    else
      var n := |contents| - 1;
      PutChunk(digest, Stored(digest, chunks, contents[..n], now), contents[n], now)
  }

  // ---- Disks ----

  function Min(a: nat, b: nat): nat
  {
    if a < b then a else b
  }

  function Cut(disk: Bytes, chunkSize: nat): (parts: seq<Bytes>)
    requires chunkSize > 0
    ensures forall i | 0 <= i < |parts| :: 0 < |parts[i]| <= chunkSize
    decreases |disk|
  {
    if disk == [] then []
    else
      var m := Min(chunkSize, |disk|);
      [disk[..m]] + Cut(disk[m..], chunkSize)
  }

  function Names(digest: Bytes -> Digest, contents: seq<Bytes>): (ds: seq<Digest>)
    ensures |ds| == |contents|
  {
    seq(|contents|, i requires 0 <= i < |contents| => NameOf(digest, contents[i]))
  }

  /** The index of a disk read whole. */
  function IndexOf(digest: Bytes -> Digest, disk: Bytes, chunkSize: nat): Index
    requires chunkSize > 0
  {
    Index(|disk|, chunkSize, Names(digest, Cut(disk, chunkSize)))
  }

  /** The bytes of `size` bytes of disk under these digests, in order, or the first chunk that cannot be read. */
  function ReadAll(chunks: Chunks, digests: seq<Digest>, chunkSize: nat, size: nat): Result<Bytes, ChunkError>
  {
    if digests == [] then Ok([])
    else
      var m := Min(chunkSize, size);
      match GetChunk(chunks, digests[0], m)
      case Err(e) => Err(e)
      case Ok(head) =>
        match ReadAll(chunks, digests[1..], chunkSize, size - m)
        case Err(e) => Err(e)
        case Ok(tail) => Ok(head + tail)
  }

  function ReadIndex(chunks: Chunks, index: Index): Result<Bytes, ChunkError>
  {
    ReadAll(chunks, index.digests, index.chunkSize, index.size)
  }

  predicate Readable(chunks: Chunks, d: Digest)
  {
    d == ZERO || (d in chunks && chunks[d].content.Some?)
  }

  predicate Complete(chunks: Chunks, digests: seq<Digest>)
  {
    forall i | 0 <= i < |digests| :: Readable(chunks, digests[i])
  }

  // ---- Reading back ----

  lemma ZerosAreEqual(c: Bytes)
    requires AllZero(c)
    ensures c == ZeroBytes(|c|)
  {
  }

  lemma GetByName(digest: Bytes -> Digest, chunks: Chunks, content: Bytes)
    requires NamesApart(digest) && Sound(digest, chunks)
    ensures var r := GetChunk(chunks, NameOf(digest, content), |content|);
            (r.Ok? ==> r.value == content) && (r.Ok? <==> Readable(chunks, NameOf(digest, content)))
  {
    if AllZero(content) {
      ZerosAreEqual(content);
    } else {
      var d := digest(content);
      assert Readable(chunks, d) ==> Apart(digest, content, chunks[d].content.value);
    }
  }

  lemma NamesOfCut(digest: Bytes -> Digest, disk: Bytes, chunkSize: nat)
    requires chunkSize > 0 && disk != []
    ensures var m := Min(chunkSize, |disk|);
            Names(digest, Cut(disk, chunkSize)) ==
              [NameOf(digest, disk[..m])] + Names(digest, Cut(disk[m..], chunkSize))
  {
  }

  lemma CompleteCons(chunks: Chunks, d: Digest, ds: seq<Digest>)
    ensures Complete(chunks, [d] + ds) <==> Readable(chunks, d) && Complete(chunks, ds)
  {
    var all := [d] + ds;
    assert forall i | 0 <= i < |ds| :: ds[i] == all[i + 1];
    assert all[0] == d;
  }

  /** Reading these chunks gives the disk, exactly when they can all be read. */
  ghost predicate ReadsBack(chunks: Chunks, ds: seq<Digest>, chunkSize: nat, disk: Bytes)
  {
    var r := ReadAll(chunks, ds, chunkSize, |disk|);
    (r.Ok? ==> r.value == disk) && (r.Ok? <==> Complete(chunks, ds))
  }

  lemma ReadsBackWith(chunks: Chunks, d: Digest, rest: seq<Digest>, chunkSize: nat, disk: Bytes, m: nat)
    requires m == Min(chunkSize, |disk|) && ReadsBack(chunks, rest, chunkSize, disk[m..])
    requires var head := GetChunk(chunks, d, m);
      (head.Ok? <==> Readable(chunks, d)) && (head.Ok? ==> head.value == disk[..m])
    ensures ReadsBack(chunks, [d] + rest, chunkSize, disk)
  {
    CompleteCons(chunks, d, rest);
    ReadFirst(chunks, d, rest, chunkSize, |disk|);
    assert disk == disk[..m] + disk[m..];
  }

  lemma {:induction false} ReadAllOfNames(digest: Bytes -> Digest, chunks: Chunks, disk: Bytes, chunkSize: nat)
    requires NamesApart(digest) && Sound(digest, chunks) && chunkSize > 0
    ensures ReadsBack(chunks, Names(digest, Cut(disk, chunkSize)), chunkSize, disk)
    decreases |disk|
  {
    if disk != [] {
      var m := Min(chunkSize, |disk|);
      var d, rest := NameOf(digest, disk[..m]), Names(digest, Cut(disk[m..], chunkSize));
      NamesOfCut(digest, disk, chunkSize);
      GetByName(digest, chunks, disk[..m]);
      ReadAllOfNames(digest, chunks, disk[m..], chunkSize);
      ReadsBackWith(chunks, d, rest, chunkSize, disk, m);
    }
  }

  lemma ReadFirst(chunks: Chunks, d: Digest, rest: seq<Digest>, chunkSize: nat, size: nat)
    ensures var m := Min(chunkSize, size);
            var head, tail := GetChunk(chunks, d, m), ReadAll(chunks, rest, chunkSize, size - m);
            var r := ReadAll(chunks, [d] + rest, chunkSize, size);
            (r.Ok? <==> head.Ok? && tail.Ok?) && (r.Ok? ==> r.value == head.value + tail.value)
  {
    assert ([d] + rest)[1..] == rest;
  }

  /** Whatever happened to the chunks' files, reading a disk's index fails or gives the disk's own bytes; it succeeds
      exactly when every chunk the index names can be read. */
  lemma ReadIndexOf(digest: Bytes -> Digest, chunks: Chunks, disk: Bytes, chunkSize: nat)
    requires NamesApart(digest) && Sound(digest, chunks) && chunkSize > 0
    ensures var index := IndexOf(digest, disk, chunkSize);
            var r := ReadIndex(chunks, index);
            (r.Ok? ==> r.value == disk) && (r.Ok? <==> Complete(chunks, index.digests))
  {
    ReadAllOfNames(digest, chunks, disk, chunkSize);
  }

  // ---- Storing ----

  /** The chunk a content is put as. */
  ghost predicate IsNamed(digest: Bytes -> Digest, contents: seq<Bytes>, d: Digest)
  {
    exists i | 0 <= i < |contents| :: NameOf(digest, contents[i]) == d
  }

  lemma IsNamedLast(digest: Bytes -> Digest, contents: seq<Bytes>, d: Digest)
    requires contents != []
    ensures var n := |contents| - 1;
            IsNamed(digest, contents, d) <==> IsNamed(digest, contents[..n], d) || NameOf(digest, contents[n]) == d
  {
    var n := |contents| - 1;
    if i :| 0 <= i < n && NameOf(digest, contents[..n][i]) == d {
      assert NameOf(digest, contents[i]) == d;
    }
    if i :| 0 <= i < |contents| && NameOf(digest, contents[i]) == d {
      assert i < n ==> NameOf(digest, contents[..n][i]) == d;
    }
  }

  /** Chunk `d` once it is named by a content put at `now`, and as it was otherwise. */
  ghost predicate Kept(digest: Bytes -> Digest, before: Chunks, after: Chunks, named: bool, now: real, d: Digest)
  {
    if named then
      && d in after && after[d].atime == now
      && (d in before ==> after[d].content == before[d].content)
      && (d !in before ==> after[d].content.Some? && digest(after[d].content.value) == d)
    else
      (d in after <==> d in before) && (d in before ==> after[d] == before[d])
  }

  /** Chunk by chunk, what putting every content leaves: the named chunks are there and touched, a chunk that was there
      keeps its content, the others are as they were. */
  lemma {:induction false} StoredAt(digest: Bytes -> Digest, chunks: Chunks, contents: seq<Bytes>, now: real, d: Digest)
    ensures var put := d != ZERO && IsNamed(digest, contents, d);
            Kept(digest, chunks, Stored(digest, chunks, contents, now), put, now, d)
  {
    if contents != [] {
      var n := |contents| - 1;
      StoredAt(digest, chunks, contents[..n], now, d);
      IsNamedLast(digest, contents, d);
    }
  }

  /** The same contents put in another order, as futures may complete, leave the same chunks. */
  lemma StoredInAnyOrder(digest: Bytes -> Digest, chunks: Chunks, a: seq<Bytes>, b: seq<Bytes>, now: real)
    requires NamesApart(digest) && forall content :: content in a <==> content in b
    ensures Stored(digest, chunks, a, now) == Stored(digest, chunks, b, now)
  {
    var x, y := Stored(digest, chunks, a, now), Stored(digest, chunks, b, now);
    forall d
      ensures d in x <==> d in y
      ensures d in x ==> x[d] == y[d]
    {
      StoredAt(digest, chunks, a, now, d);
      StoredAt(digest, chunks, b, now, d);
      SameNamed(digest, a, b, d);
      if d in x && d in y && x[d].content.Some? && y[d].content.Some? {
        assert Apart(digest, x[d].content.value, y[d].content.value);
      }
    }
  }

  lemma SameNamed(digest: Bytes -> Digest, a: seq<Bytes>, b: seq<Bytes>, d: Digest)
    requires forall content :: content in a <==> content in b
    ensures IsNamed(digest, a, d) <==> IsNamed(digest, b, d)
  {
    if IsNamed(digest, a, d) {
      var i :| 0 <= i < |a| && NameOf(digest, a[i]) == d;
      assert a[i] in b;
    }
    if IsNamed(digest, b, d) {
      var i :| 0 <= i < |b| && NameOf(digest, b[i]) == d;
      assert b[i] in a;
    }
  }

  /** No chunk's file is damaged. */
  predicate AllDecode(chunks: Chunks)
  {
    forall d | d in chunks :: chunks[d].content.Some?
  }

  /** Putting loses no chunk, damages none, and leaves every content put readable. */
  lemma StoredKeeps(digest: Bytes -> Digest, chunks: Chunks, contents: seq<Bytes>, now: real)
    requires Sound(digest, chunks)
    ensures var after := Stored(digest, chunks, contents, now);
            && Sound(digest, after)
            && (forall d | Readable(chunks, d) :: Readable(after, d))
            && (AllDecode(chunks) ==> AllDecode(after) && Complete(after, Names(digest, contents)))
  {
    var after := Stored(digest, chunks, contents, now);
    forall d
      ensures d in after && after[d].content.Some? ==> digest(after[d].content.value) == d
      ensures Readable(chunks, d) ==> Readable(after, d)
      ensures AllDecode(chunks) && d in after ==> after[d].content.Some?
    {
      StoredAt(digest, chunks, contents, now, d);
    }
    forall i | 0 <= i < |contents| && AllDecode(chunks)
      ensures Readable(after, Names(digest, contents)[i])
    {
      StoredAt(digest, chunks, contents, now, NameOf(digest, contents[i]));
      assert IsNamed(digest, contents, NameOf(digest, contents[i]));
    }
  }

  // ---- Backups ----

  /** A backup: its disks' names and indexes, in order. */
  datatype Disk = Disk(name: string, index: Index)
  type Backup = seq<Disk>
  datatype Key = Key(vm: string, stamp: string)

  function NonZero(digests: seq<Digest>): set<Digest>
  {
    set d | d in digests && d != ZERO
  }

  /** The digests of a backup's disks, one disk after the other. */
  function AllDigests(backup: Backup): seq<Digest>
  {
    if backup == [] then [] else backup[0].index.digests + AllDigests(backup[1..])
  }

  /** The chunks a backup names, but for the zeros. */
  function NamedBy(backup: Backup): set<Digest>
  {
    NonZero(AllDigests(backup))
  }

  function NamedByAny(backups: map<Key, Backup>): set<Digest>
  {
    set k, d | k in backups && d in NamedBy(backups[k]) :: d
  }

  function Touched(chunks: Chunks, names: set<Digest>, now: real): Chunks
  {
    map d | d in chunks :: if d in names then chunks[d].(atime := now) else chunks[d]
  }

  /** What a collection begun at `now` leaves: the named chunks, marked, and the young ones. */
  function Collected(chunks: Chunks, named: set<Digest>, now: real): Chunks
  {
    map d | d in chunks && (d in named || chunks[d].atime >= now - GC_GRACE_S) ::
      if d in named then chunks[d].(atime := now) else chunks[d]
  }

  /** What copying these chunks from `source` leaves: the ones held are touched, the others copied. */
  function Copied(chunks: Chunks, source: Chunks, names: set<Digest>, now: real): Chunks
  {
    Touched(chunks, names, now) + map d | d in names && d in source && d !in chunks :: Chunk(source[d].content, now)
  }
}
