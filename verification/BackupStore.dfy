/**
The backup store: its chunk files and its backups, changed in place by its operations. Each operation is proved against
what it does to the store's view (`ChunkStore`), where a file is seen through its decoding.
*/
module BackupStore {
  import opened Wrappers
  import opened StoreSettings
  import opened Bytes
  import opened ChunkCodec
  import opened ChunkStore

  datatype File = File(blob: Bytes, atime: real)

  datatype StoreError =
    | MissingChunk(digest: Digest)
    | DamagedChunk(digest: Digest)
    | AlreadyThere
    | NoSuchBackup
    | Unreadable
    | NotAlike

  function ContentOf(s: Scheme, d: Digest, blob: Bytes): Option<Bytes>
  {
    match Decode(s, d, blob)
    case Ok(content) => Some(content)
    case Err(_) => None
  }

  function View(s: Scheme, files: map<Digest, File>): Chunks
  {
    map d | d in files :: Chunk(ContentOf(s, d, files[d].blob), files[d].atime)
  }

  /** A view is sound by itself: decoding checks the digest. */
  lemma ViewIsSound(s: Scheme, files: map<Digest, File>)
    ensures Sound(s.digest, View(s, files))
  {
  }

  lemma ViewOfUpdate(s: Scheme, files: map<Digest, File>, d: Digest, f: File)
    ensures View(s, files[d := f]) == View(s, files)[d := Chunk(ContentOf(s, d, f.blob), f.atime)]
  {
  }

  lemma EncodedContent(s: Scheme, nonce: Bytes, content: Content)
    requires Lawful(s) && |nonce| == NONCE_SIZE
    ensures ContentOf(s, s.digest(content), Encode(s, nonce, s.digest(content), content)) == Some(content)
  {
    BlobRoundTrip(s, nonce, content);
  }

  class Store {
    const scheme: Scheme
    const chunkSize: nat
    const fingerprint: string
    var files: map<Digest, File>
    var left: map<Digest, File>  // renamed by a collection that died
    var bad: map<Digest, File>  // set aside by a verification
    var backups: map<Key, Backup>

    constructor (scheme: Scheme, chunkSize: nat, fingerprint: string)
      ensures this.scheme == scheme && this.chunkSize == chunkSize && this.fingerprint == fingerprint
      ensures files == map[] && left == map[] && bad == map[] && backups == map[]
    {
      this.scheme, this.chunkSize, this.fingerprint := scheme, chunkSize, fingerprint;
      files, left, bad, backups := map[], map[], map[], map[];
    }

    ghost function Chunks(): Chunks
      reads this
    {
      View(scheme, files)
    }

    method Put(content: Content, nonce: Bytes, now: real) returns (d: Digest)
      requires Lawful(scheme) && |nonce| == NONCE_SIZE
      modifies this`files
      ensures d == NameOf(scheme.digest, content)
      ensures Chunks() == PutChunk(scheme.digest, old(Chunks()), content, now)
      ensures files.Keys == old(files).Keys + if d == ZERO then {} else {d}
    {
      if AllZero(content) {
        return ZERO;
      }
      d := scheme.digest(content);
      if d in files {
        ViewOfUpdate(scheme, files, d, files[d].(atime := now));
        files := files[d := files[d].(atime := now)];
      } else {
        var blob := Encode(scheme, nonce, d, content);
        EncodedContent(scheme, nonce, content);
        ViewOfUpdate(scheme, files, d, File(blob, now));
        files := files[d := File(blob, now)];
      }
    }

    /** False: the chunk is missing. */
    method Touch(d: Digest, now: real) returns (found: bool)
      modifies this`files
      ensures found == (d == ZERO || d in old(files))
      ensures Chunks() == TouchChunk(old(Chunks()), d, now)
      ensures files.Keys == old(files).Keys
    {
      if d == ZERO {
        return true;
      }
      found := d in files;
      if found {
        files := files[d := files[d].(atime := now)];
      }
    }

    method Get(d: Digest, size: nat) returns (r: Result<Bytes, ChunkError>)
      ensures r == GetChunk(Chunks(), d, size)
    {
      if d == ZERO {
        return Ok(ZeroBytes(size));
      }
      if d !in files {
        return Err(Missing);
      }
      match Decode(scheme, d, files[d].blob)
      case Ok(content) => r := Ok(content);
      case Err(_) => r := Err(Damaged);
    }

    /** The manifest comes last, and only over chunks that are there. */
    method WriteBackup(key: Key, backup: Backup) returns (r: Result<(), StoreError>)
      modifies this`backups
      ensures r.Ok? <==> (forall d | d in NamedBy(backup) :: d in files) && key !in old(backups)
      ensures backups == if r.Ok? then old(backups)[key := backup] else old(backups)
      ensures r.Err? && r.error.MissingChunk? ==> r.error.digest in NamedBy(backup) && r.error.digest !in files
    {
      var digests := AllDigests(backup);
      for i := 0 to |digests|
        invariant forall j | 0 <= j < i && digests[j] != ZERO :: digests[j] in files
      {
        if digests[i] != ZERO && digests[i] !in files {
          return Err(MissingChunk(digests[i]));
        }
      }
      if key in backups {
        return Err(AlreadyThere);
      }
      backups := backups[key := backup];
      r := Ok(());
    }

    /** False: there is no such backup. */
    method DeleteBackup(key: Key) returns (found: bool)
      modifies this`backups
      ensures found == (key in old(backups))
      ensures backups == old(backups) - {key}
    {
      found := key in backups;
      backups := backups - {key};
    }

    // ---- Garbage collection, no backup running ----

    method Mark(digests: seq<Digest>, now: real)
      modifies this`files
      ensures Chunks() == Touched(old(Chunks()), NonZero(digests), now)
      ensures files.Keys == old(files).Keys
    {
      for i := 0 to |digests|
        invariant files.Keys == old(files).Keys
        invariant forall d | d in files :: files[d].blob == old(files)[d].blob
        invariant forall d | d in files ::
          files[d].atime == if d != ZERO && d in digests[..i] then now else old(files)[d].atime
      {
        var d := digests[i];
        if d != ZERO && d in files {
          files := files[d := files[d].(atime := now)];
        }
        assert digests[..i + 1] == digests[..i] + [d];
      }
      assert digests[..|digests|] == digests;
    }

    /** Deletes a chunk not touched since `cutoff`: renamed first, looked at again, put back or unlinked. `meanwhile`: a
        backup's touch between the first look and the rename. */
    method Sweep(d: Digest, cutoff: real, meanwhile: Option<real>) returns (removed: bool)
      modifies this`files
      ensures removed == (
        && d in old(files) && old(files)[d].atime < cutoff
        && (meanwhile.None? || meanwhile.value < cutoff))
      ensures files ==
        if removed then old(files) - {d}
        else if d in old(files) && old(files)[d].atime < cutoff then
          old(files)[d := old(files)[d].(atime := meanwhile.value)]
        else old(files)
    {
      if d !in files || files[d].atime >= cutoff {
        return false;
      }
      var doomed := files[d];
      if meanwhile.Some? {
        doomed := doomed.(atime := meanwhile.value);
      }
      files := files - {d};
      if doomed.atime >= cutoff {
        files := files[d := doomed];
        return false;
      }
      removed := true;
    }

    /** The indexes are read and their chunks marked, `marked` in all; a backup whose indexes cannot be read stops the
        collection before it deletes anything. What an earlier collection left renamed gets its name back, unless a
        chunk has that name, and then every chunk is judged by its age. */
    method CollectGarbage(now: real, readable: Key -> bool)
      returns (r: Result<nat, StoreError>, ghost marked: set<Digest>)
      modifies this`files, this`left
      ensures r.Ok? <==> forall k | k in backups :: readable(k)
      ensures r.Err? ==> r == Err(Unreadable) && left == old(left) && marked <= NamedByAny(backups)
      ensures r.Err? ==> Chunks() == Touched(old(Chunks()), marked, now)
      ensures r.Ok? ==> left == map[] && marked == NamedByAny(backups)
      ensures r.Ok? ==> var young := Swept(old(left) - old(files).Keys, {}, now - GC_GRACE_S);
                Chunks() == View(scheme, young) + Collected(old(Chunks()), marked, now)
      ensures r.Ok? ==> r.value == |old(files).Keys + old(left).Keys| - |files|
    {
      var ok;
      ok, marked := MarkAll(now, readable);
      if !ok {
        return Err(Unreadable), marked;
      }
      RecoveredCollected(scheme, files, left, old(Chunks()), marked, now);
      files, left := left + files, map[];
      var removed := SweepAll(now - GC_GRACE_S);
      assert (old(left) + old(files)).Keys == old(files).Keys + old(left).Keys;
      r := Ok(removed);
    }

    method MarkAll(now: real, readable: Key -> bool) returns (ok: bool, ghost marked: set<Digest>)
      modifies this`files
      ensures ok <==> forall k | k in backups :: readable(k)
      ensures marked <= NamedByAny(backups) && (ok ==> marked == NamedByAny(backups))
      ensures Chunks() == Touched(old(Chunks()), marked, now) && files.Keys == old(files).Keys
    {
      var keys := backups.Keys;
      marked := {};
      while keys != {}
        invariant keys <= backups.Keys && forall k | k in backups && k !in keys :: readable(k)
        invariant marked == set k, d | k in backups && k !in keys && d in NamedBy(backups[k]) :: d
        invariant Chunks() == Touched(old(Chunks()), marked, now) && files.Keys == old(files).Keys
      {
        var key :| key in keys;
        if !readable(key) {
          return false, marked;
        }
        Mark(AllDigests(backups[key]), now);
        TouchedTwice(old(Chunks()), marked, NamedBy(backups[key]), now);
        keys := keys - {key};
        marked := marked + NamedBy(backups[key]);
      }
      assert marked == NamedByAny(backups);
      ok := true;
    }

    method SweepAll(cutoff: real) returns (removed: nat)
      modifies this`files
      ensures files == Swept(old(files), {}, cutoff)
      ensures removed == |old(files)| - |files|
    {
      var pending := files.Keys;
      removed := 0;
      assert files == Swept(files, pending, cutoff);
      while pending != {}
        invariant pending <= old(files).Keys && files == Swept(old(files), pending, cutoff)
        invariant removed == |old(files)| - |files|
      {
        var d :| d in pending;
        SweptNext(old(files), pending, d, cutoff);
        var gone := Sweep(d, cutoff, None);
        pending := pending - {d};
        if gone {
          removed := removed + 1;
        }
      }
    }

    // ---- Copies from another store ----

    /** One chunk: touched when held, else copied as it is once its CRC is checked. True when it was copied. */
    method CopyChunk(source: Store, d: Digest, now: real) returns (r: Result<bool, StoreError>)
      requires source != this && source.scheme == scheme
      modifies this`files
      ensures r.Err? <==> d !in old(files) && !Copyable(source.scheme, source.files, d)
      ensures r.Err? ==> files == old(files) && r.error in {MissingChunk(d), DamagedChunk(d)}
      ensures r.Ok? ==> (forall x :: x in files <==> x in old(files) || x == d) && r.value == (d !in old(files))
      ensures r.Ok? ==> |files| == |old(files)| + if r.value then 1 else 0
      ensures r.Ok? ==> Chunks() == Copied(old(Chunks()), source.Chunks(), {d}, now)
    {
      CopiedOne(Chunks(), source.Chunks(), d, now);
      if d in files {
        ViewOfUpdate(scheme, files, d, files[d].(atime := now));
        files := files[d := files[d].(atime := now)];
        return Ok(false);
      }
      if d !in source.files {
        return Err(MissingChunk(d));
      }
      if CheckBlob(source.scheme, source.files[d].blob).Err? {
        return Err(DamagedChunk(d));
      }
      ViewOfUpdate(scheme, files, d, File(source.files[d].blob, now));
      files := files[d := File(source.files[d].blob, now)];
      r := Ok(true);
    }

    /** `done`: the chunks dealt with, all of them unless one cannot be copied. */
    method CopyChunks(source: Store, digests: seq<Digest>, now: real)
      returns (r: Result<nat, StoreError>, ghost done: set<Digest>)
      requires source != this && source.scheme == scheme
      modifies this`files
      ensures done <= NonZero(digests) && Chunks() == Copied(old(Chunks()), source.Chunks(), done, now)
      ensures forall d :: d in files <==> d in old(files) || d in done
      ensures r.Ok? ==> done == NonZero(digests) && r.value == |files| - |old(files)|
      ensures r.Err? ==> exists d | d in NonZero(digests) ::
                r.error in {MissingChunk(d), DamagedChunk(d)} && d !in old(files) &&
                !Copyable(source.scheme, source.files, d)
    {
      var copied := 0;
      done := {};
      CopiedNone(Chunks(), source.Chunks(), now);
      for i := 0 to |digests|
        invariant done == NonZero(digests[..i])
        invariant Chunks() == Copied(old(Chunks()), source.Chunks(), done, now)
        invariant forall d :: d in files <==> d in old(files) || d in done
        invariant copied == |files| - |old(files)|
      {
        var d := digests[i];
        NonZeroNext(digests, i);
        if d != ZERO {
          var one := CopyChunk(source, d, now);
          if one.Err? {
            return Err(one.error), done;
          }
          CopiedTwice(old(Chunks()), source.Chunks(), done, {d}, now);
          copied := copied + if one.value then 1 else 0;
          done := done + {d};
        }
      }
      assert digests[..|digests|] == digests;
      r := Ok(copied);
    }

    /** Whether the two stores name and seal chunks alike. */
    predicate SameChunksAs(source: Store)
    {
      chunkSize == source.chunkSize && scheme.encrypted == source.scheme.encrypted && fingerprint == source.fingerprint
    }

    /** A backup of `source` copied as it is, its manifest last: on success this store holds it over every chunk it
        names; otherwise no backup is added, and no chunk is lost. */
    method CopyBackupFrom(source: Store, key: Key, now: real)
      returns (r: Result<nat, StoreError>, ghost done: set<Digest>)
      requires source != this
      requires SameChunksAs(source) ==> source.scheme == scheme
      modifies this`files, this`backups
      ensures Chunks() == Copied(old(Chunks()), source.Chunks(), done, now)
      ensures forall d :: d in files <==> d in old(files) || d in done
      ensures r == Err(NotAlike) <==>
                || chunkSize != source.chunkSize || scheme.encrypted != source.scheme.encrypted
                || fingerprint != source.fingerprint
      ensures r == Err(NotAlike) ==> done == {}
      ensures SameChunksAs(source) && key in old(backups) ==> r == Ok(0) && done == {}
      ensures SameChunksAs(source) && key !in old(backups) && key !in source.backups ==>
                r == Err(NoSuchBackup) && done == {}
      ensures r.Ok? && key !in old(backups) ==>
                && key in source.backups && backups == old(backups)[key := source.backups[key]]
                && done == NamedBy(source.backups[key]) && done <= files.Keys
                && r.value == |files| - |old(files)|
      ensures r.Err? || key in old(backups) ==> backups == old(backups)
      ensures r.Err? && SameChunksAs(source) && key in source.backups ==>
                exists d | d in NamedBy(source.backups[key]) ::
                  r.error in {MissingChunk(d), DamagedChunk(d)} && d !in old(files) &&
                  !Copyable(source.scheme, source.files, d)
    {
      done := {};
      assert Chunks() == Copied(Chunks(), source.Chunks(), {}, now);
      if !SameChunksAs(source) {
        return Err(NotAlike), done;
      }
      if key in backups {
        return Ok(0), done;
      }
      if key !in source.backups {
        return Err(NoSuchBackup), done;
      }
      var backup := source.backups[key];
      r, done := CopyChunks(source, AllDigests(backup), now);
      if r.Ok? {
        backups := backups[key := backup];
      }
    }

    // ---- Verification ----

    /** Reads every chunk of a backup: the missing and the damaged ones, each once; the damaged ones are set aside. */
    method Verify(key: Key) returns (r: Result<seq<Digest>, StoreError>)
      modifies this`files, this`bad
      ensures r.Ok? <==> key in backups
      ensures r.Err? ==> r == Err(NoSuchBackup) && files == old(files) && bad == old(bad)
      ensures r.Ok? ==> forall d :: d in r.value <==> d in NamedBy(backups[key]) && !Readable(old(Chunks()), d)
      ensures r.Ok? ==> forall i, j | 0 <= i < j < |r.value| :: r.value[i] != r.value[j]
      ensures r.Ok? ==> var unsound := Unsound(scheme, old(files)) * NamedBy(backups[key]);
                files == old(files) - unsound && bad == Aside(old(bad), old(files), unsound)
    {
      if key !in backups {
        return Err(NoSuchBackup);
      }
      var found := VerifyChunks(AllDigests(backups[key]));
      r := Ok(found);
    }

    method VerifyChunk(d: Digest) returns (sound: bool)
      requires d != ZERO
      modifies this`files, this`bad
      ensures sound == Readable(old(Chunks()), d)
      ensures var unsound := Unsound(scheme, old(files)) * {d};
              files == old(files) - unsound && bad == Aside(old(bad), old(files), unsound)
    {
      var read := Get(d, chunkSize);
      sound := read.Ok?;
      if read == Err(Damaged) {
        bad := bad[d := files[d]];
        files := files - {d};
      }
    }

    method VerifyChunks(digests: seq<Digest>) returns (found: seq<Digest>)
      modifies this`files, this`bad
      ensures forall d :: d in found <==> d in NonZero(digests) && !Readable(old(Chunks()), d)
      ensures forall m, n | 0 <= m < n < |found| :: found[m] != found[n]
      ensures var unsound := Unsound(scheme, old(files)) * NonZero(digests);
              files == old(files) - unsound && bad == Aside(old(bad), old(files), unsound)
    {
      found := [];
      var checked: set<Digest> := {};
      ghost var unsound := Unsound(scheme, files);
      for i := 0 to |digests|
        invariant checked == NonZero(digests[..i])
        invariant files == old(files) - unsound * checked
        invariant bad == Aside(old(bad), old(files), unsound * checked)
        invariant forall d :: d in found <==> d in checked && !Readable(old(Chunks()), d)
        invariant forall m, n | 0 <= m < n < |found| :: found[m] != found[n]
      {
        var d := digests[i];
        NonZeroNext(digests, i);
        if d != ZERO && d !in checked {
          ghost var before := files;
          var sound := VerifyChunk(d);
          assert Unsound(scheme, before) * {d} == unsound * {d};
          AsideTwice(old(bad), old(files), unsound * checked, unsound * {d});
          assert unsound * checked + unsound * {d} == unsound * (checked + {d});
          if !sound {
            found := found + [d];
          }
          checked := checked + {d};
        }
      }
      assert digests[..|digests|] == digests;
    }
  }

  /** A chunk another store can copy without its key: there, with its CRC. */
  predicate Copyable(s: Scheme, files: map<Digest, File>, d: Digest)
  {
    d in files && CheckBlob(s, files[d].blob).Ok?
  }

  /** The chunks whose files do not decode. */
  function Unsound(s: Scheme, files: map<Digest, File>): set<Digest>
  {
    set d | d in files && ContentOf(s, d, files[d].blob).None?
  }

  lemma CopiedOne(chunks: Chunks, source: Chunks, d: Digest, now: real)
    ensures Copied(chunks, source, {d}, now) ==
              if d in chunks then chunks[d := chunks[d].(atime := now)]
              else if d in source then chunks[d := Chunk(source[d].content, now)]
              else chunks
  {
  }

  lemma CopiedNone(chunks: Chunks, source: Chunks, now: real)
    ensures Copied(chunks, source, {}, now) == chunks
  {
  }

  lemma CopiedTwice(chunks: Chunks, source: Chunks, a: set<Digest>, b: set<Digest>, now: real)
    ensures Copied(Copied(chunks, source, a, now), source, b, now) == Copied(chunks, source, a + b, now)
  {
    var first := Copied(chunks, source, a, now);
    var twice, once := Copied(first, source, b, now), Copied(chunks, source, a + b, now);
    forall d
      ensures d in twice <==> d in once
      ensures d in twice ==> twice[d] == once[d]
    {
    }
  }

  lemma TouchedTwice(chunks: Chunks, a: set<Digest>, b: set<Digest>, now: real)
    ensures Touched(Touched(chunks, a, now), b, now) == Touched(chunks, a + b, now)
  {
  }

  lemma NonZeroNext(digests: seq<Digest>, i: nat)
    requires i < |digests|
    ensures digests[i] == ZERO ==> NonZero(digests[..i + 1]) == NonZero(digests[..i])
    ensures digests[i] != ZERO ==> NonZero(digests[..i + 1]) == NonZero(digests[..i]) + {digests[i]}
    ensures NonZero(digests[..i]) <= NonZero(digests) && (digests[i] != ZERO ==> digests[i] in NonZero(digests))
  {
    assert digests[..i + 1] == digests[..i] + [digests[i]];
  }

  /** The files of these chunks, renamed `.bad`. */
  function Aside(bad: map<Digest, File>, files: map<Digest, File>, names: set<Digest>): map<Digest, File>
  {
    bad + map d | d in names && d in files :: files[d]
  }

  lemma AsideTwice(bad: map<Digest, File>, files: map<Digest, File>, a: set<Digest>, b: set<Digest>)
    ensures Aside(Aside(bad, files, a), files - a, b) == Aside(bad, files, a + b)
  {
  }

  /** The chunks pending, and of the others the ones not older than the cutoff. */
  ghost function Swept(files: map<Digest, File>, pending: set<Digest>, cutoff: real): map<Digest, File>
  {
    map d | d in files && (d in pending || files[d].atime >= cutoff) :: files[d]
  }

  lemma SweptNext(files: map<Digest, File>, pending: set<Digest>, d: Digest, cutoff: real)
    requires d in pending && d in files
    ensures var now, next := Swept(files, pending, cutoff), Swept(files, pending - {d}, cutoff);
      && d in now && now[d] == files[d]
      && (files[d].atime < cutoff ==> next == now - {d} && |next| == |now| - 1)
      && (files[d].atime >= cutoff ==> next == now)
  {
    var now, next := Swept(files, pending, cutoff), Swept(files, pending - {d}, cutoff);
    if files[d].atime < cutoff {
      assert next == now - {d};
      assert now.Keys == next.Keys + {d};
    } else {
      assert next == now;
    }
  }

  /** Sweeping the marked files and the leftovers together leaves the young leftovers and what a collection leaves. */
  lemma RecoveredCollected(s: Scheme, files: map<Digest, File>, left: map<Digest, File>, chunks: Chunks,
                           named: set<Digest>, now: real)
    requires View(s, files) == Touched(chunks, named, now)
    ensures var young := Swept(left - files.Keys, {}, now - GC_GRACE_S);
      View(s, Swept(left + files, {}, now - GC_GRACE_S)) == View(s, young) + Collected(chunks, named, now)
  {
    var cutoff := now - GC_GRACE_S;
    var swept, young := Swept(left + files, {}, cutoff), Swept(left - files.Keys, {}, cutoff);
    forall d
      ensures d in swept <==> d in young || d in Collected(chunks, named, now)
      ensures d in swept ==> View(s, swept)[d] == (View(s, young) + Collected(chunks, named, now))[d]
    {
      assert d in View(s, files) <==> d in Touched(chunks, named, now);
      assert d in files ==> View(s, files)[d] == Touched(chunks, named, now)[d];
    }
  }
}
