/**
Whole histories of a store: backups, full or over a previous one, copies from another store, deletions, collections, and
whatever happens to the chunks' files, in any order. Beside the store, the disks as they were when each backup was made.
*/
module StoreHistory {
  import opened Wrappers
  import opened Bytes
  import opened ChunkCodec
  import opened ChunkStore
  import opened IncrementalBackup
  import IndexCodec

  datatype State = State(chunks: Chunks, backups: map<Key, Backup>)

  /** A disk at the instant of a backup. `dirty`: what its bitmap shows since the base backup; `tracked`: it has one. */
  datatype Image = Image(name: string, bytes: Bytes, tracked: bool, dirty: seq<Extent>)
  type Images = map<Key, seq<Image>>

  datatype Op =
    | BackUp(key: Key, base: Option<Key>, images: seq<Image>, now: real)
    | CopyIn(key: Key, source: State, sourceImages: Images, done: set<Digest>, now: real)
    | Delete(key: Key)
    | Collect(now: real)
    | Abandon(contents: seq<Bytes>, now: real)
    | Disturb(chunks: Chunks)  // chunks damaged, lost, set aside or put back: the store as it is read then

  // ---- What each operation does ----

  function Find(backup: Backup, name: string): Option<IndexCodec.Index>
  {
    if backup == [] then None
    else if backup[0].name == name then Some(backup[0].index)
    else Find(backup[1..], name)
  }

  /** The previous index a disk is read over: it has a bitmap, the base backup holds it, and its size did not change. */
  function BaseOf(st: State, base: Option<Key>, image: Image): Option<IndexCodec.Index>
  {
    if base.None? || base.value !in st.backups || !image.tracked then None
    else
      var found := Find(st.backups[base.value], image.name);
      if found.Some? && found.value.size == |image.bytes| then found else None
  }

  function StoreDisk(digest: Bytes -> Digest, c: nat, chunks: Chunks, base: Option<IndexCodec.Index>, image: Image,
      now: real)
    : (IndexCodec.Index, Chunks)
    requires c > 0
  {
    var parts := Cut(image.bytes, c);
    if base.Some? && |base.value.digests| == |parts| then
      var read := ToRead(chunks, base.value.digests, Changed(image.dirty, |image.bytes|, c));
      (IndexCodec.Index(|image.bytes|, c, Merged(digest, parts, base.value.digests, read)),
       IncrementallyStored(digest, chunks, parts, base.value.digests, read, now))
    else
      (IndexOf(digest, image.bytes, c), Stored(digest, chunks, parts, now))
  }

  function StoreImages(digest: Bytes -> Digest, c: nat, st: State, base: Option<Key>, images: seq<Image>, now: real)
    : (r: (Backup, Chunks))
    requires c > 0
  {
    if images == [] then ([], st.chunks)
    else
      var n := |images| - 1;
      var before := StoreImages(digest, c, st, base, images[..n], now);
      var one := StoreDisk(digest, c, before.1, BaseOf(st, base, images[n]), images[n], now);
      (before.0 + [Disk(images[n].name, one.0)], one.1)
  }

  /** A copy deals with `done`, in the end with every chunk of the backup unless one can be had in neither store; only
      then is it recorded. */
  predicate CopiesAll(st: State, key: Key, source: State, done: set<Digest>)
    requires key in source.backups
  {
    done == NamedBy(source.backups[key]) && forall d | d in done :: d in st.chunks || d in source.chunks
  }

  /** A backup under a taken name stops before its manifest; a copy under a taken name does nothing. */
  function Apply(digest: Bytes -> Digest, c: nat, st: State, op: Op): State
    requires c > 0
  {
    match op
    case BackUp(key, base, images, now) =>
      var stored := StoreImages(digest, c, st, base, images, now);
      State(stored.1, if key in st.backups then st.backups else st.backups[key := stored.0])
    case CopyIn(key, source, _, done, now) =>
      if key in st.backups || key !in source.backups then st
      else State(Copied(st.chunks, source.chunks, done, now),
                 if CopiesAll(st, key, source, done) then st.backups[key := source.backups[key]] else st.backups)
    case Delete(key) => st.(backups := st.backups - {key})
    case Collect(now) => st.(chunks := Collected(st.chunks, NamedByAny(st.backups), now))
    case Abandon(contents, now) => st.(chunks := Stored(digest, st.chunks, contents, now))
    case Disturb(chunks) => st.(chunks := chunks)
  }

  function ApplyImages(st: State, images: Images, op: Op): Images
  {
    match op
    case BackUp(key, _, disks, _) => if key in st.backups then images else images[key := disks]
    case CopyIn(key, source, sourceImages, done, _) =>
      if key in st.backups || key !in source.backups || key !in sourceImages || !CopiesAll(st, key, source, done)
      then images
      else images[key := sourceImages[key]]
    case Delete(key) => images - {key}
    case Collect(_) => images
    case Abandon(_, _) => images
    case Disturb(_) => images
  }

  // ---- What every operation keeps ----

  /** A backup is the index of each of its disks. */
  ghost predicate Indexes(digest: Bytes -> Digest, c: nat, backup: Backup, images: seq<Image>)
    requires c > 0
  {
    && |backup| == |images|
    && forall i | 0 <= i < |backup| :: backup[i] == Disk(images[i].name, IndexOf(digest, images[i].bytes, c))
  }

  /** Every backup is that of its own disks. Nothing is said of the chunks but that decoding checks their digest. */
  ghost predicate Kept(digest: Bytes -> Digest, c: nat, st: State, images: Images)
    requires c > 0
  {
    && Sound(digest, st.chunks) && st.backups.Keys == images.Keys
    && forall k | k in st.backups :: Indexes(digest, c, st.backups[k], images[k])
  }

  ghost predicate AllComplete(chunks: Chunks, backup: Backup)
  {
    forall i | 0 <= i < |backup| :: Complete(chunks, backup[i].index.digests)
  }

  /** And every chunk can be read. */
  ghost predicate Good(digest: Bytes -> Digest, c: nat, st: State, images: Images)
    requires c > 0
  {
    && Kept(digest, c, st, images) && AllDecode(st.chunks)
    && forall k | k in st.backups :: AllComplete(st.chunks, st.backups[k])
  }

  function FindImage(images: seq<Image>, name: string): Option<Image>
  {
    if images == [] then None
    else if images[0].name == name then Some(images[0])
    else FindImage(images[1..], name)
  }

  /** The bitmap of a disk shows each byte that changed since the base backup's own disk, if that is as large. */
  ghost predicate BitmapTells(images: Images, base: Option<Key>, image: Image)
  {
    image.tracked && base.Some? && base.value in images ==>
      var previous := FindImage(images[base.value], image.name);
      previous.Some? && |previous.value.bytes| == |image.bytes| ==>
        DirtyCovers(image.dirty, previous.value.bytes, image.bytes)
  }

  /** A disk is read over a base exactly when it has a bitmap, and the base backup is there and holds a disk of that
      name and size: over that one. */
  lemma ReadOverBaseIff(digest: Bytes -> Digest, c: nat, st: State, images: Images, base: Option<Key>, image: Image)
    requires c > 0 && Kept(digest, c, st, images)
    ensures BaseOf(st, base, image) ==
      if image.tracked && base.Some? && base.value in images && FindImage(images[base.value], image.name).Some?
         && |FindImage(images[base.value], image.name).value.bytes| == |image.bytes|
      then Some(IndexOf(digest, FindImage(images[base.value], image.name).value.bytes, c))
      else None
  {
    if base.Some? && base.value in images {
      FindTheImage(digest, c, st.backups[base.value], images[base.value], image.name);
    }
  }

  /** What an operation takes for granted: true bitmaps, a source whose backups are those of its disks, and, of whatever
      happens to the chunks' files, that decoding checks the digest. */
  ghost predicate Allowed(digest: Bytes -> Digest, c: nat, st: State, images: Images, op: Op)
    requires c > 0
  {
    match op
    case BackUp(_, base, disks, _) => forall i | 0 <= i < |disks| :: BitmapTells(images, base, disks[i])
    case CopyIn(_, source, sourceImages, _, _) => Kept(digest, c, source, sourceImages)
    case Disturb(chunks) => Sound(digest, chunks)
    case _ => true
  }

  /** Nothing happens to the chunks' files, here or in the store copied from. */
  ghost predicate Calm(digest: Bytes -> Digest, c: nat, op: Op)
    requires c > 0
  {
    !op.Disturb? && (op.CopyIn? ==> Good(digest, c, op.source, op.sourceImages))
  }

  lemma {:induction false} FindTheImage(digest: Bytes -> Digest, c: nat, backup: Backup, images: seq<Image>,
      name: string)
    requires c > 0 && Indexes(digest, c, backup, images)
    ensures Find(backup, name).Some? <==> FindImage(images, name).Some?
    ensures Find(backup, name).Some? ==>
              Find(backup, name).value == IndexOf(digest, FindImage(images, name).value.bytes, c)
  {
    if backup != [] && backup[0].name != name {
      assert Indexes(digest, c, backup[1..], images[1..]) by {
        assert forall i | 0 <= i < |backup| - 1 :: backup[1..][i] == backup[i + 1] && images[1..][i] == images[i + 1];
      }
      FindTheImage(digest, c, backup[1..], images[1..], name);
    }
  }

  /** Read over its base or whole, a disk is stored as its own index, whatever became of the base's chunks. */
  lemma StoredDiskIsItself(digest: Bytes -> Digest, c: nat, st: State, images: Images, chunks: Chunks,
      base: Option<Key>, image: Image, now: real)
    requires NamesApart(digest) && c > 0 && Kept(digest, c, st, images) && BitmapTells(images, base, image)
    ensures StoreDisk(digest, c, chunks, BaseOf(st, base, image), image, now) ==
              (IndexOf(digest, image.bytes, c), Stored(digest, chunks, Cut(image.bytes, c), now))
  {
    var previous := BaseOf(st, base, image);
    if previous.Some? {
      FindTheImage(digest, c, st.backups[base.value], images[base.value], image.name);
      var before := FindImage(images[base.value], image.name).value.bytes;
      IncrementalRefinesFull(digest, chunks, image.dirty, before, image.bytes, c, now);
    }
  }

  /** Nothing readable becomes unreadable, and where no chunk was damaged none is. */
  ghost predicate Grows(digest: Bytes -> Digest, before: Chunks, after: Chunks)
  {
    && Sound(digest, after) && (AllDecode(before) ==> AllDecode(after))
    && forall d | Readable(before, d) :: Readable(after, d)
  }

  lemma CompleteInMore(digest: Bytes -> Digest, before: Chunks, after: Chunks, backup: Backup)
    requires Grows(digest, before, after) && AllComplete(before, backup)
    ensures AllComplete(after, backup)
  {
    forall i | 0 <= i < |backup|
      ensures Complete(after, backup[i].index.digests)
    {
      assert Complete(before, backup[i].index.digests);
    }
  }

  lemma StoredGrows(digest: Bytes -> Digest, chunks: Chunks, contents: seq<Bytes>, now: real)
    requires NamesApart(digest) && Sound(digest, chunks)
    ensures Grows(digest, chunks, Stored(digest, chunks, contents, now))
  {
    StoredKeeps(digest, chunks, contents, now);
  }

  lemma {:induction false} StoredImages(digest: Bytes -> Digest, c: nat, st: State, images: Images, base: Option<Key>,
      disks: seq<Image>, now: real)
    requires NamesApart(digest) && c > 0 && Kept(digest, c, st, images)
    requires forall i | 0 <= i < |disks| :: BitmapTells(images, base, disks[i])
    ensures var r := StoreImages(digest, c, st, base, disks, now);
            && Grows(digest, st.chunks, r.1) && Indexes(digest, c, r.0, disks)
            && (AllDecode(st.chunks) ==> AllComplete(r.1, r.0))
    decreases |disks|
  {
    if disks != [] {
      var n := |disks| - 1;
      StoredImages(digest, c, st, images, base, disks[..n], now);
      var before := StoreImages(digest, c, st, base, disks[..n], now);
      StoredDiskIsItself(digest, c, st, images, before.1, base, disks[n], now);
      OneImageMore(digest, c, st.chunks, before.1, before.0, disks, now);
    }
  }

  lemma OneImageMore(digest: Bytes -> Digest, c: nat, first: Chunks, before: Chunks, backup: Backup,
      disks: seq<Image>, now: real)
    requires NamesApart(digest) && c > 0 && disks != [] && Grows(digest, first, before)
    requires Indexes(digest, c, backup, disks[..|disks| - 1]) && (AllDecode(first) ==> AllComplete(before, backup))
    ensures var last := disks[|disks| - 1];
            var after := Stored(digest, before, Cut(last.bytes, c), now);
            var more := backup + [Disk(last.name, IndexOf(digest, last.bytes, c))];
            && Grows(digest, first, after) && Indexes(digest, c, more, disks)
            && (AllDecode(first) ==> AllComplete(after, more))
  {
    var last := disks[|disks| - 1];
    var after := Stored(digest, before, Cut(last.bytes, c), now);
    StoredGrows(digest, before, Cut(last.bytes, c), now);
    if AllDecode(first) {
      StoredKeeps(digest, before, Cut(last.bytes, c), now);
      CompleteInMore(digest, before, after, backup);
    }
  }

  lemma BackUpKeeps(digest: Bytes -> Digest, c: nat, st: State, images: Images, op: Op)
    requires NamesApart(digest) && c > 0 && Kept(digest, c, st, images)
    requires Allowed(digest, c, st, images, op) && op.BackUp?
    ensures Kept(digest, c, Apply(digest, c, st, op), ApplyImages(st, images, op))
  {
    StoredImages(digest, c, st, images, op.base, op.images, op.now);
  }

  lemma BackUpKeepsGood(digest: Bytes -> Digest, c: nat, st: State, images: Images, op: Op)
    requires NamesApart(digest) && c > 0 && Good(digest, c, st, images)
    requires Allowed(digest, c, st, images, op) && op.BackUp?
    ensures Good(digest, c, Apply(digest, c, st, op), ApplyImages(st, images, op))
  {
    BackUpKeeps(digest, c, st, images, op);
    StoredImages(digest, c, st, images, op.base, op.images, op.now);
    BackupsStayComplete(digest, c, st, images, StoreImages(digest, c, st, op.base, op.images, op.now).1);
  }

  lemma BackupsStayComplete(digest: Bytes -> Digest, c: nat, st: State, images: Images, after: Chunks)
    requires c > 0 && Good(digest, c, st, images) && Grows(digest, st.chunks, after)
    ensures Good(digest, c, st.(chunks := after), images)
  {
    forall k | k in st.backups
      ensures AllComplete(after, st.backups[k])
    {
      CompleteInMore(digest, st.chunks, after, st.backups[k]);
    }
  }

  lemma {:induction false} DiskNamed(backup: Backup, i: nat, d: Digest)
    requires i < |backup| && d in backup[i].index.digests && d != ZERO
    ensures d in NamedBy(backup)
  {
    if i > 0 {
      DiskNamed(backup[1..], i - 1, d);
    }
  }

  /** Collecting keeps the chunks of every backup there is. */
  lemma CollectKeepsGood(digest: Bytes -> Digest, c: nat, st: State, images: Images, now: real)
    requires c > 0 && Good(digest, c, st, images)
    ensures Good(digest, c, Apply(digest, c, st, Collect(now)), images)
  {
    var named := NamedByAny(st.backups);
    var after := Collected(st.chunks, named, now);
    forall k, i, j | k in st.backups && 0 <= i < |st.backups[k]| && 0 <= j < |st.backups[k][i].index.digests|
      ensures Readable(after, st.backups[k][i].index.digests[j])
    {
      var d := st.backups[k][i].index.digests[j];
      assert AllComplete(st.chunks, st.backups[k]);
      assert Readable(st.chunks, d);
      if d != ZERO {
        DiskNamed(st.backups[k], i, d);
        assert d in named;
      }
    }
  }

  lemma CopiedGrows(digest: Bytes -> Digest, chunks: Chunks, source: Chunks, names: set<Digest>, now: real)
    requires Sound(digest, chunks) && Sound(digest, source)
    ensures Sound(digest, Copied(chunks, source, names, now))
    ensures AllDecode(source) ==> Grows(digest, chunks, Copied(chunks, source, names, now))
  {
  }

  /** A copy reads back as its original does at the source. */
  lemma CopyKeepsGood(digest: Bytes -> Digest, c: nat, st: State, images: Images, op: Op)
    requires c > 0 && Good(digest, c, st, images) && op.CopyIn? && Good(digest, c, op.source, op.sourceImages)
    ensures Good(digest, c, Apply(digest, c, st, op), ApplyImages(st, images, op))
  {
    var key, source := op.key, op.source;
    if key !in st.backups && key in source.backups {
      var backup := source.backups[key];
      var after := Copied(st.chunks, source.chunks, op.done, op.now);
      CopiedGrows(digest, st.chunks, source.chunks, op.done, op.now);
      BackupsStayComplete(digest, c, st, images, after);
      if CopiesAll(st, key, source, op.done) {
        CopyIsComplete(st.chunks, source.chunks, backup, op.now);
      }
    }
  }

  lemma CopyIsComplete(chunks: Chunks, source: Chunks, backup: Backup, now: real)
    requires AllDecode(chunks) && AllComplete(source, backup)
    ensures AllComplete(Copied(chunks, source, NamedBy(backup), now), backup)
  {
    var after := Copied(chunks, source, NamedBy(backup), now);
    forall i, j | 0 <= i < |backup| && 0 <= j < |backup[i].index.digests|
      ensures Readable(after, backup[i].index.digests[j])
    {
      var d := backup[i].index.digests[j];
      assert Complete(source, backup[i].index.digests);
      assert Readable(source, d);
      if d != ZERO {
        DiskNamed(backup, i, d);
      }
    }
  }

  /** Whatever happens to the chunks, a backup stays that of its disks. */
  lemma StepKeeps(digest: Bytes -> Digest, c: nat, st: State, images: Images, op: Op)
    requires NamesApart(digest) && c > 0 && Kept(digest, c, st, images) && Allowed(digest, c, st, images, op)
    ensures Kept(digest, c, Apply(digest, c, st, op), ApplyImages(st, images, op))
  {
    match op
    case BackUp(_, _, _, _) => BackUpKeeps(digest, c, st, images, op);
    case CopyIn(_, source, _, done, now) => CopiedGrows(digest, st.chunks, source.chunks, done, now);
    case Delete(_) =>
    case Collect(_) =>
    case Abandon(contents, now) => StoredGrows(digest, st.chunks, contents, now);
    case Disturb(_) =>
  }

  lemma StepKeepsGood(digest: Bytes -> Digest, c: nat, st: State, images: Images, op: Op)
    requires NamesApart(digest) && c > 0 && Good(digest, c, st, images) && Allowed(digest, c, st, images, op)
    requires Calm(digest, c, op)
    ensures Good(digest, c, Apply(digest, c, st, op), ApplyImages(st, images, op))
  {
    match op
    case BackUp(_, _, _, _) => BackUpKeepsGood(digest, c, st, images, op);
    case CopyIn(_, _, _, _, _) => CopyKeepsGood(digest, c, st, images, op);
    case Delete(_) =>
    case Collect(now) => CollectKeepsGood(digest, c, st, images, now);
    case Abandon(contents, now) =>
      StoredGrows(digest, st.chunks, contents, now);
      BackupsStayComplete(digest, c, st, images, Stored(digest, st.chunks, contents, now));
  }

  /** Which backups an operation leaves: one more, one fewer, or the same, and each of the others what it was. A copy is
      recorded once every chunk of it was dealt with, each being in one store or the other. */
  lemma BackupsAfter(digest: Bytes -> Digest, c: nat, st: State, op: Op)
    requires c > 0
    ensures var after := Apply(digest, c, st, op).backups;
      match op
      case BackUp(key, _, _, _) =>
        after.Keys == st.backups.Keys + {key} && st.backups == after - ({key} - st.backups.Keys)
      case CopyIn(key, source, _, done, _) =>
        if key in st.backups || key !in source.backups || done != NamedBy(source.backups[key])
           || exists d | d in done :: d !in st.chunks && d !in source.chunks
        then after == st.backups
        else after == st.backups[key := source.backups[key]]
      case Delete(key) => after == st.backups - {key}
      case _ => after == st.backups
  {
  }

  // ---- Histories ----

  const EMPTY_STORE := State(map[], map[])

  ghost predicate Lived(digest: Bytes -> Digest, c: nat, st: State, images: Images, ops: seq<Op>, st': State,
      images': Images)
    requires c > 0
    decreases |ops|
  {
    if ops == [] then st' == st && images' == images
    else
      && Allowed(digest, c, st, images, ops[0])
      && Lived(digest, c, Apply(digest, c, st, ops[0]), ApplyImages(st, images, ops[0]), ops[1..], st', images')
  }

  lemma {:induction false} HistoryKeeps(digest: Bytes -> Digest, c: nat, st: State, images: Images, ops: seq<Op>,
                                        st': State, images': Images)
    requires NamesApart(digest) && c > 0 && Kept(digest, c, st, images)
    requires Lived(digest, c, st, images, ops, st', images')
    ensures Kept(digest, c, st', images')
    decreases |ops|
  {
    if ops != [] {
      var next, nextImages := Apply(digest, c, st, ops[0]), ApplyImages(st, images, ops[0]);
      StepKeeps(digest, c, st, images, ops[0]);
      HistoryKeeps(digest, c, next, nextImages, ops[1..], st', images');
    }
  }

  lemma {:induction false} HistoryKeepsGood(digest: Bytes -> Digest, c: nat, st: State, images: Images, ops: seq<Op>,
                                            st': State, images': Images)
    requires NamesApart(digest) && c > 0 && Good(digest, c, st, images)
    requires Lived(digest, c, st, images, ops, st', images') && forall n | 0 <= n < |ops| :: Calm(digest, c, ops[n])
    ensures Good(digest, c, st', images')
    decreases |ops|
  {
    if ops != [] {
      var next, nextImages := Apply(digest, c, st, ops[0]), ApplyImages(st, images, ops[0]);
      StepKeepsGood(digest, c, st, images, ops[0]);
      HistoryKeepsGood(digest, c, next, nextImages, ops[1..], st', images');
    }
  }

  /** A backup stays in the store, and stays what it is, until it is itself deleted. */
  lemma {:induction false} BackupStays(digest: Bytes -> Digest, c: nat, st: State, images: Images, ops: seq<Op>,
                                       st': State, images': Images, key: Key)
    requires c > 0 && Lived(digest, c, st, images, ops, st', images') && key in st.backups && Delete(key) !in ops
    requires key in images
    ensures key in st'.backups && st'.backups[key] == st.backups[key]
    ensures key in images' && images'[key] == images[key]
    decreases |ops|
  {
    if ops != [] {
      assert ops[0] in ops;
      var next, nextImages := Apply(digest, c, st, ops[0]), ApplyImages(st, images, ops[0]);
      BackupStays(digest, c, next, nextImages, ops[1..], st', images', key);
    }
  }

  /** After any history of a store, whatever chunks were damaged or lost in it, every restore of a disk fails or gives
      the disk as it was when its backup was made; it succeeds exactly when every chunk of it can be read. */
  lemma EveryRestoreIsRight(digest: Bytes -> Digest, c: nat, ops: seq<Op>, st: State, images: Images, key: Key, i: nat)
    requires NamesApart(digest) && c > 0 && Lived(digest, c, EMPTY_STORE, map[], ops, st, images)
    requires key in st.backups && i < |st.backups[key]|
    ensures key in images && i < |images[key]| && st.backups[key][i].name == images[key][i].name
    ensures var r := ReadIndex(st.chunks, st.backups[key][i].index);
      (r.Ok? ==> r.value == images[key][i].bytes) && (r.Ok? <==> Complete(st.chunks, st.backups[key][i].index.digests))
  {
    HistoryKeeps(digest, c, EMPTY_STORE, map[], ops, st, images);
    assert Indexes(digest, c, st.backups[key], images[key]);
    ReadIndexOf(digest, st.chunks, images[key][i].bytes, c);
  }

  /** Any backup is deleted or restored alone: where nothing happens to the chunks' files, every disk of every backup
      still there reads back exactly as it was when that backup was made, whatever was deleted, collected or copied
      meanwhile. */
  lemma EveryBackupReadsBack(digest: Bytes -> Digest, c: nat, ops: seq<Op>, st: State, images: Images, key: Key, i: nat)
    requires NamesApart(digest) && c > 0 && Lived(digest, c, EMPTY_STORE, map[], ops, st, images)
    requires forall n | 0 <= n < |ops| :: Calm(digest, c, ops[n])
    requires key in st.backups && i < |st.backups[key]|
    ensures key in images && i < |images[key]|
    ensures st.backups[key][i].name == images[key][i].name
    ensures ReadIndex(st.chunks, st.backups[key][i].index) == Ok(images[key][i].bytes)
  {
    HistoryKeepsGood(digest, c, EMPTY_STORE, map[], ops, st, images);
    EveryRestoreIsRight(digest, c, ops, st, images, key, i);
    assert AllComplete(st.chunks, st.backups[key]);
  }
}
