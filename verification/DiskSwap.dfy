/**
The restore of a stopped VM's disks, all or nothing: every image staged beside its disk, then the disks swapped by
renames, any of which can fail.
*/
module DiskSwap {
  import opened Wrappers

  datatype Path = Path(dir: string, name: string)
  type Content = seq<int>
  type Files = map<Path, Content>

  /** A disk, its staged image, and where the disk is kept aside during the swap. */
  datatype Staged = Staged(dest: Path, temp: Path, previous: Path)

  function At(f: Files, p: Path): Option<Content>
  {
    if p in f then Some(f[p]) else None
  }

  /** What a disk's three names hold. */
  datatype Slot = Slot(dest: Option<Content>, temp: Option<Content>, previous: Option<Content>)

  function View(f: Files, s: Staged): Slot
  {
    Slot(At(f, s.dest), At(f, s.temp), At(f, s.previous))
  }

  function Names(s: Staged): set<Path>
  {
    {s.dest, s.temp, s.previous}
  }

  predicate Separate(staged: seq<Staged>)
  {
    && (forall i | 0 <= i < |staged| ::
          var s := staged[i]; s.dest != s.temp && s.dest != s.previous && s.temp != s.previous)
    && (forall i, j | 0 <= i < j < |staged| :: Names(staged[i]) !! Names(staged[j]))
  }

  /** Files of no disk of the restore are as they were. */
  ghost predicate Elsewhere(f: Files, before: Files, staged: seq<Staged>)
  {
    forall p | forall i | 0 <= i < |staged| :: p !in Names(staged[i]) :: At(f, p) == At(before, p)
  }

  /** The disk's old content, if it has one, is on disk, in its place or aside. */
  ghost predicate OldKept(f: Files, s: Staged, first: Slot)
  {
    first.dest.Some? ==> At(f, s.dest) == first.dest || At(f, s.previous) == first.dest
  }

  /** Of disks that, once staged, hold `first`: no old content is lost, or every image is in place. */
  ghost predicate Recoverable(f: Files, staged: seq<Staged>, first: seq<Slot>)
    requires |first| == |staged|
  {
    || (forall i | 0 <= i < |staged| :: OldKept(f, staged[i], first[i]))
    || (forall i | 0 <= i < |staged| :: At(f, staged[i].dest) == first[i].temp)
  }

  class FileSystem {
    var files: Files
    ghost var seen: seq<Files>  // every state it has been in

    /** One rename: it works or it fails, leaving everything as it was. */
    method Rename(a: Path, b: Path, works: bool) returns (ok: bool)
      requires a in files && a != b
      modifies this
      ensures ok == works
      ensures files == if ok then (old(files) - {a})[b := old(files)[a]] else old(files)
      ensures seen == old(seen) + [files]
    {
      ok := works;
      if ok {
        files := (files - {a})[b := files[a]];
      }
      seen := seen + [files];
    }

    method Write(p: Path, content: Content)
      modifies this
      ensures files == old(files)[p := content] && seen == old(seen) + [files]
    {
      files := files[p := content];
      seen := seen + [files];
    }

    method Unlink(p: Path)
      modifies this
      ensures files == old(files) - {p} && seen == old(seen) + [files]
    {
      files := files - {p};
      seen := seen + [files];
    }
  }

  /** A rename within one disk's names shows in that disk's names only. */
  lemma RenameTouchesOne(f: Files, staged: seq<Staged>, i: nat, a: Path, b: Path)
    requires Separate(staged) && i < |staged| && a in Names(staged[i]) && b in Names(staged[i]) && a in f && a != b
    ensures var g := (f - {a})[b := f[a]];
      && (forall j | 0 <= j < |staged| && j != i :: View(g, staged[j]) == View(f, staged[j]))
      && (forall p | p !in Names(staged[i]) :: At(g, p) == At(f, p))
  {
    forall j | 0 <= j < |staged| && j != i
      ensures a !in Names(staged[j]) && b !in Names(staged[j])
    {
      if j < i {
        assert Names(staged[j]) !! Names(staged[i]);
      } else {
        assert Names(staged[i]) !! Names(staged[j]);
      }
    }
  }

  lemma UnlinkTouchesOne(f: Files, staged: seq<Staged>, i: nat, p: Path)
    requires Separate(staged) && i < |staged| && p in Names(staged[i])
    ensures var g := f - {p};
      && (forall j | 0 <= j < |staged| && j != i :: View(g, staged[j]) == View(f, staged[j]))
      && (forall q | q !in Names(staged[i]) :: At(g, q) == At(f, q))
  {
    forall j | 0 <= j < |staged| && j != i
      ensures p !in Names(staged[j])
    {
      if j < i {
        assert Names(staged[j]) !! Names(staged[i]);
      } else {
        assert Names(staged[i]) !! Names(staged[j]);
      }
    }
  }

  // ---- One disk at a time ----

  datatype Change =
    | Aside  // the disk kept aside
    | InPlace  // the image in its place
    | Back  // the disk put back
    | DropTemp
    | DropPrevious

  function Changed(v: Slot, change: Change): Slot
  {
    match change
    case Aside => v.(dest := None, previous := v.dest)
    case InPlace => v.(temp := None, dest := v.temp)
    case Back => v.(previous := None, dest := v.previous)
    case DropTemp => v.(temp := None)
    case DropPrevious => v.(previous := None)
  }

  predicate Possible(v: Slot, change: Change)
  {
    match change
    case Aside => v.dest.Some?
    case InPlace => v.temp.Some?
    case Back => v.previous.Some?
    case DropTemp => true
    case DropPrevious => true
  }

  /** The disks' names hold `slots`, and every other file is as before. */
  ghost predicate Shows(f: Files, before: Files, staged: seq<Staged>, slots: seq<Slot>)
  {
    && |slots| == |staged| && Elsewhere(f, before, staged)
    && forall i | 0 <= i < |staged| :: View(f, staged[i]) == slots[i]
  }

  lemma RenameShows(
    f: Files, before: Files, staged: seq<Staged>, slots: seq<Slot>, i: nat, a: Path, b: Path, v: Slot)
    requires Separate(staged) && Shows(f, before, staged, slots) && i < |staged|
    requires a in Names(staged[i]) && b in Names(staged[i]) && a in f && a != b
    requires View((f - {a})[b := f[a]], staged[i]) == v
    ensures Shows((f - {a})[b := f[a]], before, staged, slots[i := v])
  {
    RenameTouchesOne(f, staged, i, a, b);
  }

  lemma UnlinkShows(f: Files, before: Files, staged: seq<Staged>, slots: seq<Slot>, i: nat, p: Path, v: Slot)
    requires Separate(staged) && Shows(f, before, staged, slots) && i < |staged| && p in Names(staged[i])
    requires View(f - {p}, staged[i]) == v
    ensures Shows(f - {p}, before, staged, slots[i := v])
  {
    UnlinkTouchesOne(f, staged, i, p);
  }

  /** One change to one disk's names; a rename can fail, and then nothing changes. */
  method Do(fs: FileSystem, staged: seq<Staged>, i: nat, change: Change, works: bool,
            ghost before: Files, ghost slots: seq<Slot>)
    returns (ok: bool)
    requires Separate(staged) && Shows(fs.files, before, staged, slots)
    requires i < |staged| && Possible(slots[i], change)
    modifies fs
    ensures ok == (works || change.DropTemp? || change.DropPrevious?)
    ensures Shows(fs.files, before, staged, if ok then slots[i := Changed(slots[i], change)] else slots)
    ensures fs.seen == old(fs.seen) + [fs.files]
  {
    var s := staged[i];
    ghost var f, v := fs.files, Changed(slots[i], change);
    match change
    case Aside =>
      RenameShows(f, before, staged, slots, i, s.dest, s.previous, v);
      ok := fs.Rename(s.dest, s.previous, works);
    case InPlace =>
      RenameShows(f, before, staged, slots, i, s.temp, s.dest, v);
      ok := fs.Rename(s.temp, s.dest, works);
    case Back =>
      RenameShows(f, before, staged, slots, i, s.previous, s.dest, v);
      ok := fs.Rename(s.previous, s.dest, works);
    case DropTemp =>
      UnlinkShows(f, before, staged, slots, i, s.temp, v);
      fs.Unlink(s.temp);
      ok := true;
    case DropPrevious =>
      UnlinkShows(f, before, staged, slots, i, s.previous, v);
      fs.Unlink(s.previous);
      ok := true;
  }

  // ---- What every state keeps ----

  predicate Kept(first: Slot, v: Slot)
  {
    first.dest.Some? ==> v.dest == first.dest || v.previous == first.dest
  }

  ghost predicate AllKept(first: seq<Slot>, slots: seq<Slot>)
  {
    |slots| == |first| && forall i | 0 <= i < |first| :: Kept(first[i], slots[i])
  }

  ghost predicate AllNew(first: seq<Slot>, slots: seq<Slot>)
  {
    |slots| == |first| && forall i | 0 <= i < |first| :: slots[i].dest == first[i].temp
  }

  lemma ShownIsRecoverable(f: Files, before: Files, staged: seq<Staged>, first: seq<Slot>, slots: seq<Slot>)
    requires Shows(f, before, staged, slots) && (AllKept(first, slots) || AllNew(first, slots))
    ensures Recoverable(f, staged, first)
  {
    forall i | 0 <= i < |staged|
      ensures View(f, staged[i]) == slots[i]
    {
    }
  }

  /** Every state since `from` is one from which the old disks or the new ones can be had. */
  ghost predicate SafeSince(seen: seq<Files>, from: nat, staged: seq<Staged>, first: seq<Slot>)
    requires |first| == |staged|
  {
    from <= |seen| && forall k | from <= k < |seen| :: Recoverable(seen[k], staged, first)
  }

  /** A swap under way: the files before it, its disks, what their names held, and how many states came before. */
  datatype Swap = Swap(before: Files, staged: seq<Staged>, first: seq<Slot>, from: nat)

  ghost predicate Along(x: Swap, files: Files, seen: seq<Files>, slots: seq<Slot>)
  {
    && Separate(x.staged) && Shows(x.before, x.before, x.staged, x.first) && Shows(files, x.before, x.staged, slots)
    && (AllKept(x.first, slots) || AllNew(x.first, slots)) && SafeSince(seen, x.from, x.staged, x.first)
    && forall i | 0 <= i < |x.first| :: x.first[i].temp.Some? && x.first[i].previous.None?
  }

  method Take(fs: FileSystem, staged: seq<Staged>, i: nat, change: Change, works: bool,
              ghost x: Swap, ghost slots: seq<Slot>)
    returns (ok: bool)
    requires x.staged == staged && Along(x, fs.files, fs.seen, slots) && i < |staged| && Possible(slots[i], change)
    requires var next := slots[i := Changed(slots[i], change)]; AllKept(x.first, next) || AllNew(x.first, next)
    modifies fs
    ensures ok == (works || change.DropTemp? || change.DropPrevious?)
    ensures Along(x, fs.files, fs.seen, if ok then slots[i := Changed(slots[i], change)] else slots)
  {
    ok := Do(fs, staged, i, change, works, x.before, slots);
    ghost var next := if ok then slots[i := Changed(slots[i], change)] else slots;
    ShownIsRecoverable(fs.files, x.before, staged, x.first, next);
  }

  // ---- The swap ----

  /** A disk once swapped: the image in its place, the old disk aside. */
  function Swapped(v: Slot): Slot
  {
    Slot(v.temp, None, v.dest)
  }

  ghost predicate Forwarded(first: seq<Slot>, slots: seq<Slot>, n: nat)
  {
    && |slots| == |first| && n <= |first|
    && (forall j | 0 <= j < n :: slots[j] == Swapped(first[j]))
    && (forall j | n <= j < |first| :: slots[j] == first[j])
  }

  /** Of each of the first `n` disks, whether it was there and so was kept aside. */
  ghost predicate Reached(first: seq<Slot>, swapped: seq<bool>, n: nat)
  {
    |swapped| == n <= |first| && forall j | 0 <= j < n :: swapped[j] == first[j].dest.Some?
  }

  /** The renames stopped at disk `n`; `swapped` says of each disk reached whether it was kept aside. */
  ghost predicate StoppedAt(first: seq<Slot>, slots: seq<Slot>, n: nat, swapped: seq<bool>)
  {
    && |slots| == |first| && n < |first|
    && (forall j | 0 <= j < n :: slots[j] == Swapped(first[j]))
    && (forall j | n < j < |first| :: slots[j] == first[j])
    && n <= |swapped| <= n + 1 && Reached(first, swapped, |swapped|)
    && slots[n] == if |swapped| > n && first[n].dest.Some? then Changed(first[n], Aside) else first[n]
  }

  /** Disk `i`'s renames both work: the one that keeps it aside, when it is there, and the one of its image. */
  predicate Swaps(first: Slot, works: nat -> bool, i: nat)
  {
    (first.dest.Some? ==> works(2 * i)) && works(2 * i + 1)
  }

  ghost predicate AllSwap(first: seq<Slot>, works: nat -> bool, n: nat)
  {
    n <= |first| && forall j | 0 <= j < n :: Swaps(first[j], works, j)
  }

  /** The first disk, from `i` on, one of whose renames fails, or the number of disks when none does. */
  function Failing(first: seq<Slot>, works: nat -> bool, i: nat): (n: nat)
    requires i <= |first|
    ensures i <= n <= |first| && (n < |first| ==> !Swaps(first[n], works, n))
    ensures forall j | i <= j < n :: Swaps(first[j], works, j)
    decreases |first| - i
  {
    if i < |first| && Swaps(first[i], works, i) then Failing(first, works, i + 1) else i
  }

  /** Keep a disk aside, then put its image in place. */
  method SwapOne(fs: FileSystem, staged: seq<Staged>, i: nat, aside: bool, inPlace: bool, swapped: seq<bool>,
                 ghost x: Swap, ghost slots: seq<Slot>)
    returns (ok: bool, more: seq<bool>, ghost next: seq<Slot>)
    requires x.staged == staged && Along(x, fs.files, fs.seen, slots) && i < |staged| && Forwarded(x.first, slots, i)
    requires Reached(x.first, swapped, i)
    modifies fs
    ensures Along(x, fs.files, fs.seen, next)
    ensures ok ==> Forwarded(x.first, next, i + 1) && Reached(x.first, more, i + 1)
    ensures !ok ==> StoppedAt(x.first, next, i, more)
    ensures ok <==> (x.first[i].dest.Some? ==> aside) && inPlace
  {
    more, next := swapped, slots;
    var there := staged[i].dest in fs.files;
    assert there == slots[i].dest.Some?;
    if there {
      ok := Take(fs, staged, i, Aside, aside, x, next);
      if !ok {
        return;
      }
      next := next[i := Changed(next[i], Aside)];
    }
    more := more + [there];
    ok := Take(fs, staged, i, InPlace, inPlace, x, next);
    if ok {
      next := next[i := Changed(next[i], InPlace)];
    }
  }

  /** What a disk's names hold after a rollback: a disk that was there is back. One that was not keeps its image. */
  function RolledBack(first: Slot, v: Slot): Slot
  {
    if first.dest.Some? then v.(dest := first.dest, previous := None) else v
  }

  ghost predicate RollingBack(first: seq<Slot>, stopped: seq<Slot>, slots: seq<Slot>, swapped: seq<bool>, n: nat)
  {
    && |slots| == |stopped| == |first| && n <= |swapped| <= |first|
    && (forall j | 0 <= j < |first| && !(n <= j < |swapped|) :: slots[j] == stopped[j])
    && (forall j | n <= j < |swapped| :: slots[j] == RolledBack(first[j], stopped[j]))
  }

  method Rollback(fs: FileSystem, staged: seq<Staged>, swapped: seq<bool>, ghost n: nat, ghost x: Swap,
                  ghost stopped: seq<Slot>)
    returns (ghost slots: seq<Slot>)
    requires x.staged == staged && Along(x, fs.files, fs.seen, stopped) && StoppedAt(x.first, stopped, n, swapped)
    modifies fs
    ensures Along(x, fs.files, fs.seen, slots) && RollingBack(x.first, stopped, slots, swapped, 0)
  {
    slots := stopped;
    for j := |swapped| downto 0
      invariant Along(x, fs.files, fs.seen, slots)
      invariant RollingBack(x.first, stopped, slots, swapped, j)
    {
      RollStep(x.first, stopped, slots, swapped, n, j);
      if swapped[j] {
        var ok := Take(fs, staged, j, Back, true, x, slots);
        slots := slots[j := Changed(slots[j], Back)];
      }
    }
  }

  lemma RollStep(
    first: seq<Slot>, stopped: seq<Slot>, slots: seq<Slot>, swapped: seq<bool>, n: nat, j: nat)
    requires StoppedAt(first, stopped, n, swapped) && j < |swapped|
    requires RollingBack(first, stopped, slots, swapped, j + 1)
    ensures var next := if swapped[j] then slots[j := Changed(slots[j], Back)] else slots;
      RollingBack(first, stopped, next, swapped, j) && AllKept(first, next)
    ensures swapped[j] ==> Possible(slots[j], Back)
  {
  }

  method DropTemps(fs: FileSystem, staged: seq<Staged>, ghost x: Swap, ghost rolled: seq<Slot>)
    returns (ghost slots: seq<Slot>)
    requires x.staged == staged && Along(x, fs.files, fs.seen, rolled) && AllKept(x.first, rolled)
    modifies fs
    ensures Along(x, fs.files, fs.seen, slots)
    ensures forall j | 0 <= j < |staged| :: slots[j] == Changed(rolled[j], DropTemp)
  {
    slots := rolled;
    for i := 0 to |staged|
      invariant Along(x, fs.files, fs.seen, slots) && AllKept(x.first, slots)
      invariant forall j | 0 <= j < |staged| :: slots[j] == if j < i then Changed(rolled[j], DropTemp) else rolled[j]
    {
      var ok := Take(fs, staged, i, DropTemp, true, x, slots);
      slots := slots[i := Changed(slots[i], DropTemp)];
    }
  }

  /** Every image is in place, and the first `n` old disks are gone. */
  ghost predicate Dropping(first: seq<Slot>, slots: seq<Slot>, n: nat)
  {
    && |slots| == |first| && n <= |first|
    && (forall j | 0 <= j < n :: slots[j] == Slot(first[j].temp, None, None))
    && (forall j | n <= j < |first| :: slots[j] == Swapped(first[j]))
  }

  lemma DropStep(first: seq<Slot>, slots: seq<Slot>, n: nat)
    requires Dropping(first, slots, n) && n < |first|
    ensures var next := slots[n := Changed(slots[n], DropPrevious)]; Dropping(first, next, n + 1) && AllNew(first, next)
    ensures first[n].dest.None? ==> slots == slots[n := Changed(slots[n], DropPrevious)]
  {
  }

  method DropOldDisks(fs: FileSystem, staged: seq<Staged>, swapped: seq<bool>, ghost x: Swap, ghost all: seq<Slot>)
    returns (ghost slots: seq<Slot>)
    requires x.staged == staged && Along(x, fs.files, fs.seen, all) && Forwarded(x.first, all, |staged|)
    requires Reached(x.first, swapped, |staged|)
    modifies fs
    ensures Along(x, fs.files, fs.seen, slots) && Dropping(x.first, slots, |staged|)
  {
    slots := all;
    for i := 0 to |staged|
      invariant Along(x, fs.files, fs.seen, slots) && Dropping(x.first, slots, i)
    {
      DropStep(x.first, slots, i);
      if swapped[i] {
        var ok := Take(fs, staged, i, DropPrevious, true, x, slots);
      }
      slots := slots[i := Changed(slots[i], DropPrevious)];
    }
  }

  // ---- All or nothing ----

  /** Staged and ready: the images are there, and nothing aside. */
  ghost predicate Ready(f: Files, staged: seq<Staged>)
  {
    && Separate(staged)
    && forall i | 0 <= i < |staged| :: staged[i].temp in f && staged[i].previous !in f
  }

  /** What a failure at disk `n` leaves of a disk: the old one, in its place; but the image of a disk before `n` that
  was not there. */
  function LeftBy(first: Slot, before: bool): Slot
  {
    Slot(if before && first.dest.None? then first.temp else first.dest, None, None)
  }

  lemma FailingIs(first: seq<Slot>, works: nat -> bool, n: nat)
    requires AllSwap(first, works, n) && (n < |first| ==> !Swaps(first[n], works, n))
    ensures Failing(first, works, 0) == n
  {
    var m := Failing(first, works, 0);
    assert m < |first| ==> !Swaps(first[m], works, m);
  }

  /** What a swap leaves: every image in its disk's place, or what the first disk whose renames fail makes of them. */
  function Outcome(first: seq<Slot>, works: nat -> bool): (slots: seq<Slot>)
    ensures |slots| == |first|
  {
    var n := Failing(first, works, 0);
    seq(|first|, j requires 0 <= j < |first| =>
      if n == |first| then Slot(first[j].temp, None, None) else LeftBy(first[j], j < n))
  }

  function Views(f: Files, staged: seq<Staged>): seq<Slot>
  {
    seq(|staged|, i requires 0 <= i < |staged| => View(f, staged[i]))
  }

  method Forward(fs: FileSystem, staged: seq<Staged>, works: nat -> bool, ghost x: Swap)
    returns (ok: bool, swapped: seq<bool>, ghost n: nat, ghost slots: seq<Slot>)
    requires x.staged == staged && Along(x, fs.files, fs.seen, x.first)
    modifies fs
    ensures Along(x, fs.files, fs.seen, slots)
    ensures ok ==> n == |staged| && Forwarded(x.first, slots, n) && Reached(x.first, swapped, n)
    ensures !ok ==> StoppedAt(x.first, slots, n, swapped) && !Swaps(x.first[n], works, n)
    ensures AllSwap(x.first, works, n)
  {
    slots := x.first;
    swapped, ok := [], true;
    for i := 0 to |staged|
      invariant ok && Along(x, fs.files, fs.seen, slots) && Forwarded(x.first, slots, i)
      invariant Reached(x.first, swapped, i) && AllSwap(x.first, works, i)
    {
      ok, swapped, slots := SwapOne(fs, staged, i, works(2 * i), works(2 * i + 1), swapped, x, slots);
      if !ok {
        n := i;
        return;
      }
    }
    n := |staged|;
  }

  lemma WhatIsLeft(
    first: seq<Slot>, stopped: seq<Slot>, rolled: seq<Slot>, swapped: seq<bool>, n: nat, j: nat)
    requires StoppedAt(first, stopped, n, swapped) && RollingBack(first, stopped, rolled, swapped, 0) && j < |first|
    requires first[j].previous.None?
    ensures Changed(rolled[j], DropTemp) == LeftBy(first[j], j < n)
    ensures AllKept(first, rolled)
  {
  }

  lemma OutcomeIs(first: seq<Slot>, works: nat -> bool, slots: seq<Slot>)
    requires |slots| == |first|
    requires var n := Failing(first, works, 0);
      if n == |first| then Dropping(first, slots, n)
      else forall j | 0 <= j < |first| :: slots[j] == LeftBy(first[j], j < n)
    ensures slots == Outcome(first, works)
  {
  }

  /** The disks put back, then the images deleted. */
  method GiveUp(fs: FileSystem, staged: seq<Staged>, swapped: seq<bool>, ghost n: nat, ghost x: Swap,
                ghost stopped: seq<Slot>)
    returns (ghost slots: seq<Slot>)
    requires x.staged == staged && Along(x, fs.files, fs.seen, stopped) && StoppedAt(x.first, stopped, n, swapped)
    modifies fs
    ensures Along(x, fs.files, fs.seen, slots)
    ensures forall j | 0 <= j < |staged| :: slots[j] == LeftBy(x.first[j], j < n)
  {
    var rolled := Rollback(fs, staged, swapped, n, x, stopped);
    forall j | 0 <= j < |staged|
      ensures Changed(rolled[j], DropTemp) == LeftBy(x.first[j], j < n) && AllKept(x.first, rolled)
    {
      WhatIsLeft(x.first, stopped, rolled, swapped, n, j);
    }
    slots := DropTemps(fs, staged, x, rolled);
  }

  /** The swap: on success every image is in its disk's place; on failure every disk that was there is back, and no
      image is left but in the place of a disk that was not there. It succeeds exactly when every rename works. In every
      state between, no old disk is lost before all the new ones are in place. */
  method SwapStaged(fs: FileSystem, staged: seq<Staged>, works: nat -> bool, ghost from: nat) returns (ok: bool)
    requires Ready(fs.files, staged) && SafeSince(fs.seen, from, staged, Views(fs.files, staged))
    modifies fs
    ensures ok <==> Failing(Views(old(fs.files), staged), works, 0) == |staged|
    ensures Shows(fs.files, old(fs.files), staged, Outcome(Views(old(fs.files), staged), works))
    ensures SafeSince(fs.seen, from, staged, Views(old(fs.files), staged))
  {
    ghost var x := Swap(fs.files, staged, Views(fs.files, staged), from);
    var swapped;
    ghost var n, stopped;
    ok, swapped, n, stopped := Forward(fs, staged, works, x);
    FailingIs(x.first, works, n);
    ghost var slots;
    if ok {
      slots := DropOldDisks(fs, staged, swapped, x, stopped);
    } else {
      slots := GiveUp(fs, staged, swapped, n, x, stopped);
    }
    OutcomeIs(x.first, works, slots);
  }

  /** Images staged for disks that may be there or not, and nothing aside. */
  ghost predicate Waiting(first: seq<Slot>)
  {
    forall j | 0 <= j < |first| :: first[j].temp.Some? && first[j].previous.None?
  }

  /** The swap leaves every disk as it was. */
  ghost predicate Unchanged(first: seq<Slot>, works: nat -> bool)
  {
    forall j | 0 <= j < |first| :: Outcome(first, works)[j].dest == first[j].dest
  }

  /** A swap that fails leaves every disk as it was if and only if each disk before the first whose renames fail was
  there. */
  lemma NothingChangedIff(first: seq<Slot>, works: nat -> bool)
    requires Waiting(first) && Failing(first, works, 0) < |first|
    ensures Unchanged(first, works) <==> forall j | 0 <= j < Failing(first, works, 0) :: first[j].dest.Some?
  {
    var n := Failing(first, works, 0);
    forall j | 0 <= j < |first|
      ensures Outcome(first, works)[j].dest == first[j].dest <==> j >= n || first[j].dest.Some?
    {
    }
  }

  /** Whatever rename fails, a swap that fails leaves every disk as it was: exactly when each disk but the last was
  there. */
  lemma NothingChangesWhateverFailsIff(first: seq<Slot>)
    requires Waiting(first)
    ensures (forall works | Failing(first, works, 0) < |first| :: Unchanged(first, works))
       <==> (forall j | 0 <= j < |first| - 1 :: first[j].dest.Some?)
  {
    if first != [] {
      var works := (k: nat) => k != 2 * |first| - 1;
      FailingIs(first, works, |first| - 1);
      NothingChangedIff(first, works);
    }
    forall works | Failing(first, works, 0) < |first| && forall j | 0 <= j < |first| - 1 :: first[j].dest.Some?
      ensures Unchanged(first, works)
    {
      NothingChangedIff(first, works);
    }
  }

  /** Two disks, the first not there, and the last rename fails: the first one's image stays in its place. */
  method ImageOfAbsentDiskStays(fs: FileSystem, staged: seq<Staged>) returns (ok: bool)
    requires Ready(fs.files, staged) && |staged| == 2 && staged[0].dest !in fs.files
    modifies fs
    ensures !ok && At(fs.files, staged[0].dest) == At(old(fs.files), staged[0].temp) != None
    ensures At(fs.files, staged[1].dest) == At(old(fs.files), staged[1].dest)
  {
    ghost var first := Views(fs.files, staged);
    var works := (k: nat) => k != 3;
    FailingIs(first, works, 1);
    ok := SwapStaged(fs, staged, works, |fs.seen|);
    assert View(fs.files, staged[0]) == Outcome(first, works)[0];
    assert View(fs.files, staged[1]) == Outcome(first, works)[1];
  }

  // ---- The restore ----

  datatype Disk = Disk(dev: string, dest: Path)

  /** An image converted beside its disk; or what a conversion that failed left there. */
  datatype Attempt = Complete | Broken(left: Option<Content>)

  datatype RestoreError = Mismatch | NoRoom | NoDisks | StagingFailed | CheckpointsKept | SwapFailed

  /** The first occurrence only. */
  function ReplaceFirst(s: string, pattern: string, other: string): string
    requires pattern != ""
  {
    if |s| < |pattern| then s
    else if s[..|pattern|] == pattern then other + s[|pattern|..]
    else [s[0]] + ReplaceFirst(s[1..], pattern, other)
  }

  const STAGED := ".restore-"
  const ASIDE := ".pre-restore-"

  function TempOf(dest: Path, token: string): Path
  {
    Path(dest.dir, "." + dest.name + STAGED + token)
  }

  function StagedOf(dest: Path, token: string): Staged
  {
    var temp := TempOf(dest, token);
    Staged(dest, temp, Path(dest.dir, ReplaceFirst(temp.name, STAGED, ASIDE)))
  }

  function AllStaged(disks: seq<Disk>, token: string): seq<Staged>
  {
    seq(|disks|, i requires 0 <= i < |disks| => StagedOf(disks[i].dest, token))
  }

  lemma SameFiles(f: Files, before: Files, staged: seq<Staged>)
    requires Shows(f, before, staged, Views(before, staged))
    ensures f == before
  {
    forall p
      ensures At(f, p) == At(before, p)
    {
      if i :| 0 <= i < |staged| && p in Names(staged[i]) {
        assert View(f, staged[i]) == Views(before, staged)[i] == View(before, staged[i]);
      }
    }
    forall p
      ensures p in f <==> p in before
      ensures p in f ==> f[p] == before[p]
    {
      assert At(f, p) == At(before, p);
    }
  }

  lemma WriteTouchesOne(f: Files, staged: seq<Staged>, i: nat, content: Content)
    requires Separate(staged) && i < |staged|
    ensures var g := f[staged[i].temp := content];
      && (forall j | 0 <= j < |staged| && j != i :: View(g, staged[j]) == View(f, staged[j]))
      && (forall p | p !in Names(staged[i]) :: At(g, p) == At(f, p))
  {
    forall j | 0 <= j < |staged| && j != i
      ensures staged[i].temp !in Names(staged[j])
    {
      assert staged[i].temp in Names(staged[i]);
      if j < i {
        assert Names(staged[j]) !! Names(staged[i]);
      } else {
        assert Names(staged[i]) !! Names(staged[j]);
      }
    }
  }

  lemma WriteShows(
    f: Files, before: Files, staged: seq<Staged>, slots: seq<Slot>, i: nat, content: Content)
    requires Separate(staged) && Shows(f, before, staged, slots) && i < |staged|
    ensures Shows(f[staged[i].temp := content], before, staged, slots[i := slots[i].(temp := Some(content))])
  {
    WriteTouchesOne(f, staged, i, content);
  }

  /** Names no file has, but the disks' own. */
  ghost predicate Fresh(f: Files, staged: seq<Staged>)
  {
    Separate(staged) && forall i | 0 <= i < |staged| :: staged[i].temp !in f && staged[i].previous !in f
  }

  predicate Imaged(disks: seq<Disk>, images: map<string, Content>)
  {
    forall i | 0 <= i < |disks| :: disks[i].dev in images
  }

  /** What the names hold once the first `n` images are staged. */
  ghost function StagedSlots(
    before: Files, staged: seq<Staged>, disks: seq<Disk>, images: map<string, Content>, n: nat): seq<Slot>
    requires |staged| == |disks| && Imaged(disks, images)
  {
    seq(|staged|, i requires 0 <= i < |staged| =>
      var v := View(before, staged[i]);
      if i < n then v.(temp := Some(images[disks[i].dev])) else v)
  }

  /** Staging, and giving it up, leave the disks where they are. */
  lemma DisksStayRecoverable(f: Files, before: Files, staged: seq<Staged>, slots: seq<Slot>, first: seq<Slot>)
    requires Shows(f, before, staged, slots) && SameDisks(first, before, staged)
    requires forall j | 0 <= j < |staged| :: slots[j].dest == At(before, staged[j].dest)
    ensures Recoverable(f, staged, first)
  {
    forall j | 0 <= j < |staged|
      ensures OldKept(f, staged[j], first[j])
    {
      assert View(f, staged[j]) == slots[j];
    }
  }

  ghost predicate SameDisks(first: seq<Slot>, before: Files, staged: seq<Staged>)
  {
    |first| == |staged| && forall j | 0 <= j < |staged| :: first[j].dest == At(before, staged[j].dest)
  }

  method UnlinkTemps(fs: FileSystem, staged: seq<Staged>, n: nat, ghost before: Files, ghost slots: seq<Slot>,
                     ghost first: seq<Slot>, ghost from: nat)
    requires Fresh(before, staged) && n <= |staged| && Shows(fs.files, before, staged, slots)
    requires forall j | 0 <= j < |staged| :: Changed(slots[j], DropTemp) == View(before, staged[j])
    requires forall j | n <= j < |staged| :: slots[j] == View(before, staged[j])
    requires SameDisks(first, before, staged) && SafeSince(fs.seen, from, staged, first)
    modifies fs
    ensures fs.files == before && SafeSince(fs.seen, from, staged, first)
  {
    ghost var now := slots;
    for i := 0 to n
      invariant Shows(fs.files, before, staged, now) && SafeSince(fs.seen, from, staged, first)
      invariant forall j | 0 <= j < |staged| :: now[j] == if j < i then View(before, staged[j]) else slots[j]
    {
      UnlinkShows(fs.files, before, staged, now, i, staged[i].temp, Changed(now[i], DropTemp));
      fs.Unlink(staged[i].temp);
      now := now[i := Changed(now[i], DropTemp)];
      DisksStayRecoverable(fs.files, before, staged, now, first);
    }
    assert now == Views(before, staged);
    SameFiles(fs.files, before, staged);
  }

  lemma StagedNext(before: Files, staged: seq<Staged>, disks: seq<Disk>, images: map<string, Content>, i: nat)
    requires |staged| == |disks| && Imaged(disks, images) && Fresh(before, staged) && i < |disks|
    ensures var slots := StagedSlots(before, staged, disks, images, i);
      && slots[i := slots[i].(temp := Some(images[disks[i].dev]))] == StagedSlots(before, staged, disks, images, i + 1)
      && (forall j | 0 <= j < |staged| :: Changed(slots[j], DropTemp) == View(before, staged[j]))
      && (forall j | i <= j < |staged| :: slots[j] == View(before, staged[j]))
  {
  }

  /** Every image beside its disk; a failure leaves nothing of it. */
  method Stage(fs: FileSystem, disks: seq<Disk>, staged: seq<Staged>, images: map<string, Content>,
               attempts: nat -> Attempt)
    returns (ok: bool)
    requires |staged| == |disks| && Fresh(fs.files, staged) && Imaged(disks, images)
    modifies fs
    ensures ok ==> Shows(fs.files, old(fs.files), staged,
                         StagedSlots(old(fs.files), staged, disks, images, |disks|))
    ensures !ok ==> fs.files == old(fs.files)
    ensures ok <==> AllComplete(disks, attempts)
    ensures SafeSince(fs.seen, |old(fs.seen)|, staged, StagedSlots(old(fs.files), staged, disks, images, |disks|))
  {
    ghost var before, from := fs.files, |fs.seen|;
    ghost var first := StagedSlots(before, staged, disks, images, |disks|);
    ghost var slots := StagedSlots(before, staged, disks, images, 0);
    for i := 0 to |disks|
      invariant slots == StagedSlots(before, staged, disks, images, i)
      invariant Shows(fs.files, before, staged, slots) && forall j | 0 <= j < i :: attempts(j).Complete?
      invariant SafeSince(fs.seen, from, staged, first)
    {
      StagedNext(before, staged, disks, images, i);
      ok, slots := StageOne(fs, staged, i, images[disks[i].dev], attempts(i), before, slots, first, from);
      if !ok {
        UnlinkTemps(fs, staged, i + 1, before, slots, first, from);
        return;
      }
    }
    ok := true;
  }

  method StageOne(fs: FileSystem, staged: seq<Staged>, i: nat, image: Content, attempt: Attempt,
                  ghost before: Files, ghost slots: seq<Slot>, ghost first: seq<Slot>, ghost from: nat)
    returns (ok: bool, ghost next: seq<Slot>)
    requires Fresh(before, staged) && i < |staged| && Shows(fs.files, before, staged, slots)
    requires forall j | 0 <= j < |staged| :: slots[j].dest == At(before, staged[j].dest)
    requires SameDisks(first, before, staged) && SafeSince(fs.seen, from, staged, first)
    modifies fs
    ensures ok == attempt.Complete? && Shows(fs.files, before, staged, next)
    ensures ok ==> next == slots[i := slots[i].(temp := Some(image))]
    ensures exists temp :: next == slots[i := slots[i].(temp := temp)]
    ensures SafeSince(fs.seen, from, staged, first)
  {
    next := slots;
    var content := if attempt.Complete? then Some(image) else attempt.left;
    if content.Some? {
      WriteShows(fs.files, before, staged, slots, i, content.value);
      fs.Write(staged[i].temp, content.value);
      next := slots[i := slots[i].(temp := content)];
      DisksStayRecoverable(fs.files, before, staged, next, first);
    }
    assert next == slots[i := slots[i].(temp := if content.Some? then content else slots[i].temp)];
    ok := attempt.Complete?;
  }

  ghost predicate AllComplete(disks: seq<Disk>, attempts: nat -> Attempt)
  {
    forall i | 0 <= i < |disks| :: attempts(i).Complete?
  }

  function Dests(disks: seq<Disk>): seq<Path>
  {
    seq(|disks|, i requires 0 <= i < |disks| => disks[i].dest)
  }

  method StageAndSwap(fs: FileSystem, disks: seq<Disk>, staged: seq<Staged>, images: map<string, Content>,
                      attempts: nat -> Attempt, checkpointsDropped: bool, works: nat -> bool)
    returns (r: Result<(), RestoreError>)
    requires |staged| == |disks| && Fresh(fs.files, staged) && Imaged(disks, images)
    modifies fs
    ensures r == Err(StagingFailed) <==> !AllComplete(disks, attempts)
    ensures r == Err(CheckpointsKept) <==> AllComplete(disks, attempts) && !checkpointsDropped
    ensures r == Err(StagingFailed) || r == Err(CheckpointsKept) ==> fs.files == old(fs.files)
    ensures AllComplete(disks, attempts) && checkpointsDropped ==>
      var first := StagedSlots(old(fs.files), staged, disks, images, |disks|);
      && Shows(fs.files, old(fs.files), staged, Outcome(first, works))
      && r == if Failing(first, works, 0) == |disks| then Ok(()) else Err(SwapFailed)
    ensures SafeSince(fs.seen, |old(fs.seen)|, staged, StagedSlots(old(fs.files), staged, disks, images, |disks|))
  {
    ghost var before, from := fs.files, |fs.seen|;
    ghost var first := StagedSlots(before, staged, disks, images, |disks|);
    var ok := Stage(fs, disks, staged, images, attempts);
    if !ok {
      return Err(StagingFailed);
    }
    StagedIsReady(fs.files, before, staged, disks, images);
    if !checkpointsDropped {
      UnlinkTemps(fs, staged, |staged|, before, first, first, from);
      return Err(CheckpointsKept);
    }
    ghost var ready := fs.files;
    ok := SwapStaged(fs, staged, works, from);
    ShowsSinceBefore(fs.files, ready, before, staged, first, Outcome(first, works));
    r := if ok then Ok(()) else Err(SwapFailed);
  }

  lemma ShowsSinceBefore(
    f: Files, ready: Files, before: Files, staged: seq<Staged>, first: seq<Slot>, slots: seq<Slot>)
    requires Shows(ready, before, staged, first) && Shows(f, ready, staged, slots)
    ensures Shows(f, before, staged, slots)
  {
  }

  /** A restore gets as far as its swap. */
  ghost predicate Swapping(disks: seq<Disk>, images: map<string, Content>, room: bool, attempts: nat -> Attempt,
                           checkpointsDropped: bool)
  {
    Matching(disks, images) && room && disks != [] && AllComplete(disks, attempts) && checkpointsDropped
  }

  /** The whole restore. An error before the swap leaves every file as it was; the swap's outcome is that of its
  renames. In every state from the first staged byte on, no old disk is lost before all the new ones are in place. */
  method RestoreOverwrite(fs: FileSystem, disks: seq<Disk>, images: map<string, Content>, token: string,
                          room: bool, attempts: nat -> Attempt, checkpointsDropped: bool, works: nat -> bool)
    returns (r: Result<seq<Path>, RestoreError>)
    requires Fresh(fs.files, AllStaged(disks, token))
    modifies fs
    ensures r == Err(Mismatch) <==> (set i | 0 <= i < |disks| :: disks[i].dev) != images.Keys
    ensures r == Err(Mismatch) <==> !Matching(disks, images)
    ensures r.Ok? || r == Err(SwapFailed) <==> Swapping(disks, images, room, attempts, checkpointsDropped)
    ensures r.Err? && r.error != SwapFailed ==> fs.files == old(fs.files)
    ensures Swapping(disks, images, room, attempts, checkpointsDropped) ==>
      var staged := AllStaged(disks, token);
      var first := StagedSlots(old(fs.files), staged, disks, images, |disks|);
      && Shows(fs.files, old(fs.files), staged, Outcome(first, works))
      && r == if Failing(first, works, 0) == |disks| then Ok(Dests(disks)) else Err(SwapFailed)
    ensures Matching(disks, images) ==>
      var staged := AllStaged(disks, token);
      SafeSince(fs.seen, |old(fs.seen)|, staged, StagedSlots(old(fs.files), staged, disks, images, |disks|))
  {
    MatchingIsEqual(disks, images);
    var missing := exists i | 0 <= i < |disks| :: disks[i].dev !in images;
    var extra := exists dev | dev in images :: !HasDev(disks, dev);
    if missing || extra {
      return Err(Mismatch);
    }
    if !room {
      return Err(NoRoom);
    }
    if disks == [] {
      return Err(NoDisks);
    }
    var done := StageAndSwap(fs, disks, AllStaged(disks, token), images, attempts, checkpointsDropped, works);
    r := if done.Ok? then Ok(Dests(disks)) else Err(done.error);
  }

  /** An image for each disk, and no other. */
  predicate Matching(disks: seq<Disk>, images: map<string, Content>)
  {
    Imaged(disks, images) && forall dev | dev in images :: HasDev(disks, dev)
  }

  lemma MatchingIsEqual(disks: seq<Disk>, images: map<string, Content>)
    ensures Matching(disks, images) <==> (set i | 0 <= i < |disks| :: disks[i].dev) == images.Keys
  {
    var devs := set i | 0 <= i < |disks| :: disks[i].dev;
    assert forall i | 0 <= i < |disks| :: disks[i].dev in devs;
    assert forall dev :: dev in devs <==> HasDev(disks, dev);
  }

  predicate HasDev(disks: seq<Disk>, dev: string)
  {
    exists i | 0 <= i < |disks| :: disks[i].dev == dev
  }

  lemma StagedIsReady(
    f: Files, before: Files, staged: seq<Staged>, disks: seq<Disk>, images: map<string, Content>)
    requires |staged| == |disks| && Imaged(disks, images) && Fresh(before, staged)
    requires Shows(f, before, staged, StagedSlots(before, staged, disks, images, |disks|))
    ensures Ready(f, staged) && Views(f, staged) == StagedSlots(before, staged, disks, images, |disks|)
    ensures SameDisks(StagedSlots(before, staged, disks, images, |disks|), before, staged)
    ensures forall j | 0 <= j < |staged| ::
      Changed(StagedSlots(before, staged, disks, images, |disks|)[j], DropTemp) == View(before, staged[j])
  {
    forall j | 0 <= j < |staged|
      ensures View(f, staged[j]) == Slot(At(before, staged[j].dest), Some(images[disks[j].dev]), None)
    {
      assert View(f, staged[j]) == StagedSlots(before, staged, disks, images, |disks|)[j];
    }
  }
}
