/**
A copy job: per VM, the policy is applied to the backups of both stores together; what it keeps and the target lacks is
copied, and what it does not keep is removed from the target. The removal compares against the whole target, not against
the VM's own backups, so the job does what it is for exactly when the target is empty or there is one VM at most.
*/
module StoreSync {
  import opened Wrappers
  import opened ChunkCodec
  import opened ChunkStore
  import opened BackupStore
  import opened Retention
  import opened RetentionChoice

  type Choice = set<Key> -> set<Key>

  function OfVm(keys: set<Key>, vm: string): set<Key>
  {
    set k | k in keys && k.vm == vm
  }

  /** What the policy keeps of one VM's backups, wherever they are. */
  function Keep(kept: Choice, there: set<Key>, here: set<Key>, vm: string): set<Key>
  {
    kept(OfVm(there + here, vm))
  }

  /** The target's backups as the job goes, and what it has copied and removed. */
  datatype Tally = Tally(keys: set<Key>, copied: set<Key>, removed: set<Key>)

  /** A pass that keeps `keep`. `here` is the target as it was when the job began. A removal of what is gone already
  fails. */
  function PassKeeping(keep: set<Key>, here: set<Key>, t: Tally): Result<Tally, ()>
  {
    var more := t.keys + (keep - here);
    if here - keep <= more
    then Ok(Tally(more - (here - keep), t.copied + (keep - here), t.removed + (here - keep)))
    else Err(())
  }

  function Pass(kept: Choice, there: set<Key>, here: set<Key>, t: Tally, vm: string): Result<Tally, ()>
  {
    PassKeeping(Keep(kept, there, here, vm), here, t)
  }

  function Passes(kept: Choice, there: set<Key>, here: set<Key>, t: Tally, vms: seq<string>): Result<Tally, ()>
    decreases |vms|
  {
    if vms == [] then Ok(t)
    else
      match Pass(kept, there, here, t, vms[0])
      case Ok(next) => Passes(kept, there, here, next, vms[1..])
      case Err(e) => Err(e)
  }

  function Run(kept: Choice, there: set<Key>, here: set<Key>, vms: seq<string>): Result<Tally, ()>
  {
    Passes(kept, there, here, Tally(here, {}, {}), vms)
  }

  /** The order a job takes the VMs in: each VM of either store once. */
  ghost predicate Enumerates(vms: seq<string>, keys: set<Key>)
  {
    && (forall i, j | 0 <= i < j < |vms| :: vms[i] != vms[j])
    && (forall k | k in keys :: k.vm in vms)
    && (forall vm | vm in vms :: exists k | k in keys :: k.vm == vm)
  }

  ghost predicate OneVm(keys: set<Key>)
  {
    forall k, l | k in keys && l in keys :: k.vm == l.vm
  }

  ghost predicate SteadyAt(kept: Choice, keys: set<Key>, enough: set<Key>)
  {
    kept(keys) <= keys && (kept(keys) <= enough <= keys ==> kept(enough) == kept(keys))
  }

  /** A choice of some of a VM's keys, which stays the same while all it keeps is there. */
  ghost predicate Steady(kept: Choice, keys: set<Key>)
  {
    forall part, enough | part <= keys && OneVm(part) :: SteadyAt(kept, part, enough)
  }

  /** Per VM, exactly what the policy keeps of both stores. */
  function Wanted(kept: Choice, there: set<Key>, here: set<Key>): set<Key>
  {
    set k | k in there + here && k in Keep(kept, there, here, k.vm)
  }

  ghost predicate Right(kept: Choice, there: set<Key>, here: set<Key>, vms: seq<string>)
  {
    var r := Run(kept, there, here, vms);
    r.Ok? && r.value.keys == Wanted(kept, there, here)
  }

  lemma KeepIsOfVm(kept: Choice, there: set<Key>, here: set<Key>, vm: string)
    requires Steady(kept, there + here)
    ensures Keep(kept, there, here, vm) <= OfVm(there + here, vm)
  {
    assert SteadyAt(kept, OfVm(there + here, vm), {});
  }

  // ---- When the job does what it is for ----

  lemma PassFills(kept: Choice, there: set<Key>, t: Tally, vm: string)
    ensures var keep := Keep(kept, there, {}, vm);
      Pass(kept, there, {}, t, vm) == Ok(Tally(t.keys + keep, t.copied + keep, t.removed))
  {
    var keep := Keep(kept, there, {}, vm);
    assert keep - {} == keep && {} - keep == {};
    assert t.keys + keep - {} == t.keys + keep && t.removed + {} == t.removed;
  }

  /** Into an empty target, each pass adds its VM's share. */
  lemma {:induction false} FillingPasses(kept: Choice, there: set<Key>, t: Tally, vms: seq<string>)
    requires Steady(kept, there + {})
    ensures var r := Passes(kept, there, {}, t, vms);
      r.Ok? && forall k :: k in r.value.keys <==> k in t.keys || (k in Wanted(kept, there, {}) && k.vm in vms)
    decreases |vms|
  {
    if vms != [] {
      PassFills(kept, there, t, vms[0]);
      KeepIsOfVm(kept, there, {}, vms[0]);
      FillingPasses(kept, there, Pass(kept, there, {}, t, vms[0]).value, vms[1..]);
    }
  }

  lemma OnePass(kept: Choice, there: set<Key>, here: set<Key>, vms: seq<string>)
    requires |vms| == 1
    ensures var keep := Keep(kept, there, here, vms[0]);
      Run(kept, there, here, vms) == Ok(Tally(keep, keep - here, here - keep))
  {
    var keep := Keep(kept, there, here, vms[0]);
    assert here + (keep - here) - (here - keep) == keep;
    assert {} + (keep - here) == keep - here && {} + (here - keep) == here - keep;
    var next := Tally(keep, keep - here, here - keep);
    assert Pass(kept, there, here, Tally(here, {}, {}), vms[0]) == Ok(next);
    assert Passes(kept, there, here, next, vms[1..]) == Ok(next);
  }

  lemma OneVmOnePass(keys: set<Key>, vms: seq<string>)
    requires Enumerates(vms, keys) && OneVm(keys)
    ensures |vms| <= 1 && (keys == {} <==> vms == [])
    ensures forall k | k in keys :: [k.vm] == vms
  {
    if |vms| > 1 {
      SameVm(keys, vms, vms[0], vms[1]);
    } else if |vms| == 1 {
      assert vms[0] in vms;
      forall k | k in keys
        ensures [k.vm] == vms
      {
        SameVm(keys, vms, k.vm, vms[0]);
      }
    }
  }

  lemma SameVm(keys: set<Key>, vms: seq<string>, a: string, b: string)
    requires Enumerates(vms, keys) && OneVm(keys) && a in vms && b in vms
    ensures a == b
  {
  }

  lemma OneVmIsRight(kept: Choice, there: set<Key>, here: set<Key>, vms: seq<string>)
    requires Steady(kept, there + here) && Enumerates(vms, there + here) && OneVm(there + here)
    ensures Right(kept, there, here, vms)
  {
    OneVmOnePass(there + here, vms);
    if vms != [] {
      KeepIsOfVm(kept, there, here, vms[0]);
      OnePass(kept, there, here, vms);
    }
  }

  /** A pass of another VM, or one that does not keep it, takes a key the target held at the start; nothing puts it
  back. */
  lemma {:induction false} HeldKeyGoes(
    kept: Choice, there: set<Key>, here: set<Key>, t: Tally, vms: seq<string>, h: Key)
    requires h in here
    requires h !in t.keys || exists vm | vm in vms :: h !in Keep(kept, there, here, vm)
    ensures var r := Passes(kept, there, here, t, vms);
      r.Ok? ==> h !in r.value.keys && (h !in t.keys ==> forall vm | vm in vms :: h in Keep(kept, there, here, vm))
    decreases |vms|
  {
    if vms != [] {
      var next := Pass(kept, there, here, t, vms[0]);
      if next.Ok? {
        assert vms == [vms[0]] + vms[1..];
        HeldKeyGoes(kept, there, here, next.value, vms[1..], h);
      }
    }
  }

  lemma OtherwiseWrong(kept: Choice, there: set<Key>, here: set<Key>, vms: seq<string>)
    requires Steady(kept, there + here) && Enumerates(vms, there + here)
    requires here != {} && !OneVm(there + here)
    ensures !Right(kept, there, here, vms)
  {
    var h :| h in here;
    var k, l :| k in there + here && l in there + here && k.vm != l.vm;
    var other := if k.vm == h.vm then l.vm else k.vm;
    KeepIsOfVm(kept, there, here, other);
    assert other in vms && h !in Keep(kept, there, here, other);
    HeldKeyGoes(kept, there, here, Tally(here, {}, {}), vms, h);
    if h !in Wanted(kept, there, here) {
      assert |vms| > 1 by {
        assert h.vm in vms;
      }
      var next := Pass(kept, there, here, Tally(here, {}, {}), vms[0]);
      forall vm | vm in vms
        ensures h !in Keep(kept, there, here, vm)
      {
        KeepIsOfVm(kept, there, here, vm);
      }
      if next.Ok? {
        assert vms[1] in vms[1..] && vms[1] in vms;
        HeldKeyGoes(kept, there, here, next.value, vms[1..], h);
      }
    }
  }

  /** After a job the target holds, per VM, exactly what the policy keeps of both stores: if and only if the target was
  empty or the two stores hold backups of one VM at most. */
  lemma RightIff(kept: Choice, there: set<Key>, here: set<Key>, vms: seq<string>)
    requires Steady(kept, there + here) && Enumerates(vms, there + here)
    ensures Right(kept, there, here, vms) <==> here == {} || OneVm(there + here)
  {
    if OneVm(there + here) {
      OneVmIsRight(kept, there, here, vms);
    } else if here == {} {
      FillingPasses(kept, there, Tally({}, {}, {}), vms);
    } else {
      OtherwiseWrong(kept, there, here, vms);
    }
  }

  // ---- Running again ----

  /** One VM: the job run again, after any deletions at the source, copies and removes nothing. */
  lemma AgainChangesNothing(
    kept: Choice, there: set<Key>, here: set<Key>, left: set<Key>, vms: seq<string>)
    requires Steady(kept, there + here) && OneVm(there + here) && left <= there
    requires Enumerates(vms, left + Wanted(kept, there, here))
    ensures var held := Wanted(kept, there, here); Run(kept, left, held, vms) == Ok(Tally(held, {}, {}))
  {
    var held := Wanted(kept, there, here);
    OneVmOnePass(left + held, vms);
    if vms == [] {
      assert held == {};
    } else {
      assert vms[0] in vms;
      var k :| k in left + held && k.vm == vms[0];
      KeepAgain(kept, there, here, left, k);
      OnePass(kept, left, held, vms);
      assert held - held == {};
    }
  }

  lemma KeepAgain(kept: Choice, there: set<Key>, here: set<Key>, left: set<Key>, any: Key)
    requires Steady(kept, there + here) && OneVm(there + here) && left <= there && any in there + here
    ensures var held := Wanted(kept, there, here); Keep(kept, left, held, any.vm) == held
  {
    var all, held := there + here, Wanted(kept, there, here);
    OneVmWanted(kept, there, here, any);
    assert OfVm(left + held, any.vm) == left + held;
    assert SteadyAt(kept, all, left + held);
  }

  lemma OneVmWanted(kept: Choice, there: set<Key>, here: set<Key>, any: Key)
    requires Steady(kept, there + here) && OneVm(there + here) && any in there + here
    ensures Wanted(kept, there, here) == kept(there + here) <= there + here
    ensures forall k | k in there + here :: k.vm == any.vm
  {
    var all := there + here;
    assert OfVm(all, any.vm) == all;
    assert SteadyAt(kept, all, {});
  }

  /** In general the job run again is right exactly when the policy keeps nothing or there is one VM at most. */
  lemma AgainIsRightIff(kept: Choice, there: set<Key>, here: set<Key>, vms: seq<string>)
    requires Steady(kept, there + here) && Enumerates(vms, there + Wanted(kept, there, here))
    ensures var held := Wanted(kept, there, here);
      Right(kept, there, held, vms) <==> held == {} || OneVm(there + held)
  {
    var held := Wanted(kept, there, here);
    forall part, enough | part <= there + held && OneVm(part)
      ensures SteadyAt(kept, part, enough)
    {
      assert part <= there + here;
    }
    RightIff(kept, there, held, vms);
  }

  // ---- The policy as a choice ----

  ghost function ByPolicy(at: Key -> Stamp, policy: Policy): Choice
  {
    keys => Chosen(keys, at, policy)
  }

  /** No two backups of a VM are of one instant. */
  ghost predicate Timed(keys: set<Key>, at: Key -> Stamp)
  {
    forall k, l | k in keys && l in keys && k.vm == l.vm && k != l :: at(k).instant != at(l).instant
  }

  lemma PolicyIsSteady(at: Key -> Stamp, policy: Policy, keys: set<Key>)
    requires Timed(keys, at)
    ensures Steady(ByPolicy(at, policy), keys)
  {
    forall part, enough | part <= keys && OneVm(part)
      ensures SteadyAt(ByPolicy(at, policy), part, enough)
    {
      if Chosen(part, at, policy) <= enough <= part {
        ChosenAmongEnough(part, at, policy, enough);
      }
    }
  }

  /** Two VMs of one backup each: the first run into the empty target copies both, the second removes both. */
  lemma SecondRunLosesAll(at: Key -> Stamp)
    ensures var a, b := Key("a", "1"), Key("b", "1");
      var kept := ByPolicy(at, Policy(Some(1), None, None, None));
      && Run(kept, {a, b}, {}, ["a", "b"]) == Ok(Tally({a, b}, {a, b}, {}))
      && Run(kept, {a, b}, {a, b}, ["a", "b"]) == Ok(Tally({}, {}, {a, b}))
  {
    var a, b := Key("a", "1"), Key("b", "1");
    var kept := ByPolicy(at, Policy(Some(1), None, None, None));
    KeepsTheOne(at, a, b, {});
    KeepsTheOne(at, a, b, {a, b});
    assert {b, a} == {a, b};
    KeepsTheOne(at, b, a, {});
    KeepsTheOne(at, b, a, {a, b});
    BothCopied(kept, a, b);
    BothRemoved(kept, a, b);
  }

  lemma BothCopied(kept: Choice, a: Key, b: Key)
    requires a.vm != b.vm
    requires Keep(kept, {a, b}, {}, a.vm) == {a} && Keep(kept, {a, b}, {}, b.vm) == {b}
    ensures Run(kept, {a, b}, {}, [a.vm, b.vm]) == Ok(Tally({a, b}, {a, b}, {}))
  {
    var vms := [a.vm, b.vm];
    var none, one, two := Tally({}, {}, {}), Tally({a}, {a}, {}), Tally({a, b}, {a, b}, {});
    PassFills(kept, {a, b}, none, a.vm);
    PassFills(kept, {a, b}, one, b.vm);
    assert {} + {a} == {a} && {a} + {b} == {a, b};
    TwoPasses(kept, {a, b}, {}, none, one, two, vms);
  }

  lemma BothRemoved(kept: Choice, a: Key, b: Key)
    requires a.vm != b.vm
    requires Keep(kept, {a, b}, {a, b}, a.vm) == {a} && Keep(kept, {a, b}, {a, b}, b.vm) == {b}
    ensures Run(kept, {a, b}, {a, b}, [a.vm, b.vm]) == Ok(Tally({}, {}, {a, b}))
  {
    var vms := [a.vm, b.vm];
    var two, one, none := Tally({a, b}, {}, {}), Tally({a}, {}, {b}), Tally({}, {}, {a, b});
    assert {a} - {a, b} == {} && {b} - {a, b} == {};
    assert {a, b} - {a} == {b} && {a, b} - {b} == {a};
    assert Pass(kept, {a, b}, {a, b}, two, a.vm) == Ok(one) by {
      assert {a, b} + {} - {b} == {a} && {} + {b} == {b} && two.copied + {} == {};
    }
    assert Pass(kept, {a, b}, {a, b}, one, b.vm) == Ok(none) by {
      assert {a} + {} - {a} == {} && {b} + {a} == {a, b} && one.copied + {} == {};
    }
    TwoPasses(kept, {a, b}, {a, b}, two, one, none, vms);
  }

  lemma TwoPasses(
    kept: Choice, there: set<Key>, here: set<Key>, t: Tally, next: Tally, last: Tally, vms: seq<string>)
    requires |vms| == 2
    requires Pass(kept, there, here, t, vms[0]) == Ok(next) && Pass(kept, there, here, next, vms[1]) == Ok(last)
    ensures Passes(kept, there, here, t, vms) == Ok(last)
  {
    assert vms[1..][0] == vms[1] && vms[1..][1..] == [];
    assert Passes(kept, there, here, next, vms[1..]) == Passes(kept, there, here, last, vms[1..][1..]);
  }

  lemma KeepsTheOne(at: Key -> Stamp, k: Key, l: Key, here: set<Key>)
    requires k.vm != l.vm && here <= {k, l}
    ensures Keep(ByPolicy(at, Policy(Some(1), None, None, None)), {k, l}, here, k.vm) == {k}
  {
    assert OfVm({k, l} + here, k.vm) == {k};
    assert Newer({k}, at, k) == {};
  }

  // ---- The job ----

  datatype SyncError = CopyFailed(error: StoreError) | AlreadyGone(key: Key)

  /** What `keys` adds to a target that holds `held`. */
  ghost function Added(held: map<Key, Backup>, source: map<Key, Backup>, keys: set<Key>): map<Key, Backup>
    requires keys <= source.Keys
  {
    held + map k | k in keys && k !in held :: source[k]
  }

  method CopyOne(source: Store, target: Store, key: Key, now: real) returns (r: Result<(), SyncError>)
    requires source != target && (target.SameChunksAs(source) ==> source.scheme == target.scheme)
    requires key in source.backups
    modifies target`files, target`backups
    ensures old(target.files).Keys <= target.files.Keys
    ensures r.Err? ==> r.error.CopyFailed? && target.backups == old(target.backups)
    ensures r.Ok? ==> target.backups == Added(old(target.backups), source.backups, {key})
    ensures r.Ok? && key !in old(target.backups) ==> NamedBy(source.backups[key]) <= target.files.Keys
  {
    AddedSingle(target.backups, source.backups, key);
    var one, done := target.CopyBackupFrom(source, key, now);
    r := if one.Ok? then Ok(()) else Err(CopyFailed(one.error));
  }

  ghost predicate Complete(keys: set<Key>, held: map<Key, Backup>, source: map<Key, Backup>, files: set<Digest>)
    requires keys <= source.Keys
  {
    forall k | k in keys && k !in held :: NamedBy(source[k]) <= files
  }

  /** `done`: those copied, all of them unless a copy fails. */
  method CopyAll(source: Store, target: Store, keys: set<Key>, now: real)
    returns (r: Result<(), SyncError>, ghost done: set<Key>)
    requires source != target && (target.SameChunksAs(source) ==> source.scheme == target.scheme)
    requires keys <= source.backups.Keys
    modifies target`files, target`backups
    ensures old(target.files).Keys <= target.files.Keys
    ensures r.Err? ==> r.error.CopyFailed?
    ensures done <= keys && (r.Ok? ==> done == keys)
    ensures target.backups == Added(old(target.backups), source.backups, done)
    ensures Complete(done, old(target.backups), source.backups, target.files.Keys)
  {
    var todo := keys;
    done := {};
    ghost var held := target.backups;
    while todo != {}
      invariant todo <= keys && done == keys - todo
      invariant old(target.files).Keys <= target.files.Keys
      invariant target.backups == Added(held, source.backups, done)
      invariant Complete(done, held, source.backups, target.files.Keys)
    {
      var key :| key in todo;
      AddedOne(held, source.backups, done, key);
      r := CopyOne(source, target, key, now);
      if r.Err? {
        return;
      }
      todo, done := todo - {key}, done + {key};
    }
    r := Ok(());
  }

  lemma AddedSingle(held: map<Key, Backup>, source: map<Key, Backup>, key: Key)
    requires key in source
    ensures Added(held, source, {key}) == if key in held then held else held[key := source[key]]
  {
  }

  lemma AddedOne(held: map<Key, Backup>, source: map<Key, Backup>, keys: set<Key>, key: Key)
    requires keys <= source.Keys && key in source
    ensures Added(Added(held, source, keys), source, {key}) == Added(held, source, keys + {key})
    ensures key in Added(held, source, keys) <==> key in held || key in keys
  {
  }

  /** `done`: those removed, all of them unless one is gone already. */
  method RemoveAll(target: Store, keys: set<Key>) returns (r: Result<(), SyncError>, ghost done: set<Key>)
    modifies target`backups
    ensures r.Ok? <==> keys <= old(target.backups).Keys
    ensures r.Err? ==> r.error.AlreadyGone? && r.error.key !in old(target.backups)
    ensures done <= keys && (r.Ok? ==> done == keys)
    ensures target.backups == old(target.backups) - done
  {
    var todo := keys;
    done := {};
    while todo != {}
      invariant todo <= keys && done == keys - todo && done <= old(target.backups).Keys
      invariant target.backups == old(target.backups) - done
    {
      var key :| key in todo;
      var found := target.DeleteBackup(key);
      if !found {
        return Err(AlreadyGone(key)), done;
      }
      todo, done := todo - {key}, done + {key};
    }
    r := Ok(());
  }

  /** Every backup held is the one held before, or the source's own over chunks that are all there. */
  ghost predicate Faithful(
    held: map<Key, Backup>, before: map<Key, Backup>, source: map<Key, Backup>, files: set<Digest>)
  {
    forall k | k in held ::
      if k in before then held[k] == before[k]
      else k in source && held[k] == source[k] && NamedBy(held[k]) <= files
  }

  method Candidates(keys: set<Key>, vm: string, at: Key -> Stamp) returns (list: seq<Entry<Key>>)
    ensures Ids(list) == OfVm(keys, vm) && Distinct(list) && Stamped(list, at)
  {
    list := [];
    var todo := OfVm(keys, vm);
    while todo != {}
      invariant todo <= OfVm(keys, vm)
      invariant Ids(list) == OfVm(keys, vm) - todo && Distinct(list) && Stamped(list, at)
    {
      var key :| key in todo;
      list := [Entry(key, at(key))] + list;
      todo := todo - {key};
    }
  }

  method KeepOfVm(keys: set<Key>, vm: string, at: Key -> Stamp, policy: Policy) returns (keep: set<Key>)
    requires Timed(keys, at)
    ensures keep == ByPolicy(at, policy)(OfVm(keys, vm)) && keep <= keys
  {
    var list := Candidates(keys, vm, at);
    keep := KeptBackups(list, policy);
    KeptIsChosen(list, at, policy);
  }

  method CopyThenRemove(source: Store, target: Store, more: set<Key>, gone: set<Key>, now: real,
                        ghost before: map<Key, Backup>)
    returns (r: Result<(), SyncError>)
    requires source != target && (target.SameChunksAs(source) ==> source.scheme == target.scheme)
    requires more <= source.backups.Keys && more !! before.Keys
    requires Faithful(target.backups, before, source.backups, target.files.Keys)
    modifies target`files, target`backups
    ensures r.Ok? ==> gone <= old(target.backups).Keys + more
    ensures r.Ok? ==> target.backups.Keys == old(target.backups).Keys + more - gone
    ensures r.Err? && r.error.AlreadyGone? ==> !(gone <= old(target.backups).Keys + more)
    ensures Faithful(target.backups, before, source.backups, target.files.Keys)
  {
    ghost var held, files := target.backups, target.files.Keys;
    ghost var copied, removed: set<Key> := {}, {};
    r, copied := CopyAll(source, target, more, now);
    AddedKeys(held, source.backups, copied);
    if r.Ok? {
      r, removed := RemoveAll(target, gone);
    }
    StillFaithful(held, before, source.backups, files, target.files.Keys, copied, removed);
    assert removed == {} ==> target.backups == Added(held, source.backups, copied) - removed;
  }

  method PassVm(source: Store, target: Store, keep: set<Key>, here: set<Key>, t: Tally, now: real,
                ghost before: map<Key, Backup>)
    returns (r: Result<Tally, SyncError>)
    requires source != target && (target.SameChunksAs(source) ==> source.scheme == target.scheme)
    requires t.keys == target.backups.Keys && here == before.Keys && keep <= source.backups.Keys + here
    requires Faithful(target.backups, before, source.backups, target.files.Keys)
    modifies target`files, target`backups
    ensures r.Ok? ==> PassKeeping(keep, here, t) == Ok(r.value) && target.backups.Keys == r.value.keys
    ensures r.Err? && r.error.AlreadyGone? ==> PassKeeping(keep, here, t).Err?
    ensures Faithful(target.backups, before, source.backups, target.files.Keys)
  {
    var more, gone := keep - here, here - keep;
    var done := CopyThenRemove(source, target, more, gone, now, before);
    if done.Err? {
      return Err(done.error);
    }
    r := Ok(Tally(t.keys + more - gone, t.copied + more, t.removed + gone));
  }

  lemma AddedKeys(held: map<Key, Backup>, source: map<Key, Backup>, keys: set<Key>)
    requires keys <= source.Keys
    ensures Added(held, source, keys).Keys == held.Keys + keys
  {
  }

  lemma StillFaithful(held: map<Key, Backup>, before: map<Key, Backup>, source: map<Key, Backup>,
                      files: set<Digest>, filesNow: set<Digest>, more: set<Key>, gone: set<Key>)
    requires Faithful(held, before, source, files) && files <= filesNow
    requires more <= source.Keys && more !! before.Keys && Complete(more, held, source, filesNow)
    ensures Faithful(Added(held, source, more) - gone, before, source, filesNow)
  {
  }

  method PassNext(source: Store, target: Store, at: Key -> Stamp, policy: Policy, here: set<Key>, t: Tally, vm: string,
                  now: real, ghost before: map<Key, Backup>, ghost rest: seq<string>, ghost run: Result<Tally, ()>)
    returns (r: Result<Tally, SyncError>)
    requires source != target && (target.SameChunksAs(source) ==> source.scheme == target.scheme)
    requires Timed(source.backups.Keys + here, at) && t.keys == target.backups.Keys && here == before.Keys
    requires Faithful(target.backups, before, source.backups, target.files.Keys)
    requires rest != [] && rest[0] == vm && run == Passes(ByPolicy(at, policy), source.backups.Keys, here, t, rest)
    modifies target`files, target`backups
    ensures r.Ok? ==> target.backups.Keys == r.value.keys
    ensures r.Ok? ==> run == Passes(ByPolicy(at, policy), source.backups.Keys, here, r.value, rest[1..])
    ensures Faithful(target.backups, before, source.backups, target.files.Keys)
    ensures r.Err? && r.error.AlreadyGone? ==> run.Err?
  {
    OnePassFirst(ByPolicy(at, policy), source.backups.Keys, here, t, rest);
    var keep := KeepOfVm(source.backups.Keys + here, vm, at, policy);
    r := PassVm(source, target, keep, here, t, now, before);
  }

  method RunJob(source: Store, target: Store, at: Key -> Stamp, policy: Policy, vms: seq<string>, now: real)
    returns (r: Result<Tally, SyncError>)
    requires source != target && (target.SameChunksAs(source) ==> source.scheme == target.scheme)
    requires Timed(source.backups.Keys + target.backups.Keys, at)
    requires Enumerates(vms, source.backups.Keys + target.backups.Keys)
    modifies target`files, target`backups
    ensures var run := Run(ByPolicy(at, policy), source.backups.Keys, old(target.backups).Keys, vms);
      && (r.Ok? ==> run == Ok(r.value) && target.backups.Keys == r.value.keys)
      && (r.Err? && r.error.AlreadyGone? ==> run.Err?)
    ensures Faithful(target.backups, old(target.backups), source.backups, target.files.Keys)
  {
    ghost var before, there := target.backups, source.backups.Keys;
    ghost var kept := ByPolicy(at, policy);
    var here := target.backups.Keys;
    var t := Tally(here, {}, {});
    ghost var rest, run := vms, Run(kept, there, here, vms);
    for i := 0 to |vms|
      invariant t.keys == target.backups.Keys && rest == vms[i..]
      invariant Faithful(target.backups, before, source.backups, target.files.Keys)
      invariant run == Passes(kept, there, here, t, rest)
    {
      var pass := PassNext(source, target, at, policy, here, t, vms[i], now, before, rest, run);
      if pass.Err? {
        return pass;
      }
      t, rest := pass.value, rest[1..];
    }
    r := Ok(t);
  }

  lemma OnePassFirst(kept: Choice, there: set<Key>, here: set<Key>, t: Tally, vms: seq<string>)
    requires vms != []
    ensures var pass := PassKeeping(kept(OfVm(there + here, vms[0])), here, t);
      Passes(kept, there, here, t, vms) == if pass.Ok? then Passes(kept, there, here, pass.value, vms[1..]) else pass
  {
  }
}
