/**
Pruning a VM's backups after every new one, with backups found corrupted, backups in use and backups whose files cannot
go.
*/
module Pruning {
  import opened Retention

  /** A way to choose, of a list of backups, the ids to keep. */
  type Selection<!Id> = seq<Entry<Id>> -> set<Id>

  ghost predicate SteadyAt<Id>(kept: Selection<Id>, s: seq<Entry<Id>>, some: set<Id>)
  {
    && kept(s) <= Ids(s)
    && kept(s) * some <= kept(Only(s, some))
    && (kept(s) <= some ==> kept(Only(s, some)) == kept(s))
  }

  /**
  A choice that pruning as one goes does not disturb: among fewer backups it keeps each one it kept before, and it stays
  the same as long as all it keeps is there.
  */
  ghost predicate Steady<Id(!new)>(kept: Selection<Id>)
  {
    forall s, some :: SteadyAt(kept, s, some)
  }

  function ByPolicy<Id>(policy: Policy): Selection<Id>
  {
    s => Kept(s, policy)
  }

  lemma PolicyIsSteady<Id(!new)>(policy: Policy)
    ensures Steady(ByPolicy<Id>(policy))
  {
    forall s: seq<Entry<Id>>, some
      ensures SteadyAt(ByPolicy(policy), s, some)
    {
      KeptWithin(s, policy);
      KeptAmongFewer(s, policy, some);
      if Kept(s, policy) <= some {
        KeptAmongEnough(s, policy, some);
      }
    }
  }

  /** What a run of the retention keeps: the policy's choice of the sound backups, and of the corrupted ones its choice
  of all. */
  function Retained<Id>(rows: seq<Entry<Id>>, kept: Selection<Id>, corrupted: set<Id>): set<Id>
  {
    kept(Without(rows, corrupted)) + kept(rows) * corrupted
  }

  /** What a run leaves: also the `stuck` ones, being read or not removable. */
  function Pruned<Id>(rows: seq<Entry<Id>>, kept: Selection<Id>, corrupted: set<Id>, stuck: set<Id>): seq<Entry<Id>>
  {
    Only(rows, Retained(rows, kept, corrupted) + stuck)
  }

  /** The finished backups of a VM, as recorded. */
  class Catalogue<Id(==)> {
    var rows: seq<Entry<Id>>

    method ApplyRetention(policy: Policy, corrupted: set<Id>, stuck: set<Id>)
      requires Distinct(rows)
      modifies this
      ensures rows == Pruned(old(rows), ByPolicy(policy), corrupted, stuck)
    {
      var sound := KeptBackups(Without(rows, corrupted), policy);
      var any := KeptBackups(rows, policy);
      RemoveBeyond(sound + any * corrupted, stuck);
    }

    method RemoveBeyond(keep: set<Id>, stuck: set<Id>)
      requires Distinct(rows)
      modifies this
      ensures rows == Only(old(rows), keep + stuck)
    {
      var all := rows;
      ghost var left := keep + stuck;
      for i := 0 to |all|
        invariant rows == Only(all[..i], left) + all[i..]
      {
        ghost var before, x, after := all[..i], all[i], all[i + 1..];
        assert all[i..] == [x] + after && before + [x] == all[..i + 1] && all == before + ([x] + after);
        PassOne(before, x, after, left);
        if all[i].id !in keep && all[i].id !in stuck {
          rows := Without(rows, {all[i].id});
        }
      }
      assert all[..|all|] == all;
    }
  }

  /** Deleting a row by its id, once those before it are pruned, prunes up to the next. */
  lemma PassOne<Id>(before: seq<Entry<Id>>, x: Entry<Id>, after: seq<Entry<Id>>, left: set<Id>)
    requires Distinct(before + ([x] + after))
    ensures var rows, next := Only(before, left) + ([x] + after), Only(before + [x], left) + after;
      if x.id in left then rows == next else Without(rows, {x.id}) == next
  {
    OnlyOfConcat(before, [x], left);
    if x.id !in left {
      DistinctAround(before, x, after);
      IdsOfOnly(before, left);
      WithoutMiddle(Only(before, left), x, after);
    }
  }

  lemma {:induction false} DistinctAround<Id>(a: seq<Entry<Id>>, x: Entry<Id>, b: seq<Entry<Id>>)
    requires Distinct(a + ([x] + b))
    ensures x.id !in Ids(a) && x.id !in Ids(b)
  {
    var rest := [x] + b;
    if a == [] {
      assert a + rest == rest && rest[1..] == b;
    } else {
      assert (a + rest)[1..] == a[1..] + rest;
      DistinctAround(a[1..], x, b);
      IdsOfConcat(a[1..], rest);
      IdsHold(rest, 0);
    }
  }

  lemma WithoutMiddle<Id>(a: seq<Entry<Id>>, x: Entry<Id>, b: seq<Entry<Id>>)
    requires x.id !in Ids(a) && x.id !in Ids(b)
    ensures Without(a + ([x] + b), {x.id}) == a + b
  {
    var keep := Ids(a + ([x] + b)) - {x.id};
    IdsOfConcat(a, [x] + b);
    IdsOfConcat([x], b);
    OnlyOfConcat(a, [x] + b, keep);
    OnlyOfConcat([x], b, keep);
    OnlyAll(a, keep);
    OnlyAll(b, keep);
  }

  // ---- Lists of entries ----

  lemma {:induction false} OnlyOfConcat<Id>(a: seq<Entry<Id>>, b: seq<Entry<Id>>, keep: set<Id>)
    ensures Only(a + b, keep) == Only(a, keep) + Only(b, keep)
  {
    if a == [] {
      assert a + b == b;
    } else {
      assert (a + b)[1..] == a[1..] + b;
      OnlyOfConcat(a[1..], b, keep);
    }
  }

  lemma {:induction false} OnlyAll<Id>(s: seq<Entry<Id>>, keep: set<Id>)
    requires Ids(s) <= keep
    ensures Only(s, keep) == s
  {
    if s != [] {
      OnlyAll(s[1..], keep);
    }
  }

  /** Only the ids that occur matter. */
  lemma {:induction false} OnlySame<Id>(s: seq<Entry<Id>>, a: set<Id>, b: set<Id>)
    requires a * Ids(s) == b * Ids(s)
    ensures Only(s, a) == Only(s, b)
  {
    if s != [] {
      assert s[0].id in a * Ids(s) <==> s[0].id in b * Ids(s);
      assert a * Ids(s[1..]) == a * Ids(s) * Ids(s[1..]);
      assert b * Ids(s[1..]) == b * Ids(s) * Ids(s[1..]);
      OnlySame(s[1..], a, b);
    }
  }

  lemma {:induction false} OnlyTwice<Id>(s: seq<Entry<Id>>, a: set<Id>, b: set<Id>)
    ensures Only(Only(s, a), b) == Only(s, a * b)
  {
    if s != [] {
      OnlyTwice(s[1..], a, b);
      if s[0].id in a {
        assert Only(s, a)[1..] == Only(s[1..], a);
      }
    }
  }

  lemma {:induction false} IdsOfOnly<Id>(s: seq<Entry<Id>>, keep: set<Id>)
    ensures Ids(Only(s, keep)) == Ids(s) * keep
  {
    if s != [] {
      IdsOfOnly(s[1..], keep);
      if s[0].id in keep {
        assert Only(s, keep)[1..] == Only(s[1..], keep);
      }
    }
  }

  lemma {:induction false} DistinctPrefix<Id>(s: seq<Entry<Id>>, x: Entry<Id>)
    requires Distinct(s + [x])
    ensures Distinct(s) && x.id !in Ids(s)
  {
    if s != [] {
      assert (s + [x])[1..] == s[1..] + [x];
      IdsOfConcat(s[1..], [x]);
      DistinctPrefix(s[1..], x);
    }
  }

  lemma WithoutOfOnly<Id>(s: seq<Entry<Id>>, keep: set<Id>, gone: set<Id>)
    ensures Without(Only(s, keep), gone) == Only(Without(s, gone), keep)
  {
    IdsOfOnly(s, keep);
    OnlyTwice(s, keep, Ids(s) * keep - gone);
    OnlyTwice(s, Ids(s) - gone, keep);
    assert keep * (Ids(s) * keep - gone) == (Ids(s) - gone) * keep;
  }

  // ---- What a run keeps ----

  /** Corrupted backups take no sound one's place: the sound ones kept are those the policy keeps of the sound ones. */
  lemma SoundUndisturbed<Id(!new)>(rows: seq<Entry<Id>>, kept: Selection<Id>, corrupted: set<Id>)
    requires Steady(kept)
    ensures Retained(rows, kept, corrupted) - corrupted == kept(Without(rows, corrupted))
  {
    assert SteadyAt(kept, Without(rows, corrupted), {});
    IdsOfOnly(rows, Ids(rows) - corrupted);
  }

  /** Setting the corrupted ones apart loses none of what the policy keeps of all. */
  lemma KeptIsRetained<Id(!new)>(rows: seq<Entry<Id>>, kept: Selection<Id>, corrupted: set<Id>)
    requires Steady(kept)
    ensures kept(rows) <= Retained(rows, kept, corrupted)
  {
    assert SteadyAt(kept, rows, Ids(rows) - corrupted);
  }

  lemma RetainedAmongEnough<Id(!new)>(rows: seq<Entry<Id>>, kept: Selection<Id>, corrupted: set<Id>, enough: set<Id>)
    requires Steady(kept)
    requires Retained(rows, kept, corrupted) <= enough
    ensures Retained(Only(rows, enough), kept, corrupted) == Retained(rows, kept, corrupted)
  {
    KeptIsRetained(rows, kept, corrupted);
    WithoutOfOnly(rows, enough, corrupted);
    assert SteadyAt(kept, rows, enough);
    assert SteadyAt(kept, Without(rows, corrupted), enough);
  }

  /** A new backup brings back none the policy had let go. */
  lemma KeptAfterArrival<Id(!new)>(rows: seq<Entry<Id>>, x: Entry<Id>, kept: Selection<Id>)
    requires Steady(kept)
    requires x.id !in Ids(rows)
    ensures kept(rows + [x]) <= kept(rows) + {x.id}
  {
    OnlyOfConcat(rows, [x], Ids(rows));
    OnlyAll(rows, Ids(rows));
    IdsOfConcat(rows, [x]);
    assert Only(rows + [x], Ids(rows)) == rows;
    assert SteadyAt(kept, rows + [x], Ids(rows));
  }

  lemma RetainedAfterArrival<Id(!new)>(rows: seq<Entry<Id>>, x: Entry<Id>, kept: Selection<Id>, corrupted: set<Id>)
    requires Steady(kept)
    requires x.id !in Ids(rows)
    ensures Retained(rows + [x], kept, corrupted) <= Retained(rows, kept, corrupted) + {x.id}
  {
    KeptAfterArrival(rows, x, kept);
    var sound := Ids(rows + [x]) - corrupted;
    IdsOfConcat(rows, [x]);
    OnlyOfConcat(rows, [x], sound);
    OnlySame(rows, sound, Ids(rows) - corrupted);
    IdsOfOnly(rows, Ids(rows) - corrupted);
    if x.id in corrupted {
      assert Without(rows + [x], corrupted) == Without(rows, corrupted);
    } else {
      assert Without(rows + [x], corrupted) == Without(rows, corrupted) + [x];
      KeptAfterArrival(Without(rows, corrupted), x, kept);
    }
  }

  // ---- Pruning as backups come ----

  /** A backup that comes, and what cannot be removed by the run that follows it. */
  datatype Arrival<Id> = Arrival(backup: Entry<Id>, stuck: set<Id>)

  function All<Id>(arrivals: seq<Arrival<Id>>): seq<Entry<Id>>
  {
    seq(|arrivals|, i requires 0 <= i < |arrivals| => arrivals[i].backup)
  }

  function Survivors<Id>(arrivals: seq<Arrival<Id>>, kept: Selection<Id>, corrupted: set<Id>): seq<Entry<Id>>
  {
    if arrivals == [] then []
    else
      var last := arrivals[|arrivals| - 1];
      Pruned(Survivors(arrivals[..|arrivals| - 1], kept, corrupted) + [last.backup], kept, corrupted, last.stuck)
  }

  /**
  Whatever the order the backups come in and whatever each run could not remove, pruning after every backup keeps all
  the policy keeps of the whole unpruned history, and a run of the policy over the survivors chooses the same.
  */
  lemma {:induction false} SurvivorsHoldTheChoice<Id(!new)>(
    arrivals: seq<Arrival<Id>>, kept: Selection<Id>, corrupted: set<Id>)
    requires Steady(kept)
    requires Distinct(All(arrivals))
    ensures var all, left := All(arrivals), Survivors(arrivals, kept, corrupted);
      && left == Only(all, Ids(left))
      && Retained(all, kept, corrupted) <= Ids(left)
      && Retained(left, kept, corrupted) == Retained(all, kept, corrupted)
  {
    var all := All(arrivals);
    if arrivals == [] {
      assert SteadyAt(kept, all, {});
    } else {
      var before := arrivals[..|arrivals| - 1];
      var last := arrivals[|arrivals| - 1];
      assert all == All(before) + [last.backup];
      DistinctPrefix(All(before), last.backup);
      SurvivorsHoldTheChoice(before, kept, corrupted);
      PruneOnce(All(before), Survivors(before, kept, corrupted), last, kept, corrupted);
    }
  }

  lemma PruneOnce<Id(!new)>(
    all: seq<Entry<Id>>, left: seq<Entry<Id>>, last: Arrival<Id>, kept: Selection<Id>, corrupted: set<Id>)
    requires Steady(kept)
    requires Distinct(all + [last.backup])
    requires left == Only(all, Ids(left)) && Retained(all, kept, corrupted) <= Ids(left)
    ensures var more, pruned := all + [last.backup], Pruned(left + [last.backup], kept, corrupted, last.stuck);
      && pruned == Only(more, Ids(pruned))
      && Retained(more, kept, corrupted) <= Ids(pruned)
      && Retained(pruned, kept, corrupted) == Retained(more, kept, corrupted)
      && (last.stuck == {} ==> pruned == Only(more, Retained(more, kept, corrupted)))
  {
    var x := last.backup;
    var more, rows := all + [x], left + [x];
    DistinctPrefix(all, x);
    IdsOfOnly(all, Ids(left));
    RetainedAfterArrival(all, x, kept, corrupted);
    OnlyOfConcat(all, [x], Ids(rows));
    IdsOfConcat(left, [x]);
    OnlySame(all, Ids(rows), Ids(left));
    assert rows == Only(more, Ids(rows));
    RetainedAmongEnough(more, kept, corrupted, Ids(rows));
    var keep := Retained(more, kept, corrupted) + last.stuck;
    OnlyTwice(more, Ids(rows), keep);
    var pruned := Pruned(rows, kept, corrupted, last.stuck);
    assert pruned == Only(more, Ids(rows) * keep);
    IdsOfOnly(more, Ids(rows) * keep);
    OnlySame(more, Ids(rows) * keep, Ids(pruned));
    RetainedIsThere(more, kept, corrupted);
    RetainedAmongEnough(more, kept, corrupted, Ids(pruned));
    if last.stuck == {} {
      assert Ids(rows) * keep == Retained(more, kept, corrupted);
    }
  }

  lemma RetainedIsThere<Id(!new)>(rows: seq<Entry<Id>>, kept: Selection<Id>, corrupted: set<Id>)
    requires Steady(kept)
    ensures Retained(rows, kept, corrupted) <= Ids(rows)
  {
    assert SteadyAt(kept, rows, {});
    assert SteadyAt(kept, Without(rows, corrupted), {});
    IdsOfOnly(rows, Ids(rows) - corrupted);
  }

  /** Once a run can remove all it lets go, pruning as one goes has left exactly what one pruning of the whole history
  leaves. */
  lemma OnlineIsOffline<Id(!new)>(arrivals: seq<Arrival<Id>>, policy: Policy, corrupted: set<Id>)
    requires Distinct(All(arrivals)) && arrivals != [] && arrivals[|arrivals| - 1].stuck == {}
    ensures Survivors(arrivals, ByPolicy(policy), corrupted) == Pruned(All(arrivals), ByPolicy(policy), corrupted, {})
  {
    var kept := ByPolicy<Id>(policy);
    PolicyIsSteady<Id>(policy);
    OnceNothingIsStuck(arrivals, kept, corrupted);
  }

  lemma OnceNothingIsStuck<Id(!new)>(arrivals: seq<Arrival<Id>>, kept: Selection<Id>, corrupted: set<Id>)
    requires Steady(kept)
    requires Distinct(All(arrivals)) && arrivals != [] && arrivals[|arrivals| - 1].stuck == {}
    ensures Survivors(arrivals, kept, corrupted) == Pruned(All(arrivals), kept, corrupted, {})
  {
    var before, last := arrivals[..|arrivals| - 1], arrivals[|arrivals| - 1];
    assert All(arrivals) == All(before) + [last.backup];
    DistinctPrefix(All(before), last.backup);
    SurvivorsHoldTheChoice(before, kept, corrupted);
    PruneOnce(All(before), Survivors(before, kept, corrupted), last, kept, corrupted);
    assert Retained(All(arrivals), kept, corrupted) + {} == Retained(All(arrivals), kept, corrupted);
  }
}
