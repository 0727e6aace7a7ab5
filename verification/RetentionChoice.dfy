/**
What a retention policy keeps, said of a set of backups with no order of enumeration, when no two of them are of one
instant; and that the choice stays the same while all it keeps is there.
*/
module RetentionChoice {
  import opened Wrappers
  import opened Calendar
  import opened Retention
  import opened Pruning

  predicate DistinctInstants<Id>(ids: set<Id>, at: Id -> Stamp)
  {
    forall a, b | a in ids && b in ids && a != b :: at(a).instant != at(b).instant
  }

  ghost function Newer<Id>(ids: set<Id>, at: Id -> Stamp, id: Id): set<Id>
  {
    set x | x in ids && at(x).instant > at(id).instant
  }

  ghost function PeriodsAmong<Id, K>(ids: set<Id>, at: Id -> Stamp, periodOf: Date -> K): set<K>
  {
    set x | x in ids :: periodOf(at(x).date)
  }

  /** Fewer than `last` backups are newer. */
  ghost predicate AmongLast<Id>(ids: set<Id>, at: Id -> Stamp, last: Option<int>, id: Id)
  {
    last.Some? && |Newer(ids, at, id)| < last.value
  }

  /** The newest of its period, with room left by the newer periods. */
  ghost predicate NewestOfPeriod<Id, K>(
    ids: set<Id>, at: Id -> Stamp, periodOf: Date -> K, count: Option<int>, id: Id)
  {
    && count.Some? && count.value != 0
    && var used := PeriodsAmong(Newer(ids, at, id), at, periodOf);
       periodOf(at(id).date) !in used && Room(used, count.value)
  }

  /** The newest of its day, its week from Monday on, or its month, with room left by the newer ones. */
  ghost predicate NewestOf<Id>(ids: set<Id>, at: Id -> Stamp, f: Frequency, count: Option<int>, id: Id)
  {
    NewestOfPeriod(ids, at, (d: Date) => FirstDay(f, d), count, id)
  }

  ghost predicate Chooses<Id>(ids: set<Id>, at: Id -> Stamp, policy: Policy, id: Id)
  {
    || AmongLast(ids, at, policy.last, id)
    || NewestOf(ids, at, Daily, policy.daily, id)
    || NewestOf(ids, at, Weekly, policy.weekly, id)
    || NewestOf(ids, at, Monthly, policy.monthly, id)
  }

  ghost function Chosen<Id>(ids: set<Id>, at: Id -> Stamp, policy: Policy): set<Id>
  {
    set id | id in ids && Chooses(ids, at, policy, id)
  }

  // ---- Lists of a set ----

  ghost predicate Stamped<Id>(s: seq<Entry<Id>>, at: Id -> Stamp)
  {
    forall i | 0 <= i < |s| :: s[i].at == at(s[i].id)
  }

  lemma {:induction false} FindId<Id>(s: seq<Entry<Id>>, id: Id) returns (i: nat)
    requires id in Ids(s)
    ensures i < |s| && s[i].id == id
  {
    if s[0].id == id {
      i := 0;
    } else {
      i := FindId(s[1..], id);
      i := i + 1;
    }
  }

  lemma {:induction false} DistinctIndices<Id>(s: seq<Entry<Id>>, i: nat, j: nat)
    requires Distinct(s) && i < j < |s|
    ensures s[i].id != s[j].id
  {
    if i == 0 {
      IdsHold(s[1..], j - 1);
    } else {
      DistinctIndices(s[1..], i - 1, j - 1);
    }
  }

  lemma {:induction false} CountIds<Id>(s: seq<Entry<Id>>)
    requires Distinct(s)
    ensures |Ids(s)| == |s|
  {
    if s != [] {
      CountIds(s[1..]);
    }
  }

  lemma {:induction false} InsertKeepsDistinct<Id>(e: Entry<Id>, s: seq<Entry<Id>>, at: Id -> Stamp)
    requires Distinct(s) && e.id !in Ids(s) && Stamped(s, at) && e.at == at(e.id)
    ensures Distinct(Insert(e, s)) && Stamped(Insert(e, s), at)
  {
    if s == [] || s[0].at.instant <= e.at.instant {
      assert ([e] + s)[1..] == s;
    } else {
      InsertKeepsDistinct(e, s[1..], at);
      IdsOfInsert(e, s[1..]);
      assert ([s[0]] + Insert(e, s[1..]))[1..] == Insert(e, s[1..]);
    }
  }

  lemma {:induction false} SortKeepsDistinct<Id>(s: seq<Entry<Id>>, at: Id -> Stamp)
    requires Distinct(s) && Stamped(s, at)
    ensures Distinct(NewestFirst(s)) && Stamped(NewestFirst(s), at)
  {
    if s != [] {
      SortKeepsDistinct(s[1..], at);
      NewestFirstSorts(s[1..]);
      InsertKeepsDistinct(s[0], NewestFirst(s[1..]), at);
    }
  }

  /** A list of the set, newest first. */
  ghost predicate Lists<Id>(s: seq<Entry<Id>>, ids: set<Id>, at: Id -> Stamp)
  {
    Ids(s) == ids && Distinct(s) && Stamped(s, at) && Descending(s)
  }

  lemma {:induction false} SomeList<Id>(ids: set<Id>, at: Id -> Stamp) returns (s: seq<Entry<Id>>)
    ensures Ids(s) == ids && Distinct(s) && Stamped(s, at)
    decreases |ids|
  {
    if ids == {} {
      s := [];
    } else {
      var id :| id in ids;
      var rest := SomeList(ids - {id}, at);
      s := [Entry(id, at(id))] + rest;
      assert s[1..] == rest;
    }
  }

  // ---- The newer ones are those before ----

  lemma NewerIsBefore<Id>(s: seq<Entry<Id>>, ids: set<Id>, at: Id -> Stamp, i: nat)
    requires Lists(s, ids, at) && DistinctInstants(ids, at) && i < |s|
    ensures Newer(ids, at, s[i].id) == Ids(s[..i])
  {
    forall x | x in Newer(ids, at, s[i].id)
      ensures x in Ids(s[..i])
    {
      var j := FindId(s, x);
      assert j < i;
      IdsHold(s[..i], j);
    }
    forall x | x in Ids(s[..i])
      ensures x in Newer(ids, at, s[i].id)
    {
      var j := FindId(s[..i], x);
      assert s[j].id == x;
      DistinctIndices(s, j, i);
      IdsHold(s, j);
      IdsHold(s, i);
    }
  }

  lemma PeriodsBefore<Id>(s: seq<Entry<Id>>, at: Id -> Stamp, periodOf: Calendared)
    requires Stamped(s, at)
    ensures PeriodsAmong(Ids(s), at, periodOf) == PeriodsOf(s, periodOf)
  {
    forall p | p in PeriodsAmong(Ids(s), at, periodOf)
      ensures p in PeriodsOf(s, periodOf)
    {
      var x :| x in Ids(s) && p == periodOf(at(x).date);
      var j := FindId(s, x);
      assert s[j] in s;
    }
    forall p | p in PeriodsOf(s, periodOf)
      ensures p in PeriodsAmong(Ids(s), at, periodOf)
    {
      var e :| e in s && p == periodOf(e.at.date);
      var j :| 0 <= j < |s| && s[j] == e;
      IdsHold(s, j);
    }
  }

  lemma {:induction false} DistinctFirst<Id>(s: seq<Entry<Id>>, i: nat)
    requires Distinct(s) && i <= |s|
    ensures Distinct(s[..i]) && (i < |s| ==> s[i].id !in Ids(s[..i]))
  {
    if i < |s| && s[i].id in Ids(s[..i]) {
      var j := FindId(s[..i], s[i].id);
      DistinctIndices(s, j, i);
    }
    if i > 0 {
      assert s[..i][1..] == s[1..][..i - 1];
      DistinctFirst(s[1..], i - 1);
      if s[0].id in Ids(s[1..][..i - 1]) {
        var j := FindId(s[1..][..i - 1], s[0].id);
        DistinctIndices(s, 0, j + 1);
      }
    }
  }

  lemma LastMeans<Id>(s: seq<Entry<Id>>, ids: set<Id>, at: Id -> Stamp, last: Option<int>, i: nat)
    requires Lists(s, ids, at) && DistinctInstants(ids, at) && i < |s|
    ensures s[i].id in Newest(s, last) <==> AmongLast(ids, at, last, s[i].id)
  {
    NewerIsBefore(s, ids, at, i);
    DistinctFirst(s, i);
    CountIds(s[..i]);
    var n := if last.None? || last.value <= 0 then 0 else last.value;
    if n >= |s| {
      IdsHold(s, i);
    } else if i < n {
      assert s[..n][i] == s[i];
      IdsHold(s[..n], i);
    } else if s[i].id in Ids(s[..n]) {
      var j := FindId(s[..n], s[i].id);
      DistinctIndices(s, j, i);
    }
  }

  lemma PeriodMeans<Id>(
    s: seq<Entry<Id>>, ids: set<Id>, at: Id -> Stamp, periodOf: Calendared, count: Option<int>, i: nat)
    requires Lists(s, ids, at) && DistinctInstants(ids, at) && i < |s|
    ensures s[i].id in ByRule(s, periodOf, count) <==> NewestOfPeriod(ids, at, periodOf, count, s[i].id)
  {
    if count.Some? && count.value != 0 {
      NewerIsBefore(s, ids, at, i);
      PeriodsBefore(s[..i], at, periodOf);
      SelectedMeans(s, periodOf, count.value, {}, i);
      assert {} + PeriodsOf(s[..i], periodOf) == PeriodsOf(s[..i], periodOf);
    }
  }

  /** Two ways to name the periods of the backups' dates tell them apart alike. */
  ghost predicate Alike<Id, K, L>(ids: set<Id>, at: Id -> Stamp, one: Date -> K, other: Date -> L)
  {
    forall x, y | x in ids && y in ids ::
      one(at(x).date) == one(at(y).date) <==> other(at(x).date) == other(at(y).date)
  }

  lemma AlikeIn<Id, K, L>(ids: set<Id>, at: Id -> Stamp, one: Date -> K, other: Date -> L, id: Id)
    requires Alike(ids + {id}, at, one, other)
    ensures one(at(id).date) in PeriodsAmong(ids, at, one) <==> other(at(id).date) in PeriodsAmong(ids, at, other)
  {
    if x :| x in ids && one(at(x).date) == one(at(id).date) {
      assert other(at(x).date) == other(at(id).date);
    }
    if x :| x in ids && other(at(x).date) == other(at(id).date) {
      assert one(at(x).date) == one(at(id).date);
    }
  }

  lemma PeriodsWith<Id, K>(ids: set<Id>, at: Id -> Stamp, one: Date -> K, id: Id)
    ensures PeriodsAmong(ids + {id}, at, one) == PeriodsAmong(ids, at, one) + {one(at(id).date)}
  {
  }

  /** Then there are as many by the one as by the other. */
  lemma {:induction false} AsManyPeriods<Id, K, L>(ids: set<Id>, at: Id -> Stamp, one: Date -> K, other: Date -> L)
    requires Alike(ids, at, one, other)
    ensures |PeriodsAmong(ids, at, one)| == |PeriodsAmong(ids, at, other)|
    decreases |ids|
  {
    if ids != {} {
      var id :| id in ids;
      var rest := ids - {id};
      assert ids == rest + {id};
      AsManyPeriods(rest, at, one, other);
      AlikeIn(rest, at, one, other, id);
      PeriodsWith(rest, at, one, id);
      PeriodsWith(rest, at, other, id);
    }
  }

  lemma NamedAsTheirFirstDays<Id>(ids: set<Id>, at: Id -> Stamp, f: Frequency)
    ensures Alike(ids, at, PeriodOf(f), (d: Date) => FirstDay(f, d))
  {
    forall x, y | x in ids && y in ids
      ensures PeriodOf(f)(at(x).date) == PeriodOf(f)(at(y).date) <==>
              FirstDay(f, at(x).date) == FirstDay(f, at(y).date)
    {
      SamePeriod(f, at(x).date, at(y).date);
    }
  }

  lemma NewestAlike<Id, K, L>(
    ids: set<Id>, at: Id -> Stamp, one: Date -> K, other: Date -> L, count: Option<int>, id: Id)
    requires Alike(Newer(ids, at, id) + {id}, at, one, other)
    ensures NewestOfPeriod(ids, at, one, count, id) <==> NewestOfPeriod(ids, at, other, count, id)
  {
    AsManyPeriods(Newer(ids, at, id), at, one, other);
    AlikeIn(Newer(ids, at, id), at, one, other, id);
  }

  lemma PeriodByFirstDay<Id>(ids: set<Id>, at: Id -> Stamp, f: Frequency, count: Option<int>, id: Id)
    ensures NewestOfPeriod(ids, at, PeriodOf(f), count, id) <==> NewestOf(ids, at, f, count, id)
  {
    NamedAsTheirFirstDays(Newer(ids, at, id) + {id}, at, f);
    NewestAlike(ids, at, PeriodOf(f), (d: Date) => FirstDay(f, d), count, id);
  }

  lemma ListMeans<Id>(s: seq<Entry<Id>>, ids: set<Id>, at: Id -> Stamp, policy: Policy, i: nat)
    requires Lists(s, ids, at) && DistinctInstants(ids, at) && i < |s|
    ensures s[i].id in KeptOf(s, policy) <==> Chooses(ids, at, policy, s[i].id)
  {
    LastMeans(s, ids, at, policy.last, i);
    PeriodMeans(s, ids, at, PeriodOf(Daily), policy.daily, i);
    PeriodByFirstDay(ids, at, Daily, policy.daily, s[i].id);
    PeriodMeans(s, ids, at, PeriodOf(Weekly), policy.weekly, i);
    PeriodByFirstDay(ids, at, Weekly, policy.weekly, s[i].id);
    PeriodMeans(s, ids, at, PeriodOf(Monthly), policy.monthly, i);
    PeriodByFirstDay(ids, at, Monthly, policy.monthly, s[i].id);
  }

  /**
  Backups of distinct instants, listed in any order: the policy keeps those of which fewer than `last` are newer, and
  the newest of each of the most recent days, weeks from Monday on and months that have one.
  */
  lemma KeptIsChosen<Id>(s: seq<Entry<Id>>, at: Id -> Stamp, policy: Policy)
    requires Distinct(s) && Stamped(s, at) && DistinctInstants(Ids(s), at)
    ensures Kept(s, policy) == Chosen(Ids(s), at, policy)
  {
    var ordered, ids := NewestFirst(s), Ids(s);
    NewestFirstSorts(s);
    SortKeepsDistinct(s, at);
    assert Lists(ordered, ids, at);
    KeptWithin(s, policy);
    forall id | id in ids
      ensures id in Kept(s, policy) <==> Chooses(ids, at, policy, id)
    {
      var i := FindId(ordered, id);
      ListMeans(ordered, ids, at, policy, i);
    }
  }

  // ---- The choice is steady ----

  lemma {:induction false} OnlyKeepsDistinct<Id>(s: seq<Entry<Id>>, at: Id -> Stamp, keep: set<Id>)
    requires Distinct(s) && Stamped(s, at)
    ensures Distinct(Only(s, keep)) && Stamped(Only(s, keep), at)
  {
    if s != [] {
      OnlyKeepsDistinct(s[1..], at, keep);
      IdsOfOnly(s[1..], keep);
      if s[0].id in keep {
        assert Only(s, keep)[1..] == Only(s[1..], keep);
      }
    }
  }

  lemma ChosenAmongEnough<Id>(ids: set<Id>, at: Id -> Stamp, policy: Policy, enough: set<Id>)
    requires DistinctInstants(ids, at) && Chosen(ids, at, policy) <= enough <= ids
    ensures Chosen(enough, at, policy) == Chosen(ids, at, policy)
  {
    var s := SomeList(ids, at);
    KeptIsChosen(s, at, policy);
    OnlyKeepsDistinct(s, at, enough);
    IdsOfOnly(s, enough);
    assert ids * enough == enough;
    KeptIsChosen(Only(s, enough), at, policy);
    KeptAmongEnough(s, policy, enough);
  }
}
