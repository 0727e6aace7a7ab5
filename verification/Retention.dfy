/**
The grandfather-father-son retention of a VM's backups: which ones a policy keeps, and what pruning after every backup
leaves in the long run.
*/
module Retention {
  import opened Wrappers
  import opened Calendar

  type CalendarDate = d: Date | ValidDate(d) witness Date(1, 1, 1)

  /** A creation time: the instant that orders it, and the date it shows in its own offset. */
  datatype Stamp = Stamp(instant: int, date: CalendarDate)

  datatype Entry<Id> = Entry(id: Id, at: Stamp)

  datatype Policy = Policy(last: Option<int>, daily: Option<int>, weekly: Option<int>, monthly: Option<int>)

  datatype Period = Day(date: Date) | Week(year: int, week: int) | Month(year: int, month: int)

  type Calendared = Date -> Period

  function PeriodOf(f: Frequency): Calendared
  {
    match f
    case Daily => (d: Date) => Day(d)
    case Weekly => (d: Date) => Week(IsoWeek(d).0, IsoWeek(d).1)
    case Monthly => (d: Date) => Month(d.year, d.month)
  }

  /** Two dates are of one period exactly when the period begins on one day. */
  lemma SamePeriod(f: Frequency, a: CalendarDate, b: CalendarDate)
    ensures PeriodOf(f)(a) == PeriodOf(f)(b) <==> FirstDay(f, a) == FirstDay(f, b)
  {
    match f
    case Daily => OrdinalOrder(a, b);
    case Weekly => SameIsoWeek(a, b);
    case Monthly => OrdinalOrder(a.(day := 1), b.(day := 1));
  }

  function Ids<Id>(s: seq<Entry<Id>>): set<Id>
  {
    if s == [] then {} else {s[0].id} + Ids(s[1..])
  }

  ghost predicate Distinct<Id>(s: seq<Entry<Id>>)
  {
    s == [] || (s[0].id !in Ids(s[1..]) && Distinct(s[1..]))
  }

  lemma {:induction false} IdsHold<Id>(s: seq<Entry<Id>>, i: nat)
    requires i < |s|
    ensures s[i].id in Ids(s)
  {
    if i > 0 {
      IdsHold(s[1..], i - 1);
    }
  }

  lemma {:induction false} IdsOfConcat<Id>(a: seq<Entry<Id>>, b: seq<Entry<Id>>)
    ensures Ids(a + b) == Ids(a) + Ids(b)
  {
    if a == [] {
      assert a + b == b;
    } else {
      assert (a + b)[1..] == a[1..] + b;
      IdsOfConcat(a[1..], b);
    }
  }

  /** The entries with an id in `keep`, in their order. */
  function Only<Id>(s: seq<Entry<Id>>, keep: set<Id>): seq<Entry<Id>>
  {
    if s == [] then []
    else if s[0].id in keep then [s[0]] + Only(s[1..], keep)
    else Only(s[1..], keep)
  }

  function Without<Id>(s: seq<Entry<Id>>, gone: set<Id>): seq<Entry<Id>>
  {
    Only(s, Ids(s) - gone)
  }

  // ---- Newest first ----

  /** Before the first entry that is not newer: a stable sort, newest first. */
  function Insert<Id>(e: Entry<Id>, s: seq<Entry<Id>>): seq<Entry<Id>>
  {
    if s == [] || s[0].at.instant <= e.at.instant then [e] + s else [s[0]] + Insert(e, s[1..])
  }

  function NewestFirst<Id>(s: seq<Entry<Id>>): seq<Entry<Id>>
  {
    if s == [] then [] else Insert(s[0], NewestFirst(s[1..]))
  }

  ghost predicate Descending<Id>(s: seq<Entry<Id>>)
  {
    forall i, j | 0 <= i < j < |s| :: s[j].at.instant <= s[i].at.instant
  }

  lemma {:induction false} InsertAdds<Id>(e: Entry<Id>, s: seq<Entry<Id>>)
    ensures multiset(Insert(e, s)) == multiset(s) + multiset{e}
  {
    if s == [] || s[0].at.instant <= e.at.instant {
    } else {
      InsertAdds(e, s[1..]);
      assert s == [s[0]] + s[1..];
    }
  }

  lemma {:induction false} InsertSorts<Id>(e: Entry<Id>, s: seq<Entry<Id>>)
    requires Descending(s)
    ensures Descending(Insert(e, s))
  {
    if s == [] || s[0].at.instant <= e.at.instant {
    } else {
      InsertSorts(e, s[1..]);
      InsertBounded(e, s[1..], s[0].at.instant);
    }
  }

  lemma {:induction false} IdsOfInsert<Id>(e: Entry<Id>, s: seq<Entry<Id>>)
    ensures Ids(Insert(e, s)) == Ids(s) + {e.id}
  {
    if s == [] || s[0].at.instant <= e.at.instant {
      assert ([e] + s)[1..] == s;
    } else {
      IdsOfInsert(e, s[1..]);
      assert ([s[0]] + Insert(e, s[1..]))[1..] == Insert(e, s[1..]);
    }
  }

  lemma {:induction false} InsertBounded<Id>(e: Entry<Id>, s: seq<Entry<Id>>, top: int)
    requires e.at.instant <= top && forall x | x in s :: x.at.instant <= top
    ensures forall x | x in Insert(e, s) :: x.at.instant <= top
  {
    if s != [] {
      InsertBounded(e, s[1..], top);
    }
  }

  lemma {:induction false} NewestFirstSorts<Id>(s: seq<Entry<Id>>)
    ensures Descending(NewestFirst(s)) && multiset(NewestFirst(s)) == multiset(s)
    ensures Ids(NewestFirst(s)) == Ids(s)
  {
    if s != [] {
      var rest := NewestFirst(s[1..]);
      NewestFirstSorts(s[1..]);
      IdsOfInsert(s[0], rest);
      InsertSorts(s[0], rest);
      InsertAdds(s[0], rest);
      CountFirst(s);
    }
  }

  lemma CountFirst<Id>(s: seq<Entry<Id>>)
    requires s != []
    ensures multiset(s) == multiset(s[1..]) + multiset{s[0]}
  {
    assert s == [s[0]] + s[1..];
  }

  lemma {:induction false} OnlyBounded<Id>(s: seq<Entry<Id>>, keep: set<Id>, top: int)
    requires forall i | 0 <= i < |s| :: s[i].at.instant <= top
    ensures Only(s, keep) != [] ==> Only(s, keep)[0].at.instant <= top
  {
    if s != [] {
      OnlyBounded(s[1..], keep, top);
    }
  }

  lemma {:induction false} OnlyOfInsert<Id>(e: Entry<Id>, s: seq<Entry<Id>>, keep: set<Id>)
    requires Descending(s)
    ensures Only(Insert(e, s), keep) == if e.id in keep then Insert(e, Only(s, keep)) else Only(s, keep)
  {
    if s == [] {
    } else if s[0].at.instant <= e.at.instant {
      assert ([e] + s)[1..] == s;
      OnlyBounded(s, keep, e.at.instant);
    } else {
      assert ([s[0]] + Insert(e, s[1..]))[1..] == Insert(e, s[1..]);
      OnlyOfInsert(e, s[1..], keep);
      if s[0].id in keep {
        assert Only(s, keep)[1..] == Only(s[1..], keep);
      }
    }
  }

  /** Dropping entries and sorting commute: the sort is stable. */
  lemma {:induction false} NewestFirstOfOnly<Id>(s: seq<Entry<Id>>, keep: set<Id>)
    ensures NewestFirst(Only(s, keep)) == Only(NewestFirst(s), keep)
  {
    if s != [] {
      NewestFirstOfOnly(s[1..], keep);
      NewestFirstSorts(s[1..]);
      OnlyOfInsert(s[0], NewestFirst(s[1..]), keep);
      if s[0].id in keep {
        assert Only(s, keep)[1..] == Only(s[1..], keep);
      }
    }
  }

  // ---- The policy ----

  /** What one period rule adds, with the periods in `seen` used up. */
  function Selected<Id>(s: seq<Entry<Id>>, periodOf: Calendared, count: int, seen: set<Period>): set<Id>
  {
    if s == [] then {}
    else
      var period := periodOf(s[0].at.date);
      if period in seen then Selected(s[1..], periodOf, count, seen)
      else {s[0].id} + if |seen| + 1 >= count then {} else Selected(s[1..], periodOf, count, seen + {period})
  }

  function ByRule<Id>(s: seq<Entry<Id>>, periodOf: Calendared, count: Option<int>): set<Id>
  {
    if count.None? || count.value == 0 then {} else Selected(s, periodOf, count.value, {})
  }

  function Newest<Id>(s: seq<Entry<Id>>, last: Option<int>): set<Id>
  {
    var n := if last.None? || last.value <= 0 then 0 else last.value;
    Ids(if n < |s| then s[..n] else s)
  }

  function KeptOf<Id>(s: seq<Entry<Id>>, policy: Policy): set<Id>
  {
    Newest(s, policy.last) + ByRule(s, PeriodOf(Daily), policy.daily) + ByRule(s, PeriodOf(Weekly), policy.weekly)
    + ByRule(s, PeriodOf(Monthly), policy.monthly)
  }

  /** The ids the policy keeps of a list of backups in any order. */
  function Kept<Id>(backups: seq<Entry<Id>>, policy: Policy): set<Id>
  {
    KeptOf(NewestFirst(backups), policy)
  }

  method KeptBackups<Id(==)>(backups: seq<Entry<Id>>, policy: Policy) returns (keep: set<Id>)
    ensures keep == Kept(backups, policy)
  {
    var ordered := NewestFirst(backups);
    var daily := AddRule(ordered, PeriodOf(Daily), policy.daily, Newest(ordered, policy.last));
    var weekly := AddRule(ordered, PeriodOf(Weekly), policy.weekly, daily);
    keep := AddRule(ordered, PeriodOf(Monthly), policy.monthly, weekly);
  }

  method AddRule<Id(==)>(ordered: seq<Entry<Id>>, periodOf: Calendared, count: Option<int>, before: set<Id>)
    returns (keep: set<Id>)
    ensures keep == before + ByRule(ordered, periodOf, count)
  {
    keep := before;
    if count.None? || count.value == 0 {
      return;
    }
    var seen: set<Period> := {};
    for i := 0 to |ordered|
      invariant before + ByRule(ordered, periodOf, count) == keep + Selected(ordered[i..], periodOf, count.value, seen)
    {
      assert ordered[i..][1..] == ordered[i + 1..];
      var period := periodOf(ordered[i].at.date);
      if period !in seen {
        seen := seen + {period};
        keep := keep + {ordered[i].id};
        if |seen| >= count.value {
          return;
        }
      }
    }
  }

  // ---- What a period rule means ----

  ghost function PeriodsOf<Id>(s: seq<Entry<Id>>, periodOf: Calendared): set<Period>
  {
    set e | e in s :: periodOf(e.at.date)
  }

  /** A count below one still keeps one. */
  predicate Room<K>(used: set<K>, count: int)
  {
    used == {} || |used| < count
  }

  lemma {:induction false} SelectedWithin<Id>(s: seq<Entry<Id>>, periodOf: Calendared, count: int, seen: set<Period>)
    ensures Selected(s, periodOf, count, seen) <= Ids(s)
  {
    if s != [] {
      var period := periodOf(s[0].at.date);
      SelectedWithin(s[1..], periodOf, count, if period in seen then seen else seen + {period});
    }
  }

  lemma CountGrows(small: set<Period>, large: set<Period>)
    requires small <= large
    ensures |small| <= |large|
    ensures small != large ==> |small| < |large|
  {
    assert large == small + (large - small);
    assert |large| == |small| + |large - small|;
  }

  lemma PeriodsOfPrefix<Id>(s: seq<Entry<Id>>, periodOf: Calendared, i: nat)
    requires 0 < i <= |s|
    ensures PeriodsOf(s[..i], periodOf) == {periodOf(s[0].at.date)} + PeriodsOf(s[1..][..i - 1], periodOf)
  {
    assert s[..i] == [s[0]] + s[1..][..i - 1];
  }

  /** Kept when its period is not used up and no newer backup has it, and there is room left by those newer. */
  ghost predicate Fits<Id>(s: seq<Entry<Id>>, periodOf: Calendared, count: int, seen: set<Period>, i: nat)
    requires i < |s|
  {
    var used := seen + PeriodsOf(s[..i], periodOf);
    periodOf(s[i].at.date) !in used && Room(used, count)
  }

  lemma FitsLater<Id>(s: seq<Entry<Id>>, periodOf: Calendared, count: int, seen: set<Period>, i: nat)
    requires 0 < i < |s|
    ensures var period := periodOf(s[0].at.date);
      Fits(s, periodOf, count, seen, i) <==> Fits(s[1..], periodOf, count, seen + {period}, i - 1)
  {
    PeriodsOfPrefix(s, periodOf, i);
    assert seen + PeriodsOf(s[..i], periodOf)
        == (seen + {periodOf(s[0].at.date)}) + PeriodsOf(s[1..][..i - 1], periodOf);
  }

  lemma NothingFits<Id>(s: seq<Entry<Id>>, periodOf: Calendared, count: int, seen: set<Period>, i: nat)
    requires i < |s| && !Room(seen, count)
    ensures !Fits(s, periodOf, count, seen, i)
  {
    CountGrows(seen, seen + PeriodsOf(s[..i], periodOf));
  }

  lemma FirstSelected<Id>(s: seq<Entry<Id>>, periodOf: Calendared, count: int, seen: set<Period>)
    requires Distinct(s) && s != [] && Room(seen, count)
    ensures s[0].id in Selected(s, periodOf, count, seen) <==> Fits(s, periodOf, count, seen, 0)
  {
    var period := periodOf(s[0].at.date);
    SelectedWithin(s[1..], periodOf, count, if period in seen then seen else seen + {period});
    assert seen + PeriodsOf(s[..0], periodOf) == seen;
  }

  lemma SelectedLater<Id>(s: seq<Entry<Id>>, periodOf: Calendared, count: int, seen: set<Period>, i: nat)
    requires Distinct(s) && 0 < i < |s|
    ensures var period := periodOf(s[0].at.date);
      s[i].id in Selected(s, periodOf, count, seen) <==>
        (period in seen || |seen| + 1 < count) && s[1..][i - 1].id in Selected(s[1..], periodOf, count, seen + {period})
  {
    var period := periodOf(s[0].at.date);
    assert period in seen ==> seen + {period} == seen;
    assert s[i] == s[1..][i - 1];
    IdsHold(s[1..], i - 1);
  }

  lemma {:induction false} SelectedMeans<Id>(
    s: seq<Entry<Id>>, periodOf: Calendared, count: int, seen: set<Period>, i: nat)
    requires Distinct(s) && i < |s| && Room(seen, count)
    ensures s[i].id in Selected(s, periodOf, count, seen) <==> Fits(s, periodOf, count, seen, i)
  {
    if i == 0 {
      FirstSelected(s, periodOf, count, seen);
    } else {
      var more := seen + {periodOf(s[0].at.date)};
      FitsLater(s, periodOf, count, seen, i);
      SelectedLater(s, periodOf, count, seen, i);
      if Room(more, count) {
        SelectedMeans(s[1..], periodOf, count, more, i - 1);
      } else {
        NothingFits(s[1..], periodOf, count, more, i - 1);
      }
    }
  }

  /**
  A rule keeps exactly the newest backup of each of the `count` most recent periods that have one: those of whose period
  no newer backup is, with fewer than `count` periods newer than theirs.
  */
  lemma RuleMeans<Id>(s: seq<Entry<Id>>, periodOf: Calendared, count: int, i: nat)
    requires Distinct(s) && i < |s| && count > 0
    ensures s[i].id in ByRule(s, periodOf, Some(count)) <==>
      periodOf(s[i].at.date) !in PeriodsOf(s[..i], periodOf) && |PeriodsOf(s[..i], periodOf)| < count
  {
    SelectedMeans(s, periodOf, count, {}, i);
    assert {} + PeriodsOf(s[..i], periodOf) == PeriodsOf(s[..i], periodOf);
  }

  lemma KeptWithin<Id>(s: seq<Entry<Id>>, policy: Policy)
    ensures Kept(s, policy) <= Ids(s)
  {
    var ordered := NewestFirst(s);
    NewestFirstSorts(s);
    NewestWithin(ordered, policy.last);
    RuleWithin(ordered, PeriodOf(Daily), policy.daily);
    RuleWithin(ordered, PeriodOf(Weekly), policy.weekly);
    RuleWithin(ordered, PeriodOf(Monthly), policy.monthly);
  }

  lemma NewestWithin<Id>(s: seq<Entry<Id>>, last: Option<int>)
    ensures Newest(s, last) <= Ids(s)
  {
    if last.Some? && 0 <= last.value < |s| {
      assert s == s[..last.value] + s[last.value..];
      IdsOfConcat(s[..last.value], s[last.value..]);
    }
  }

  lemma RuleWithin<Id>(s: seq<Entry<Id>>, periodOf: Calendared, count: Option<int>)
    ensures ByRule(s, periodOf, count) <= Ids(s)
  {
    if count.Some? {
      SelectedWithin(s, periodOf, count.value, {});
    }
  }

  // ---- Keeping among fewer ----

  /** Among fewer backups a rule keeps every one of them it kept before. */
  lemma {:induction false} SelectedAmongFewer<Id>(
    s: seq<Entry<Id>>, periodOf: Calendared, count: int, seen: set<Period>, fewer: set<Period>, some: set<Id>)
    requires fewer <= seen && Room(seen, count)
    ensures Selected(s, periodOf, count, seen) * some <= Selected(Only(s, some), periodOf, count, fewer)
  {
    if s == [] {
      return;
    }
    CountGrows(fewer, seen);
    var period := periodOf(s[0].at.date);
    var rest := Only(s[1..], some);
    if s[0].id in some {
      assert Only(s, some)[1..] == rest;
    }
    if period in seen {
      var taken := if s[0].id in some then fewer + {period} else fewer;
      CountGrows(taken, seen);
      SelectedAmongFewer(s[1..], periodOf, count, seen, taken, some);
      if s[0].id in some && period in fewer {
        assert taken == fewer;
      }
    } else if |seen| + 1 < count {
      var taken := if s[0].id in some then fewer + {period} else fewer;
      SelectedAmongFewer(s[1..], periodOf, count, seen + {period}, taken, some);
    }
  }

  lemma {:induction false} NewestAmongFewer<Id>(s: seq<Entry<Id>>, last: Option<int>, some: set<Id>)
    ensures Newest(s, last) * some <= Newest(Only(s, some), last)
    decreases |s|
  {
    if s != [] && last.Some? && last.value > 0 {
      var n := last.value;
      var rest := Only(s[1..], some);
      NewestSteps(s, n);
      if s[0].id in some {
        NewestAmongFewer(s[1..], Some(n - 1), some);
        assert Only(s, some)[1..] == rest;
        NewestSteps(Only(s, some), n);
      } else {
        NewestAmongFewer(s[1..], Some(n - 1), some);
        NewestMonotone(rest, n - 1);
      }
    }
  }

  lemma NewestSteps<Id>(s: seq<Entry<Id>>, n: int)
    requires s != [] && n > 0
    ensures Newest(s, Some(n)) == {s[0].id} + Newest(s[1..], Some(n - 1))
  {
    var m := n - 1;
    if n < |s| {
      assert s[..n] == [s[0]] + s[1..][..m];
    } else {
      assert s == [s[0]] + s[1..];
      assert m == |s[1..]| ==> s[1..][..m] == s[1..];
    }
  }

  lemma NewestMonotone<Id>(s: seq<Entry<Id>>, n: int)
    requires n >= 0
    ensures Newest(s, Some(n)) <= Newest(s, Some(n + 1))
  {
    if n < |s| {
      assert s[..n + 1] == s[..n] + [s[n]];
      assert n + 1 == |s| ==> s[..n + 1] == s;
      IdsOfConcat(s[..n], [s[n]]);
    }
  }

  lemma KeptAmongFewer<Id>(s: seq<Entry<Id>>, policy: Policy, some: set<Id>)
    ensures Kept(s, policy) * some <= Kept(Only(s, some), policy)
  {
    NewestFirstOfOnly(s, some);
    var ordered := NewestFirst(s);
    NewestAmongFewer(ordered, policy.last, some);
    RuleAmongFewer(ordered, PeriodOf(Daily), policy.daily, some);
    RuleAmongFewer(ordered, PeriodOf(Weekly), policy.weekly, some);
    RuleAmongFewer(ordered, PeriodOf(Monthly), policy.monthly, some);
  }

  lemma RuleAmongFewer<Id>(s: seq<Entry<Id>>, periodOf: Calendared, count: Option<int>, some: set<Id>)
    ensures ByRule(s, periodOf, count) * some <= ByRule(Only(s, some), periodOf, count)
  {
    if count.Some? {
      SelectedAmongFewer(s, periodOf, count.value, {}, {}, some);
    }
  }

  // ---- Keeping among enough ----

  /** As long as none of the backups a rule keeps is missing, it keeps the same ones. */
  lemma {:induction false} SelectedAmongEnough<Id>(
    s: seq<Entry<Id>>, periodOf: Calendared, count: int, seen: set<Period>, enough: set<Id>)
    requires Selected(s, periodOf, count, seen) <= enough
    ensures Selected(Only(s, enough), periodOf, count, seen) == Selected(s, periodOf, count, seen)
  {
    if s != [] {
      var period := periodOf(s[0].at.date);
      if s[0].id in enough {
        assert Only(s, enough)[1..] == Only(s[1..], enough);
      }
      if period in seen {
        SelectedAmongEnough(s[1..], periodOf, count, seen, enough);
      } else if |seen| + 1 < count {
        SelectedAmongEnough(s[1..], periodOf, count, seen + {period}, enough);
      }
    }
  }

  lemma {:induction false} NewestAmongEnough<Id>(s: seq<Entry<Id>>, last: Option<int>, enough: set<Id>)
    requires Newest(s, last) <= enough
    ensures Newest(Only(s, enough), last) == Newest(s, last)
    decreases |s|
  {
    if s != [] && last.Some? && last.value > 0 {
      NewestSteps(s, last.value);
      NewestAmongEnough(s[1..], Some(last.value - 1), enough);
      assert Only(s, enough)[1..] == Only(s[1..], enough);
      NewestSteps(Only(s, enough), last.value);
    }
  }

  lemma RuleAmongEnough<Id>(s: seq<Entry<Id>>, periodOf: Calendared, count: Option<int>, enough: set<Id>)
    requires ByRule(s, periodOf, count) <= enough
    ensures ByRule(Only(s, enough), periodOf, count) == ByRule(s, periodOf, count)
  {
    if count.Some? && count.value != 0 {
      SelectedAmongEnough(s, periodOf, count.value, {}, enough);
    }
  }

  /** The core of pruning as one goes: nothing changes while what is kept is still there. */
  lemma KeptAmongEnough<Id>(s: seq<Entry<Id>>, policy: Policy, enough: set<Id>)
    requires Kept(s, policy) <= enough
    ensures Kept(Only(s, enough), policy) == Kept(s, policy)
  {
    NewestFirstOfOnly(s, enough);
    var ordered := NewestFirst(s);
    NewestAmongEnough(ordered, policy.last, enough);
    RuleAmongEnough(ordered, PeriodOf(Daily), policy.daily, enough);
    RuleAmongEnough(ordered, PeriodOf(Weekly), policy.weekly, enough);
    RuleAmongEnough(ordered, PeriodOf(Monthly), policy.monthly, enough);
  }
}
