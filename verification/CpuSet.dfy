/**
A set of host CPUs as text: parsed from numbers and ranges in any order, shown as its maximal runs.
*/
module CpuSet {
  import opened Wrappers
  import opened Sorting
  import opened RangeText

  const MAX_CPU_ID := 4095

  datatype Error = BadPattern | BadOrder | NoSuchCpu

  // ---- Parsing ----

  /** The first range that is not one. */
  function Fault(rs: seq<Range>): Option<Error>
  {
    if rs == [] then None
    else if rs[0].first > rs[0].last then Some(BadOrder)
    else if rs[0].last > MAX_CPU_ID then Some(NoSuchCpu)
    else Fault(rs[1..])
  }

  function WithoutSpaces(s: string): string
  {
    if s == "" then "" else (if s[0] == ' ' then "" else [s[0]]) + WithoutSpaces(s[1..])
  }

  /** A pattern's end also matches before a last line feed. */
  function Chomped(s: string): string
  {
    if s != "" && s[|s| - 1] == '\n' then s[..|s| - 1] else s
  }

  function ParseRanges(rs: seq<Range>): Result<seq<int>, Error>
  {
    match Fault(rs)
    case Some(e) => Err(e)
    case None => Ok(Ascending(Covered(rs)))
  }

  function ParseCpuset(text: string): Result<seq<int>, Error>
  {
    match ParseParts(Split(Chomped(WithoutSpaces(text)), ','))
    case None => Err(BadPattern)
    case Some(rs) => ParseRanges(rs)
  }

  method Parse(text: string) returns (r: Result<seq<int>, Error>)
    ensures r == ParseCpuset(text)
  {
    var parts := ParseParts(Split(Chomped(WithoutSpaces(text)), ','));
    if parts.None? {
      return Err(BadPattern);
    }
    r := Collect(parts.value);
  }

  method Collect(rs: seq<Range>) returns (r: Result<seq<int>, Error>)
    ensures r == ParseRanges(rs)
  {
    var cpus: set<int> := {};
    for i := 0 to |rs|
      invariant Fault(rs) == Fault(rs[i..]) && Covered(rs) == cpus + Covered(rs[i..])
    {
      assert rs[i..][1..] == rs[i + 1..];
      if rs[i].first > rs[i].last {
        return Err(BadOrder);
      }
      if rs[i].last > MAX_CPU_ID {
        return Err(NoSuchCpu);
      }
      cpus := cpus + Numbers(rs[i]);
    }
    r := Ok(Ascending(cpus));
  }

  // ---- Showing ----

  predicate Ids(s: seq<int>)
  {
    StrictlyAscending(s) && forall i | 0 <= i < |s| :: 0 <= s[i]
  }

  /** Where the run of numbers that begins at `i` ends. */
  function RunEnd(s: seq<int>, i: nat): (j: nat)
    requires i < |s|
    ensures i <= j < |s|
    decreases |s| - i
  {
    if i + 1 < |s| && s[i + 1] == s[i] + 1 then RunEnd(s, i + 1) else i
  }

  lemma {:induction false} RunSteps(s: seq<int>, i: nat, k: nat)
    requires i <= k < |s| && k <= RunEnd(s, i)
    ensures s[k] == s[i] + (k - i)
    ensures k == RunEnd(s, i) && k + 1 < |s| ==> s[k + 1] != s[k] + 1
    decreases |s| - i
  {
    if i < k {
      RunSteps(s, i + 1, k);
    }
  }

  function RunsFrom(s: seq<int>, i: nat): seq<Range>
    requires Ids(s) && i <= |s|
    decreases |s| - i
  {
    if i == |s| then [] else var j := RunEnd(s, i); [Range(s[i], s[j])] + RunsFrom(s, j + 1)
  }

  function Runs(s: seq<int>): seq<Range>
    requires Ids(s)
  {
    RunsFrom(s, 0)
  }

  function FormatCpuset(cpus: set<int>): string
    requires forall v | v in cpus :: 0 <= v
  {
    SortedIds(cpus);
    Join(ShowRanges(Runs(Ascending(cpus))), ',')
  }

  lemma SortedIds(cpus: set<int>)
    requires forall v | v in cpus :: 0 <= v
    ensures Ids(Ascending(cpus))
  {
    var s := Ascending(cpus);
    assert forall i | 0 <= i < |s| :: s[i] in s;
  }

  method FindRunEnd(s: seq<int>, i: nat) returns (j: nat)
    requires i < |s|
    ensures j == RunEnd(s, i)
  {
    j := i;
    while j + 1 < |s| && s[j + 1] == s[j] + 1
      invariant i <= j < |s| && RunEnd(s, i) == RunEnd(s, j)
    {
      j := j + 1;
    }
  }

  method Format(cpus: set<int>) returns (text: string)
    requires forall v | v in cpus :: 0 <= v
    ensures text == FormatCpuset(cpus)
  {
    SortedIds(cpus);
    var parts := FormatRuns(Ascending(cpus));
    text := Join(parts, ',');
  }

  method FormatRuns(s: seq<int>) returns (parts: seq<string>)
    requires Ids(s)
    ensures parts == ShowRanges(Runs(s))
  {
    parts := [];
    var i := 0;
    ghost var all, runs: seq<Range> := Runs(s), [];
    while i < |s|
      invariant i <= |s| && all == runs + RunsFrom(s, i) && parts == ShowRanges(runs)
    {
      var j := FindRunEnd(s, i);
      ghost var run: Range := Range(s[i], s[j]);
      Regroup(all, runs, run, RunsFrom(s, j + 1));
      ShowOneMore(runs, run);
      RunSteps(s, i, j);
      parts := parts + [if i == j then Show(s[i]) else Show(s[i]) + "-" + Show(s[j])];
      runs := runs + [run];
      i := j + 1;
    }
  }

  lemma Regroup(all: seq<Range>, runs: seq<Range>, run: Range, rest: seq<Range>)
    requires all == runs + ([run] + rest)
    ensures all == runs + [run] + rest
  {
  }

  // ---- Maximal runs ----

  /** Ranges in order, each with a gap before the next. */
  ghost predicate Canonical(rs: seq<Range>)
  {
    && (forall i | 0 <= i < |rs| :: rs[i].first <= rs[i].last)
    && (forall i, j | 0 <= i < j < |rs| :: rs[i].last + 1 < rs[j].first)
  }

  lemma {:induction false} RunsCover(s: seq<int>, i: nat)
    requires Ids(s) && i <= |s|
    ensures forall v :: v in Covered(RunsFrom(s, i)) <==> v in s[i..]
    ensures Canonical(RunsFrom(s, i)) && (i < |s| ==> RunsFrom(s, i)[0].first == s[i])
    decreases |s| - i
  {
    if i < |s| {
      var j := RunEnd(s, i);
      RunsCover(s, j + 1);
      forall v
        ensures v in s[i..] <==> v in Numbers(Range(s[i], s[j])) || v in s[j + 1..]
      {
        FirstRun(s, i, v);
      }
      RunSteps(s, i, j);
      CanonicalWith(Range(s[i], s[j]), RunsFrom(s, j + 1));
    }
  }

  lemma FirstRun(s: seq<int>, i: nat, v: int)
    requires Ids(s) && i < |s|
    ensures var j := RunEnd(s, i); v in s[i..] <==> v in Numbers(Range(s[i], s[j])) || v in s[j + 1..]
  {
    var j := RunEnd(s, i);
    if v in s[i..] {
      InRunOrAfter(s, i, v);
    }
    if Within(v, Range(s[i], s[j])) {
      InRun(s, i, v);
    }
    assert s[i..] == s[i..j + 1] + s[j + 1..];
  }

  lemma InRunOrAfter(s: seq<int>, i: nat, v: int)
    requires Ids(s) && i < |s| && v in s[i..]
    ensures var j := RunEnd(s, i); Within(v, Range(s[i], s[j])) || v in s[j + 1..]
  {
    var j := RunEnd(s, i);
    var k :| 0 <= k < |s[i..]| && s[i..][k] == v;
    if i + k <= j {
      RunSteps(s, i, i + k);
      RunSteps(s, i, j);
    } else {
      assert s[j + 1..][i + k - j - 1] == v;
    }
  }

  lemma InRun(s: seq<int>, i: nat, v: int)
    requires Ids(s) && i < |s| && Within(v, Range(s[i], s[RunEnd(s, i)]))
    ensures v in s[i..]
  {
    RunSteps(s, i, RunEnd(s, i));
    RunSteps(s, i, i + (v - s[i]));
    assert s[i..][v - s[i]] == v;
  }

  lemma CanonicalWith(r: Range, rs: seq<Range>)
    requires r.first <= r.last && Canonical(rs) && (rs != [] ==> r.last + 1 < rs[0].first)
    ensures Canonical([r] + rs)
  {
    var all := [r] + rs;
    forall i, j | 0 <= i < j < |all|
      ensures all[i].last + 1 < all[j].first
    {
      assert j > 1 ==> rs[0].last + 1 < rs[j - 1].first;
    }
  }

  /** Of ranges that cover the same numbers, only one list is canonical. */
  lemma {:induction false} CanonicalUnique(a: seq<Range>, b: seq<Range>)
    requires Canonical(a) && Canonical(b) && Covered(a) == Covered(b)
    ensures a == b
    decreases |a|
  {
    if a == [] {
      if b != [] {
        FirstCovered(b);
      }
    } else {
      FirstsAgree(a, b);
      RestCovered(a);
      RestCovered(b);
      CanonicalUnique(a[1..], b[1..]);
      assert a == [a[0]] + a[1..] && b == [b[0]] + b[1..];
    }
  }

  lemma RestCovered(rs: seq<Range>)
    requires Canonical(rs) && rs != []
    ensures Canonical(rs[1..]) && Covered(rs[1..]) == Covered(rs) - Numbers(rs[0])
  {
    forall v | v in Covered(rs[1..])
      ensures v !in Numbers(rs[0])
    {
      CoveredMeans(rs[1..], v);
      var i :| 0 <= i < |rs[1..]| && v in Numbers(rs[1..][i]);
      assert rs[0].last + 1 < rs[i + 1].first;
    }
  }

  /** Nothing is covered just before a canonical list, nor just after its first range. */
  lemma AroundFirst(rs: seq<Range>, v: int)
    requires Canonical(rs) && rs != [] && (v < rs[0].first || v == rs[0].last + 1)
    ensures v !in Covered(rs)
  {
    forall i | 0 <= i < |rs|
      ensures v !in Numbers(rs[i])
    {
      assert i > 0 ==> rs[0].last + 1 < rs[i].first;
    }
    CoveredMeans(rs, v);
  }

  lemma FirstsAgree(a: seq<Range>, b: seq<Range>)
    requires Canonical(a) && Canonical(b) && Covered(a) == Covered(b) && a != []
    ensures b != [] && a[0] == b[0]
  {
    FirstCovered(a);
    if b != [] {
      FirstCovered(b);
      if a[0].first < b[0].first {
        AroundFirst(b, a[0].first);
      } else if b[0].first < a[0].first {
        AroundFirst(a, b[0].first);
      } else if a[0].last < b[0].last {
        assert Within(a[0].last + 1, b[0]);
        AroundFirst(a, a[0].last + 1);
      } else if b[0].last < a[0].last {
        assert Within(b[0].last + 1, a[0]);
        AroundFirst(b, b[0].last + 1);
      }
    }
  }

  lemma FirstCovered(rs: seq<Range>)
    requires Canonical(rs) && rs != []
    ensures rs[0].first in Covered(rs) && Numbers(rs[0]) <= Covered(rs)
  {
    assert Within(rs[0].first, rs[0]);
  }

  // ---- The round trip ----

  lemma {:induction false} NoSpaces(s: string)
    requires ' ' !in s
    ensures WithoutSpaces(s) == s
  {
    if s != "" {
      assert s[0] in s && forall c | c in s[1..] :: c in s;
      NoSpaces(s[1..]);
    }
  }

  predicate Sound(rs: seq<Range>)
  {
    forall i | 0 <= i < |rs| :: rs[i].first <= rs[i].last <= MAX_CPU_ID
  }

  lemma {:induction false} RunsAreSound(s: seq<int>, i: nat)
    requires Ids(s) && (forall k | 0 <= k < |s| :: s[k] <= MAX_CPU_ID) && i <= |s|
    ensures Sound(RunsFrom(s, i))
    decreases |s| - i
  {
    if i < |s| {
      var j := RunEnd(s, i);
      RunSteps(s, i, j);
      RunsAreSound(s, j + 1);
      SoundWith(Range(s[i], s[j]), RunsFrom(s, j + 1));
    }
  }

  lemma SoundWith(r: Range, rs: seq<Range>)
    requires Sound(rs) && r.first <= r.last <= MAX_CPU_ID
    ensures Sound([r] + rs)
  {
  }

  lemma {:induction false} SoundHasNoFault(rs: seq<Range>)
    requires Sound(rs)
    ensures Fault(rs) == None
  {
    if rs != [] {
      SoundHasNoFault(rs[1..]);
    }
  }

  /** Ranges shown and parsed back give what they cover. */
  lemma ShownRangesParse(rs: seq<Range>)
    requires rs != [] && Sound(rs)
    ensures ParseCpuset(Join(ShowRanges(rs), ',')) == Ok(Ascending(Covered(rs)))
  {
    var text := Join(ShowRanges(rs), ',');
    TextHasNoMark(rs, ' ');
    TextHasNoMark(rs, '\n');
    NoSpaces(text);
    assert Chomped(text) == text by {
      assert text != "" ==> text[|text| - 1] in text;
    }
    TextRoundTrip(rs);
    SoundHasNoFault(rs);
  }

  lemma RunsOfList(s: seq<int>, cpus: set<int>)
    requires Ids(s) && forall v :: v in s <==> v in cpus
    ensures Covered(Runs(s)) == cpus && Canonical(Runs(s)) && (cpus != {} ==> Runs(s) != [])
    ensures (forall v | v in cpus :: v <= MAX_CPU_ID) ==> Sound(Runs(s))
  {
    RunsCover(s, 0);
    assert s[0..] == s;
    forall v
      ensures v in Covered(Runs(s)) <==> v in cpus
    {
      assert v in Covered(RunsFrom(s, 0)) <==> v in s[0..];
    }
    if Runs(s) == [] {
      assert Covered(Runs(s)) == {};
    }
    if forall v | v in cpus :: v <= MAX_CPU_ID {
      forall k | 0 <= k < |s|
        ensures s[k] <= MAX_CPU_ID
      {
        assert s[k] in s;
      }
      RunsAreSound(s, 0);
    }
  }

  /** Shown and parsed back, a set of CPUs is itself, sorted. */
  lemma CpusetRoundTrip(cpus: set<int>)
    requires cpus != {} && forall v | v in cpus :: 0 <= v <= MAX_CPU_ID
    ensures ParseCpuset(FormatCpuset(cpus)) == Ok(Ascending(cpus))
  {
    SortedIds(cpus);
    RunsOfList(Ascending(cpus), cpus);
    ShownRangesParse(Runs(Ascending(cpus)));
  }

  /** The text is that of the one list of ranges with gaps between them that covers the set. */
  lemma FormatIsCanonical(cpus: set<int>, rs: seq<Range>)
    requires (forall v | v in cpus :: 0 <= v) && Canonical(rs) && Covered(rs) == cpus
    ensures FormatCpuset(cpus) == Join(ShowRanges(rs), ',')
  {
    SortedIds(cpus);
    RunsOfList(Ascending(cpus), cpus);
    CanonicalUnique(Runs(Ascending(cpus)), rs);
  }

  /** What an empty set is shown as is not parsed. */
  lemma EmptyIsRefused()
    ensures ParseCpuset(FormatCpuset({})) == Err(BadPattern)
  {
    assert Ascending({}) == [];
    assert Split("", ',') == [""];
    assert Split("", '-') == [""];
  }

  /** What is parsed from any text is shown in a form that parses to the same. */
  lemma ParsedIsNormalised(text: string)
    requires ParseCpuset(text).Ok?
    ensures var cpus := set v | v in ParseCpuset(text).value;
      && cpus != {} && (forall v | v in cpus :: 0 <= v <= MAX_CPU_ID)
      && ParseCpuset(FormatCpuset(cpus)) == ParseCpuset(text)
  {
    var rs := ParseParts(Split(Chomped(WithoutSpaces(text)), ',')).value;
    var cpus := set v | v in ParseCpuset(text).value;
    assert cpus == Covered(rs);
    ParsedBounds(rs);
    CpusetRoundTrip(cpus);
  }

  lemma {:induction false} ParsedBounds(rs: seq<Range>)
    requires Fault(rs) == None
    ensures (forall v | v in Covered(rs) :: 0 <= v <= MAX_CPU_ID) && (rs != [] ==> Covered(rs) != {})
  {
    if rs != [] {
      ParsedBounds(rs[1..]);
      assert rs[0].first in Numbers(rs[0]);
    }
  }
}
