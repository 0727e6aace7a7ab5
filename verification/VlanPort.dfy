/**
A bridge port's VLANs: the trunk ranges as text, and the commands that set the port's table from them.
*/
module VlanPort {
  import opened Wrappers
  import opened RangeText
  import opened Sorting

  const DEFAULT_PVID := 1
  const MAX_VLAN := 4094

  datatype Error = BadTrunks | CommandFailed

  // ---- Trunk ranges as text ----

  predicate ValidRange(r: Range)
  {
    1 <= r.first <= r.last <= MAX_VLAN
  }

  predicate Blank(c: char)
  {
    c == ' ' || '\t' <= c <= '\r' || 0x1c <= c as int <= 0x1f
  }

  function Stripped(s: string): string
  {
    if s != "" && Blank(s[0]) then Stripped(s[1..])
    else if s != "" && Blank(s[|s| - 1]) then Stripped(s[..|s| - 1])
    else s
  }

  function Commas(s: string): string
  {
    seq(|s|, i requires 0 <= i < |s| => if s[i] == ';' then ',' else s[i])
  }

  /** By first number, then by last, as Python orders pairs. */
  predicate NotAfter(a: Range, b: Range)
  {
    a.first < b.first || (a.first == b.first && a.last <= b.last)
  }

  function Insert(r: Range, rs: seq<Range>): seq<Range>
  {
    if rs == [] || NotAfter(r, rs[0]) then [r] + rs else [rs[0]] + Insert(r, rs[1..])
  }

  function Sorted(rs: seq<Range>): seq<Range>
  {
    if rs == [] then [] else Insert(rs[0], Sorted(rs[1..]))
  }

  function ParseTrunkParts(parts: seq<string>): Result<seq<Range>, Error>
  {
    if parts == [] then Ok([])
    else
      match ParsePart(Stripped(parts[0]))
      case None => Err(BadTrunks)
      case Some(r) =>
        if !ValidRange(r) then Err(BadTrunks)
        else
          match ParseTrunkParts(parts[1..])
          case Err(e) => Err(e)
          case Ok(rest) => Ok([r] + rest)
  }

  /** No text, or a blank one, is no trunk. */
  function ParseTrunks(text: Option<string>): Result<seq<Range>, Error>
  {
    if text.None? || Stripped(text.value) == "" then Ok([])
    else
      match ParseTrunkParts(Split(Commas(text.value), ','))
      case Err(e) => Err(e)
      case Ok(rs) => Ok(Sorted(rs))
  }

  method Parse(text: Option<string>) returns (r: Result<seq<Range>, Error>)
    ensures r == ParseTrunks(text)
  {
    if text.None? || Stripped(text.value) == "" {
      return Ok([]);
    }
    var ranges := ParseList(Split(Commas(text.value), ','));
    if ranges.Err? {
      return ranges;
    }
    r := Ok(Sorted(ranges.value));
  }

  function After(ranges: seq<Range>, rest: Result<seq<Range>, Error>): Result<seq<Range>, Error>
  {
    if rest.Ok? then Ok(ranges + rest.value) else rest
  }

  method ParseList(parts: seq<string>) returns (r: Result<seq<Range>, Error>)
    ensures r == ParseTrunkParts(parts)
  {
    var ranges: seq<Range> := [];
    ghost var rest, all := parts, ParseTrunkParts(parts);
    assert all.Ok? ==> [] + all.value == all.value;
    for i := 0 to |parts|
      invariant rest == parts[i..] && all == After(ranges, ParseTrunkParts(rest))
    {
      var part := ParsePart(Stripped(parts[i]));
      if part.None? || !ValidRange(part.value) {
        return Err(BadTrunks);
      }
      OneMoreRange(ranges, part.value, ParseTrunkParts(rest[1..]));
      ranges := ranges + [part.value];
      rest := rest[1..];
    }
    assert rest == [] && ranges + [] == ranges;
    r := Ok(ranges);
  }

  lemma OneMoreRange(ranges: seq<Range>, r: Range, rest: Result<seq<Range>, Error>)
    ensures After(ranges + [r], rest) == After(ranges, After([r], rest))
  {
    if rest.Ok? {
      assert ranges + [r] + rest.value == ranges + ([r] + rest.value);
    }
  }

  function FormatTrunks(ranges: seq<Range>): Option<string>
  {
    if ranges == [] then None else Some(Join(ShowRanges(ranges), ','))
  }

  // ---- The round trip ----

  ghost predicate InOrder(rs: seq<Range>)
  {
    forall i, j | 0 <= i < j < |rs| :: NotAfter(rs[i], rs[j])
  }

  ghost predicate AllValid(rs: seq<Range>)
  {
    forall i | 0 <= i < |rs| :: ValidRange(rs[i])
  }

  lemma {:induction false} InsertKeeps(r: Range, rs: seq<Range>)
    requires InOrder(rs)
    ensures InOrder(Insert(r, rs)) && multiset(Insert(r, rs)) == multiset(rs) + multiset{r}
    ensures rs != [] ==> Insert(r, rs)[0] in {r, rs[0]}
  {
    if rs == [] {
    } else if NotAfter(r, rs[0]) {
      FrontInOrder(r, rs);
    } else {
      InsertKeeps(r, rs[1..]);
      assert rs == [rs[0]] + rs[1..];
      var rest := Insert(r, rs[1..]);
      assert NotAfter(rs[0], rest[0]);
      FrontInOrder(rs[0], rest);
    }
  }

  lemma FrontInOrder(r: Range, rs: seq<Range>)
    requires InOrder(rs) && (rs != [] ==> NotAfter(r, rs[0]))
    ensures InOrder([r] + rs)
  {
  }

  /** The ranges parsed come out in order, none lost and none added. */
  lemma {:induction false} SortedSorts(rs: seq<Range>)
    ensures InOrder(Sorted(rs)) && multiset(Sorted(rs)) == multiset(rs)
  {
    if rs != [] {
      SortedSorts(rs[1..]);
      InsertKeeps(rs[0], Sorted(rs[1..]));
      assert rs == [rs[0]] + rs[1..];
    }
  }

  lemma {:induction false} SortedOfInOrder(rs: seq<Range>)
    requires InOrder(rs)
    ensures Sorted(rs) == rs
  {
    if rs != [] {
      SortedOfInOrder(rs[1..]);
      assert rs[1..] != [] ==> NotAfter(rs[0], rs[1]);
      assert rs == [rs[0]] + rs[1..];
    }
  }

  lemma NothingToStrip(s: string)
    requires forall c | c in s :: !Blank(c)
    ensures Stripped(s) == s
  {
    if s != "" {
      assert s[0] in s && s[|s| - 1] in s;
    }
  }

  lemma ShownPartParses(r: Range)
    requires ValidRange(r)
    ensures ParsePart(Stripped(ShowRange(r))) == Some(r)
  {
    forall c | Blank(c)
      ensures c !in ShowRange(r)
    {
      RangeHasNoMark(r, c);
    }
    NothingToStrip(ShowRange(r));
    PartRoundTrip(r);
  }

  lemma FirstPartParses(parts: seq<string>, rs: seq<Range>)
    requires |parts| == |rs| > 0 && ParsePart(Stripped(parts[0])) == Some(rs[0]) && ValidRange(rs[0])
    requires ParseTrunkParts(parts[1..]) == Ok(rs[1..])
    ensures ParseTrunkParts(parts) == Ok(rs)
  {
    assert rs == [rs[0]] + rs[1..];
  }

  lemma {:induction false} ShownPartsParse(rs: seq<Range>, parts: seq<string>)
    requires AllValid(rs) && parts == ShowRanges(rs)
    ensures ParseTrunkParts(parts) == Ok(rs)
    decreases |rs|
  {
    if rs != [] {
      ShownPartParses(rs[0]);
      assert parts[1..] == ShowRanges(rs[1..]);
      ShownPartsParse(rs[1..], parts[1..]);
      FirstPartParses(parts, rs);
    }
  }

  /** Sorted valid ranges, shown and parsed, come back; so does none. */
  lemma TrunksRoundTrip(rs: seq<Range>)
    requires AllValid(rs) && InOrder(rs)
    ensures ParseTrunks(FormatTrunks(rs)) == Ok(rs)
  {
    if rs != [] {
      var text := Join(ShowRanges(rs), ',');
      TextHasNoMark(rs, ';');
      assert Commas(text) == text by {
        assert forall i | 0 <= i < |text| :: text[i] in text;
      }
      forall c | Blank(c)
        ensures c !in text
      {
        TextHasNoMark(rs, c);
      }
      NothingToStrip(text);
      assert |rs| > 0;
      TextRoundTrip(rs);
      TextIsThere(rs);
      ShownPartsParse(rs, ShowRanges(rs));
      SortedOfInOrder(rs);
    }
  }

  /** One range alone: it is a trunk exactly when its ends are in order and among the VLANs from 1 to 4094. */
  lemma OneRangeIff(r: Range)
    requires r.first <= 9999 && r.last <= 9999
    ensures ParseTrunks(Some(ShowRange(r))) == if 1 <= r.first <= r.last <= 4094 then Ok([r]) else Err(BadTrunks)
  {
    var text := ShowRange(r);
    if 1 <= r.first <= r.last <= 4094 {
      TrunksRoundTrip([r]);
      assert ShowRanges([r]) == [text] && Join([text], ',') == text;
    } else {
      forall c | Blank(c) || c == ',' || c == ';'
        ensures c !in text
      {
        RangeHasNoMark(r, c);
      }
      NothingToStrip(text);
      assert Commas(text) == text by {
        assert forall i | 0 <= i < |text| :: text[i] in text;
      }
      SplitFirst(text, ',', "");
      PartRoundTrip(r);
    }
  }

  /** Commas and semicolons both separate, and no other character becomes a separator. */
  lemma EitherSeparates(text: string, i: nat)
    requires i < |text|
    ensures |Commas(text)| == |text|
    ensures Commas(text)[i] == ',' <==> text[i] == ',' || text[i] == ';'
    ensures text[i] != ';' ==> Commas(text)[i] == text[i]
  {
  }

  ghost predicate AllBlank(s: string)
  {
    forall i | 0 <= i < |s| :: Blank(s[i])
  }

  /** What is stripped is the blanks on either side, all of them and nothing else. */
  lemma {:induction false} StripsBlanksOnly(before: string, text: string, after: string)
    requires AllBlank(before) && AllBlank(after)
    requires text == "" || (!Blank(text[0]) && !Blank(text[|text| - 1]))
    ensures Stripped(before + text + after) == text
    decreases |before| + |after|
  {
    var s := before + text + after;
    if before != "" {
      assert s[1..] == before[1..] + text + after;
      StripsBlanksOnly(before[1..], text, after);
    } else if after != "" && text != "" {
      assert s[..|s| - 1] == before + text + after[..|after| - 1];
      StripsBlanksOnly(before, text, after[..|after| - 1]);
    } else if after != "" {
      assert s[1..] == before + text + after[1..];
      StripsBlanksOnly(before, text, after[1..]);
    } else {
      assert s == text;
    }
  }

  /** Ranges are put in order as pairs are: by the first number and, only where those are equal, by the last. */
  lemma PairsInOrder(a: Range, b: Range)
    ensures a.first < b.first ==> NotAfter(a, b) && !NotAfter(b, a)
    ensures a.first == b.first ==> (NotAfter(a, b) <==> a.last <= b.last)
  {
  }

  /** What strip() takes for white space, among the characters of ASCII. */
  lemma BlankIff(c: char)
    ensures Blank(c) <==> c as int in {9, 10, 11, 12, 13, 28, 29, 30, 31, 32}
  {
  }

  lemma TextIsThere(rs: seq<Range>)
    requires rs != []
    ensures Join(ShowRanges(rs), ',') != ""
  {
    assert ShowRanges(rs)[0] == ShowRange(rs[0]) != "";
  }

  // ---- The port's table ----

  /** A VLAN of the port: the one its untagged traffic is of, or a tagged one. */
  datatype Mode = Access | Tagged

  /** The mode of each VLAN of the port; VLANs are numbered from 0 on. */
  type Table = t: map<int, Mode> | forall v | v in t :: 0 <= v

  /** What lists the port's VLANs: ranges that cover them and no other. */
  ghost predicate Lists(show: Table -> seq<Range>)
  {
    forall t: Table :: Covered(show(t)) == t.Keys
  }

  /** One range for each number. */
  function OneByOne(vs: seq<int>): seq<Range>
    requires forall i | 0 <= i < |vs| :: 0 <= vs[i]
  {
    if vs == [] then [] else [Range(vs[0], vs[0])] + OneByOne(vs[1..])
  }

  function Listed(t: Table): seq<Range>
  {
    var vs := Ascending(t.Keys);
    assert forall i | 0 <= i < |vs| :: vs[i] in vs;
    OneByOne(vs)
  }

  lemma {:induction false} OneByOneCovers(vs: seq<int>, v: int)
    requires forall i | 0 <= i < |vs| :: 0 <= vs[i]
    ensures v in Covered(OneByOne(vs)) <==> v in vs
  {
    if vs != [] {
      OneByOneCovers(vs[1..], v);
      assert OneByOne(vs)[1..] == OneByOne(vs[1..]);
      assert Within(v, Range(vs[0], vs[0])) <==> v == vs[0];
    }
  }

  /** A port's VLANs can be listed: one by one in ascending order, for one. */
  lemma SomethingLists()
    ensures Lists(Listed)
  {
    forall t: Table
      ensures Covered(Listed(t)) == t.Keys
    {
      forall v
        ensures v in Covered(Listed(t)) <==> v in t.Keys
      {
        OneByOneCovers(Ascending(t.Keys), v);
      }
    }
  }

  /** How commands turn out: which of them fail, and what the table is after one that fails. */
  datatype World = World(works: nat -> bool, broken: nat -> Table)

  function AddTagged(t: Table, r: Range): Table
  {
    t + map v | v in Numbers(r) :: Tagged
  }

  /** The access VLAN, and the VLANs of the ranges tagged but for it. */
  ghost function Wanted(access: nat, ranges: seq<Range>): Table
  {
    map v | v in Covered(ranges) + {access} :: if v == access then Access else Tagged
  }

  /** A range, or what is left of it on each side of the access VLAN. */
  function Pieces(r: Range, access: nat): seq<Range>
  {
    if 1 <= access && r.first <= access <= r.last then [Range(r.first, access - 1), Range(access + 1, r.last)] else [r]
  }

  lemma {:induction false} CoveredOfConcat(a: seq<Range>, b: seq<Range>)
    ensures Covered(a + b) == Covered(a) + Covered(b)
  {
    if a == [] {
      assert a + b == b;
    } else {
      assert (a + b)[1..] == a[1..] + b;
      CoveredOfConcat(a[1..], b);
    }
  }

  lemma PiecesCover(r: Range, access: nat)
    requires 1 <= access
    ensures Covered(Pieces(r, access)) == Numbers(r) - {access}
  {
    var pieces := Pieces(r, access);
    forall v
      ensures v in Covered(pieces) <==> v in Numbers(r) - {access}
    {
      CoveredMeans(pieces, v);
      assert v in Numbers(r) <==> Within(v, r);
      assert forall i | 0 <= i < |pieces| :: v in Numbers(pieces[i]) <==> Within(v, pieces[i]);
      assert |pieces| == 1 ==> pieces[0] == r;
      if |pieces| == 2 {
        assert Within(v, r) && v != access <==> Within(v, pieces[0]) || Within(v, pieces[1]);
      }
    }
  }

  lemma OnePieceMore(access: nat, ranges: seq<Range>, r: Range)
    requires access !in Numbers(r)
    ensures Wanted(access, ranges + [r]) == AddTagged(Wanted(access, ranges), r)
  {
    CoveredOfConcat(ranges, [r]);
    assert Covered([r]) == Numbers(r) + {};
  }

  lemma SameWanted(access: nat, a: seq<Range>, b: seq<Range>)
    requires Covered(a) + {access} == Covered(b) + {access}
    ensures Wanted(access, a) == Wanted(access, b)
  {
  }

  class Port {
    var table: Table
    var commands: nat  // run so far

    /** A command that changes the table. */
    method Run(world: World, after: Table) returns (ok: bool)
      modifies this
      ensures ok == world.works(old(commands)) && commands == old(commands) + 1
      ensures table == if ok then after else world.broken(old(commands))
    {
      ok := world.works(commands);
      table := if ok then after else world.broken(commands);
      commands := commands + 1;
    }

    /** List the port's VLANs, then delete them, one range after the other. */
    method Clear(world: World, show: Table -> seq<Range>) returns (ok: bool)
      requires Lists(show)
      modifies this
      ensures commands > old(commands)
      ensures if ok then table == map[] else !world.works(commands - 1)
    {
      ok := world.works(commands);
      commands := commands + 1;
      if !ok {
        return;
      }
      var ranges := show(table);
      ghost var rest := ranges;
      for i := 0 to |ranges|
        invariant rest == ranges[i..] && table.Keys <= Covered(rest) && commands > old(commands)
      {
        ok := Run(world, table - Numbers(ranges[i]));
        if !ok {
          return;
        }
        rest := rest[1..];
      }
      ok := true;
    }

    /** Add the pieces of one range. */
    method AddRange(world: World, r: Range, access: nat, ghost done: seq<Range>) returns (ok: bool)
      requires 1 <= access && table == Wanted(access, done)
      modifies this
      ensures commands >= old(commands)
      ensures if ok then table == Wanted(access, done + [r]) else commands > 0 && !world.works(commands - 1)
    {
      var pieces := Pieces(r, access);
      PiecesCover(r, access);
      ghost var added := done;
      for i := 0 to |pieces|
        invariant commands >= old(commands) && added == done + pieces[..i] && table == Wanted(access, added)
      {
        var p := pieces[i];
        assert access !in Numbers(p);
        OnePieceMore(access, added, p);
        if p.first <= p.last {
          ok := Run(world, AddTagged(table, p));
          if !ok {
            return;
          }
        } else {
          assert Numbers(p) == {};
        }
        added := added + [p];
        assert done + pieces[..i + 1] == added;
      }
      assert pieces[..|pieces|] == pieces;
      CoveredOfConcat(done, pieces);
      CoveredOfConcat(done, [r]);
      assert Covered([r]) == Numbers(r) + {};
      SameWanted(access, done + pieces, done + [r]);
      ok := true;
    }

    method Set(world: World, show: Table -> seq<Range>, access: nat, ranges: seq<Range>) returns (ok: bool)
      requires Lists(show) && 1 <= access
      modifies this
      ensures commands > old(commands)
      ensures if ok then table == Wanted(access, ranges) else !world.works(commands - 1)
    {
      ok := Clear(world, show);
      if !ok {
        return;
      }
      ok := Run(world, table[access := Access]);
      if !ok {
        return;
      }
      assert table == Wanted(access, []);
      for i := 0 to |ranges|
        invariant commands > old(commands) && table == Wanted(access, ranges[..i])
      {
        assert ranges[..i] + [ranges[i]] == ranges[..i + 1];
        ok := AddRange(world, ranges[i], access, ranges[..i]);
        if !ok {
          return;
        }
      }
      assert ranges[..|ranges|] == ranges;
      ok := true;
    }

    /** Set the port's VLANs. Trunks that do not parse change nothing. From any earlier table, success leaves exactly
        the access VLAN untagged and the trunk VLANs tagged; a command that fails, whatever it leaves, is followed by an
        isolation, and an isolation whose commands work leaves no VLAN. */
    method Apply(world: World, show: Table -> seq<Range>, tag: Option<nat>, trunks: Option<string>)
      returns (r: Result<(), Error>, ghost failed: nat)
      requires Lists(show)
      modifies this
      ensures ParseTrunks(trunks).Err? ==> r == Err(BadTrunks) && table == old(table)
      ensures ParseTrunks(trunks).Ok? && r.Ok? ==> table == Wanted(Untagged(tag), ParseTrunks(trunks).value)
      ensures ParseTrunks(trunks).Ok? && r.Err? ==> old(commands) <= failed && !world.works(failed)
      ensures ParseTrunks(trunks).Ok? && r.Err? && (forall k | k > failed :: world.works(k)) ==> table == map[]
    {
      failed := 0;
      var ranges := Parse(trunks);
      if ranges.Err? {
        return Err(BadTrunks), failed;
      }
      var ok := Set(world, show, Untagged(tag), ranges.value);
      if !ok {
        failed := commands - 1;
        var isolated := Clear(world, show);
        return Err(CommandFailed), failed;
      }
      r := Ok(());
    }
  }

  /** The access VLAN: the tag, or the default one without a tag. */
  function Untagged(tag: Option<nat>): (access: nat)
    ensures 1 <= access
    ensures if exists n: nat :: tag == Some(n) && n > 0 then tag == Some(access) else access == 1
  {
    if tag.None? || tag.value == 0 then DEFAULT_PVID else tag.value
  }
}
