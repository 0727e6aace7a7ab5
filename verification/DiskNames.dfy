/**
The names of a restore: each disk's staged image beside it, and the name the disk is kept aside under, which is the
staged one's with the first `.restore-` in it replaced. When they meet, a rename overwrites another disk's file.
*/
module DiskNames {
  import opened DiskSwap

  /** `pattern` begins at `i`. */
  predicate Occurs(s: string, pattern: string, i: nat)
  {
    i + |pattern| <= |s| && s[i..i + |pattern|] == pattern
  }

  lemma OccursLater(s: string, pattern: string, i: nat)
    requires s != ""
    ensures Occurs(s[1..], pattern, i) <==> Occurs(s, pattern, i + 1)
  {
    if i + 1 + |pattern| <= |s| {
      assert s[1..][i..i + |pattern|] == s[i + 1..i + 1 + |pattern|];
    }
  }

  lemma {:induction false} ReplacedAt(a: string, pattern: string, b: string, other: string)
    requires pattern != "" && forall i | 0 <= i < |a| :: !Occurs(a + (pattern + b), pattern, i)
    ensures ReplaceFirst(a + (pattern + b), pattern, other) == a + (other + b)
  {
    var s := a + (pattern + b);
    if a == "" {
      assert s == pattern + b && s[..|pattern|] == pattern && s[|pattern|..] == b;
      assert "" + (other + b) == other + b;
    } else {
      assert !Occurs(s, pattern, 0) && s[0..0 + |pattern|] == s[..|pattern|];
      assert ReplaceFirst(s, pattern, other) == [s[0]] + ReplaceFirst(s[1..], pattern, other);
      assert s[1..] == a[1..] + (pattern + b);
      forall i | 0 <= i < |a[1..]|
        ensures !Occurs(a[1..] + (pattern + b), pattern, i)
      {
        assert !Occurs(s, pattern, i + 1);
        OccursLater(s, pattern, i);
      }
      ReplacedAt(a[1..], pattern, b, other);
      assert a + (other + b) == [a[0]] + (a[1..] + (other + b));
    }
  }

  /** `.restore-` occurs in it. */
  predicate Marked(s: string)
  {
    exists i | 0 <= i < |s| :: Occurs(s, STAGED, i)
  }

  /** The only dot of `.restore-` is its first character: it does not reach over a dot. */
  lemma NotOverADot(a: string, tail: string, i: nat)
    requires tail != "" && tail[0] == '.' && i < |a| && Occurs(a + tail, STAGED, i)
    ensures Occurs(a, STAGED, i)
  {
    var s := a + tail;
    assert forall q | i <= q < i + |STAGED| :: s[q] == s[i..i + |STAGED|][q - i] == STAGED[q - i];
    assert s[|a|] == '.' && forall k | 1 <= k < |STAGED| :: STAGED[k] != '.';
    assert i + |STAGED| <= |a|;
    assert s[i..i + |STAGED|] == a[i..i + |STAGED|];
  }

  lemma UnmarkedStem(a: string, tail: string, other: string)
    requires !Marked(a)
    ensures ReplaceFirst(a + (STAGED + tail), STAGED, other) == a + (other + tail)
  {
    forall i | 0 <= i < |a|
      ensures !Occurs(a + (STAGED + tail), STAGED, i)
    {
      if Occurs(a + (STAGED + tail), STAGED, i) {
        NotOverADot(a, STAGED + tail, i);
      }
    }
    ReplacedAt(a, STAGED, tail, other);
  }

  lemma FirstOccurrence(s: string, pattern: string, m: nat) returns (i: nat)
    requires Occurs(s, pattern, m)
    ensures i <= m && Occurs(s, pattern, i) && forall j | 0 <= j < i :: !Occurs(s, pattern, j)
  {
    i := 0;
    while !Occurs(s, pattern, i)
      invariant i <= m && forall j | 0 <= j < i :: !Occurs(s, pattern, j)
      decreases m - i
    {
      i := i + 1;
    }
  }

  lemma ReplacedWithTail(a: string, pattern: string, b: string, other: string, tail: string)
    requires pattern != "" && forall i | 0 <= i < |a| :: !Occurs(a + (pattern + b), pattern, i)
    ensures ReplaceFirst(a + (pattern + (b + tail)), pattern, other) == a + (other + (b + tail))
  {
    var s, longer := a + (pattern + b), a + (pattern + (b + tail));
    forall i | 0 <= i < |a|
      ensures !Occurs(longer, pattern, i)
    {
      assert !Occurs(s, pattern, i);
      assert longer == s + tail;
      assert longer[i..i + |pattern|] == s[i..i + |pattern|];
    }
    ReplacedAt(a, pattern, b + tail, other);
  }

  lemma ReplacedInStem(s: string, pattern: string, other: string, m: nat, tail: string)
    requires pattern != "" && Occurs(s, pattern, m)
    ensures ReplaceFirst(s + tail, pattern, other) == ReplaceFirst(s, pattern, other) + tail
    ensures |ReplaceFirst(s, pattern, other)| == |s| - |pattern| + |other|
  {
    var i := FirstOccurrence(s, pattern, m);
    var a, b := s[..i], s[i + |pattern|..];
    assert s == a + (pattern + b);
    assert s + tail == a + (pattern + (b + tail));
    ReplacedAt(a, pattern, b, other);
    ReplacedWithTail(a, pattern, b, other, tail);
    assert a + (other + (b + tail)) == a + (other + b) + tail;
  }

  lemma MarkedStem(s: string, tail: string)
    requires Marked(s)
    ensures ReplaceFirst(s + tail, STAGED, ASIDE) == ReplaceFirst(s, STAGED, ASIDE) + tail
    ensures |ReplaceFirst(s, STAGED, ASIDE)| == |s| + 4
  {
    var m :| 0 <= m < |s| && Occurs(s, STAGED, m);
    ReplacedInStem(s, STAGED, ASIDE, m, tail);
  }

  /** A disk's name with the dot of its hidden files, and what becomes of it in the aside name. */
  function Stem(dest: Path): string
  {
    "." + dest.name
  }

  function Renamed(dest: Path): string
  {
    ReplaceFirst(Stem(dest), STAGED, ASIDE)
  }

  lemma NamesOf(dest: Path, token: string)
    ensures StagedOf(dest, token).temp == Path(dest.dir, Stem(dest) + (STAGED + token))
    ensures var aside := if Marked(Stem(dest)) then Renamed(dest) + (STAGED + token) else Stem(dest) + (ASIDE + token);
      StagedOf(dest, token).previous == Path(dest.dir, aside)
  {
    assert Stem(dest) + STAGED + token == Stem(dest) + (STAGED + token);
    if Marked(Stem(dest)) {
      MarkedStem(Stem(dest), STAGED + token);
    } else {
      UnmarkedStem(Stem(dest), token, ASIDE);
    }
  }

  /** A staged name and an aside name differ nine characters before the token. */
  lemma StagedIsNotAside(a: string, b: string, token: string)
    ensures a + (STAGED + token) != b + (ASIDE + token)
  {
    var s, t := a + (STAGED + token), b + (ASIDE + token);
    assert s[|a|] == '.' && |s| == |a| + 9 + |token|;
    assert t[|b| + 4] == '-' && |t| == |b| + 13 + |token|;
  }

  lemma SameStem(a: string, b: string, tail: string)
    ensures a + tail == b + tail <==> a == b
  {
    if a + tail == b + tail {
      assert |a| == |b|;
      assert a == (a + tail)[..|a|] && b == (b + tail)[..|b|];
    }
  }

  predicate EndsIn(s: string, end: string)
  {
    |end| <= |s| && s[|s| - |end|..] == end
  }

  lemma EndOfConcat(a: string, b: string, end: string)
    ensures EndsIn(a + (b + end), end)
  {
  }

  /** The one disk's name, where it is marked, becomes the other's, or becomes what the other's becomes. */
  predicate Clash(a: Path, b: Path)
  {
    a.dir == b.dir && Marked(Stem(a)) && (Renamed(a) == Stem(b) || (Marked(Stem(b)) && Renamed(a) == Renamed(b)))
  }

  lemma OwnNamesDiffer(a: Path, token: string)
    requires !EndsIn(a.name, token)
    ensures var s := StagedOf(a, token); s.dest != s.temp && s.dest != s.previous && s.temp != s.previous
  {
    NamesOf(a, token);
    NotADisk(a, a, token);
    if Marked(Stem(a)) {
      MarkedStem(Stem(a), "");
      SameStem(Renamed(a), Stem(a), STAGED + token);
    } else {
      StagedIsNotAside(Stem(a), Stem(a), token);
    }
  }

  /** No disk is where another one's image is staged, nor where it is kept aside: those names end in the token. */
  lemma NotADisk(a: Path, b: Path, token: string)
    requires !EndsIn(a.name, token)
    ensures a != StagedOf(b, token).temp && a != StagedOf(b, token).previous
  {
    NamesOf(b, token);
    EndOfConcat(Stem(b), STAGED, token);
    EndOfConcat(Stem(b), ASIDE, token);
    EndOfConcat(Renamed(b), STAGED, token);
  }

  /** The staged names of two disks differ; the one's aside name is the other's staged name exactly when the one is
  marked and becomes the other. */
  lemma AsideMeetsStaged(a: Path, b: Path, token: string)
    requires a != b
    ensures StagedOf(a, token).temp != StagedOf(b, token).temp
    ensures StagedOf(a, token).previous == StagedOf(b, token).temp <==>
      a.dir == b.dir && Marked(Stem(a)) && Renamed(a) == Stem(b)
  {
    NamesOf(a, token);
    NamesOf(b, token);
    SameStem(Stem(a), Stem(b), STAGED + token);
    SameStem(Renamed(a), Stem(b), STAGED + token);
    StagedIsNotAside(Stem(b), Stem(a), token);
    assert Stem(a) == Stem(b) ==> a.name == Stem(a)[1..] == Stem(b)[1..] == b.name;
  }

  lemma AsideMeetsAside(a: Path, b: Path, token: string)
    requires a != b
    ensures StagedOf(a, token).previous == StagedOf(b, token).previous <==>
      a.dir == b.dir && Marked(Stem(a)) && Marked(Stem(b)) && Renamed(a) == Renamed(b)
  {
    NamesOf(a, token);
    NamesOf(b, token);
    SameStem(Renamed(a), Renamed(b), STAGED + token);
    SameStem(Stem(a), Stem(b), ASIDE + token);
    StagedIsNotAside(Renamed(a), Stem(b), token);
    StagedIsNotAside(Renamed(b), Stem(a), token);
    assert Stem(a) == Stem(b) ==> a.name == Stem(a)[1..] == Stem(b)[1..] == b.name;
  }

  lemma ApartIff(a: Path, b: Path, token: string)
    requires a != b && !EndsIn(a.name, token) && !EndsIn(b.name, token)
    ensures Names(StagedOf(a, token)) !! Names(StagedOf(b, token)) <==> !Clash(a, b) && !Clash(b, a)
  {
    NotADisk(a, b, token);
    NotADisk(b, a, token);
    AsideMeetsStaged(a, b, token);
    AsideMeetsStaged(b, a, token);
    AsideMeetsAside(a, b, token);
  }

  /** For distinct disks none of which bears the token, the names of a restore meet nowhere if and only if no two of its
  disks clash. */
  lemma NamesAreSeparateIff(disks: seq<Disk>, token: string)
    requires forall i, j | 0 <= i < j < |disks| :: disks[i].dest != disks[j].dest
    requires forall i | 0 <= i < |disks| :: !EndsIn(disks[i].dest.name, token)
    ensures Separate(AllStaged(disks, token)) <==>
      forall i, j | 0 <= i < |disks| && 0 <= j < |disks| && i != j :: !Clash(disks[i].dest, disks[j].dest)
  {
    var staged := AllStaged(disks, token);
    forall i | 0 <= i < |disks|
      ensures var s := staged[i]; s.dest != s.temp && s.dest != s.previous && s.temp != s.previous
    {
      OwnNamesDiffer(disks[i].dest, token);
    }
    forall i, j | 0 <= i < j < |disks|
      ensures Names(staged[i]) !! Names(staged[j]) <==>
        !Clash(disks[i].dest, disks[j].dest) && !Clash(disks[j].dest, disks[i].dest)
    {
      ApartIff(disks[i].dest, disks[j].dest, token);
    }
  }

  // ---- Two families that clash ----

  lemma RenamedOf(a: Path, x: string, w: string)
    requires Stem(a) == x + (STAGED + w) && !Marked(x)
    ensures Marked(Stem(a)) && Renamed(a) == x + (ASIDE + w)
  {
    assert Stem(a)[|x|..|x| + |STAGED|] == STAGED;
    assert Occurs(Stem(a), STAGED, |x|);
    UnmarkedStem(x, w, ASIDE);
  }

  /** Two disks of one directory, named `u`.restore-`w` and `u`.pre-restore-`w`: the first one's aside name is where the
  second one's image is staged. */
  lemma AsideMeetsImage(a: Path, b: Path, u: string, w: string, token: string)
    requires a.dir == b.dir && a.name == u + (STAGED + w) && b.name == u + (ASIDE + w) && !Marked("." + u)
    ensures Clash(a, b) && StagedOf(a, token).previous == StagedOf(b, token).temp
  {
    assert Stem(a) == "." + u + (STAGED + w) && Stem(b) == "." + u + (ASIDE + w);
    RenamedOf(a, "." + u, w);
    assert |a.name| != |b.name|;
    AsideMeetsStaged(a, b, token);
  }

  lemma UnmarkedWithAside(x: string, v: string)
    requires !Marked(x) && !Marked(v)
    ensures !Marked(x + (ASIDE + v))
  {
    var s := x + (ASIDE + v);
    forall i | 0 <= i < |s|
      ensures !Occurs(s, STAGED, i)
    {
      if Occurs(s, STAGED, i) {
        assert s[i..i + |STAGED|][0] == s[i] == '.' && s[i..i + |STAGED|][1] == s[i + 1] == 'r';
        if i < |x| {
          NotOverADot(x, ASIDE + v, i);
        } else if i >= |x| + |ASIDE| {
          var k := i - |x| - |ASIDE|;
          assert s[i..i + |STAGED|] == v[k..k + |STAGED|];
          assert Occurs(v, STAGED, k);
        }
      }
    }
  }

  lemma Dotted(u: string, r: string)
    ensures "." + (u + r) == "." + u + r
  {
  }

  lemma Regrouped(x: string, p: string, v: string, q: string, w: string)
    ensures x + (p + (v + (q + w))) == x + (p + v) + (q + w)
  {
  }

  lemma Unlike(u: string, p: string, v: string, q: string, w: string)
    requires |p| > 1 && |q| > 1 && p[1] != q[1]
    ensures u + (p + v) != u + q + w
  {
    assert (u + (p + v))[|u| + 1] == p[1] && (u + q + w)[|u| + 1] == q[1];
  }

  /** Two disks of one directory, named `u`.restore-`v`.pre-restore-`w` and `u`.pre-restore-`v`.restore-`w`: they are
  kept aside under one name. */
  lemma AsidesMeet(a: Path, b: Path, u: string, v: string, w: string, token: string)
    requires a.dir == b.dir && a.name == u + (STAGED + (v + (ASIDE + w))) && b.name == u + (ASIDE + v) + (STAGED + w)
    requires !Marked("." + u) && !Marked(v)
    ensures a != b && Clash(a, b) && StagedOf(a, token).previous == StagedOf(b, token).previous
  {
    var x := "." + u;
    Dotted(u, STAGED + (v + (ASIDE + w)));
    RenamedOf(a, x, v + (ASIDE + w));
    Dotted(u, ASIDE + v);
    Dotted(u + (ASIDE + v), STAGED + w);
    UnmarkedWithAside(x, v);
    RenamedOf(b, x + (ASIDE + v), w);
    Regrouped(x, ASIDE, v, ASIDE, w);
    Unlike(u, STAGED, v + (ASIDE + w), ASIDE + v, STAGED + w);
    AsideMeetsAside(a, b, token);
  }

  // ---- What a clash does ----

  /** What one rename makes of the files. */
  function Moved(f: Files, a: Path, b: Path): Files
  {
    if a in f then (f - {a})[b := f[a]] else f
  }

  /** A disk kept aside and its image put in its place. */
  function SwappedIn(f: Files, s: Staged): Files
  {
    Moved(Moved(f, s.dest, s.previous), s.temp, s.dest)
  }

  /** The swap of two disks, every rename working, and the old disks deleted. */
  function SwappedBoth(f: Files, first: Staged, second: Staged): Files
  {
    SwappedIn(SwappedIn(f, first), second) - {first.previous, second.previous}
  }

  /** Names that are apart but for the aside ones, each of which may be another disk's staged or aside name. */
  ghost predicate ApartButAside(s: Staged, t: Staged)
  {
    && s.temp != s.previous && t.temp != t.previous && s.temp != t.temp
    && s.dest != t.dest && {s.dest, t.dest} !! {s.temp, s.previous, t.temp, t.previous}
  }

  lemma SwapOfTwoIff(f: Files, s: Staged, t: Staged)
    requires ApartButAside(s, t) && s.dest in f && s.temp in f && t.dest in f && t.temp in f
    ensures var after := SwappedBoth(f, s, t);
      && At(after, s.dest) == At(f, s.temp)
      && At(after, t.dest) == (if s.previous == t.temp then At(f, s.dest) else At(f, t.temp))
      && s.previous !in after && t.previous !in after && s.temp !in after && t.temp !in after
  {
    var one := SwappedIn(f, s);
    assert At(one, s.dest) == At(f, s.temp) && At(one, t.dest) == At(f, t.dest);
    assert At(one, t.temp) == if s.previous == t.temp then At(f, s.dest) else At(f, t.temp);
    var two := SwappedIn(one, t);
    assert At(two, s.dest) == At(one, s.dest) && At(two, t.dest) == At(one, t.temp);
  }

  lemma NamesApartButAside(a: Path, b: Path, token: string)
    requires a != b && !EndsIn(a.name, token) && !EndsIn(b.name, token)
    ensures ApartButAside(StagedOf(a, token), StagedOf(b, token))
  {
    OwnNamesDiffer(a, token);
    OwnNamesDiffer(b, token);
    NotADisk(a, b, token);
    NotADisk(b, a, token);
    AsideMeetsStaged(a, b, token);
  }

  /** Two disks that are there, swapped one after the other with every rename working: each has its image in the end,
  but the second one has the first one's old content if, and only if, the first is marked and becomes the second. In
  the other order that clash does no harm. */
  lemma ClashByOrder(f: Files, a: Path, b: Path, token: string)
    requires a != b && !EndsIn(a.name, token) && !EndsIn(b.name, token)
    requires a in f && StagedOf(a, token).temp in f && b in f && StagedOf(b, token).temp in f
    ensures var s, t := StagedOf(a, token), StagedOf(b, token);
      && At(SwappedBoth(f, s, t), a) == At(f, s.temp)
      && At(SwappedBoth(f, s, t), b) ==
           if a.dir == b.dir && Marked(Stem(a)) && Renamed(a) == Stem(b) then At(f, a) else At(f, t.temp)
  {
    NamesApartButAside(a, b, token);
    AsideMeetsStaged(a, b, token);
    SwapOfTwoIff(f, StagedOf(a, token), StagedOf(b, token));
  }

  lemma SecondAsideLosesFirst(f: Files, s: Staged, t: Staged)
    requires ApartButAside(s, t) && s.previous == t.previous && s.dest in f && s.temp in f && t.dest in f
    requires forall p | p in f && p != s.dest :: f[p] != f[s.dest]
    ensures var after := Moved(SwappedIn(f, s), t.dest, t.previous);
      forall p | p in after :: after[p] != f[s.dest]
  {
    var one := SwappedIn(f, s);
    assert forall p | p in one && p != s.previous :: one[p] != f[s.dest];
    assert t.dest in one && one[t.dest] == f[t.dest];
  }

  /** Two disks of one directory that are both marked and become the same: once the second is set aside, the first one's
  old content, if it is on no other file, is on none. */
  lemma ClashLosesOldDisk(f: Files, a: Path, b: Path, token: string)
    requires a != b && !EndsIn(a.name, token) && !EndsIn(b.name, token)
    requires a.dir == b.dir && Marked(Stem(a)) && Marked(Stem(b)) && Renamed(a) == Renamed(b)
    requires a in f && StagedOf(a, token).temp in f && b in f && forall p | p in f && p != a :: f[p] != f[a]
    ensures var s, t := StagedOf(a, token), StagedOf(b, token);
      var after := Moved(SwappedIn(f, s), b, t.previous);
      forall p | p in after :: after[p] != f[a]
  {
    NamesApartButAside(a, b, token);
    AsideMeetsAside(a, b, token);
    SecondAsideLosesFirst(f, StagedOf(a, token), StagedOf(b, token));
  }
}
