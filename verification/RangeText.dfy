/**
Lists of numbers and ranges as text, such as 0-3,6: decimal numbers of at most four digits, a dash between the ends of a
range, commas between the parts. Digits are those of ASCII.
*/
module RangeText {
  import opened Wrappers

  datatype Range = Range(first: nat, last: nat)

  // ---- What ranges cover ----

  predicate Within(v: int, r: Range)
  {
    r.first <= v <= r.last
  }

  function Numbers(r: Range): set<int>
  {
    set v: int | r.first <= v <= r.last && Within(v, r)
  }

  function Covered(rs: seq<Range>): (covered: set<int>)
    ensures forall v | v in covered :: 0 <= v
  {
    if rs == [] then {} else Numbers(rs[0]) + Covered(rs[1..])
  }

  lemma {:induction false} CoveredMeans(rs: seq<Range>, v: int)
    ensures v in Covered(rs) <==> exists i | 0 <= i < |rs| :: v in Numbers(rs[i])
  {
    if rs != [] {
      CoveredMeans(rs[1..], v);
      if v in Covered(rs[1..]) {
        var i :| 0 <= i < |rs[1..]| && v in Numbers(rs[1..][i]);
        assert v in Numbers(rs[i + 1]);
      }
      if i :| 0 <= i < |rs| && v in Numbers(rs[i]) {
        assert i > 0 ==> v in Numbers(rs[1..][i - 1]);
      }
    }
  }

  // ---- Numbers ----

  predicate IsDigit(c: char)
  {
    '0' <= c <= '9'
  }

  function DigitOf(n: nat): (c: char)
    requires n < 10
    ensures IsDigit(c) && c as int - '0' as int == n
  {
    ('0' as int + n) as char
  }

  function Show(n: nat): (s: string)
    ensures s != "" && forall i | 0 <= i < |s| :: IsDigit(s[i])
  {
    if n < 10 then [DigitOf(n)] else Show(n / 10) + [DigitOf(n % 10)]
  }

  predicate AllDigits(s: string)
  {
    forall i | 0 <= i < |s| :: IsDigit(s[i])
  }

  function Number(s: string): nat
    requires AllDigits(s)
  {
    if s == "" then 0 else 10 * Number(s[..|s| - 1]) + (s[|s| - 1] as int - '0' as int)
  }

  lemma {:induction false} NumberOfShow(n: nat)
    ensures Number(Show(n)) == n
  {
    if n >= 10 {
      NumberOfShow(n / 10);
      assert Show(n)[..|Show(n)| - 1] == Show(n / 10);
    }
  }

  lemma {:induction false} ShowIsShort(n: nat, limit: nat)
    requires 1 <= limit <= 4 && n < (match limit case 1 => 10 case 2 => 100 case 3 => 1000 case _ => 10000)
    ensures |Show(n)| <= limit
  {
    if n >= 10 {
      ShowIsShort(n / 10, limit - 1);
    }
  }

  // ---- Parts ----

  function Split(s: string, sep: char): (r: seq<string>)
    ensures r != []
  {
    if s == "" then [""]
    else
      var rest := Split(s[1..], sep);
      if s[0] == sep then [""] + rest else [[s[0]] + rest[0]] + rest[1..]
  }

  function Join(parts: seq<string>, sep: char): string
  {
    if parts == [] then ""
    else if |parts| == 1 then parts[0]
    else parts[0] + [sep] + Join(parts[1..], sep)
  }

  lemma {:induction false} SplitFirst(a: string, sep: char, b: string)
    requires sep !in a
    ensures Split(a, sep) == [a]
    ensures Split(a + [sep] + b, sep) == [a] + Split(b, sep)
  {
    var s := a + [sep] + b;
    if a == "" {
      assert s == [sep] + b && s[1..] == b;
    } else {
      assert a[0] in a && forall c | c in a[1..] :: c in a;
      SplitFirst(a[1..], sep, b);
      assert s[1..] == a[1..] + [sep] + b;
      assert ([a[1..]] + Split(b, sep))[1..] == Split(b, sep);
      assert [a[0]] + a[1..] == a;
    }
  }

  lemma {:induction false} SplitOfJoin(parts: seq<string>, sep: char)
    requires parts != [] && forall i | 0 <= i < |parts| :: sep !in parts[i]
    ensures Split(Join(parts, sep), sep) == parts
  {
    if |parts| == 1 {
      SplitFirst(parts[0], sep, "");
    } else {
      SplitOfJoin(parts[1..], sep);
      SplitFirst(parts[0], sep, Join(parts[1..], sep));
    }
  }

  predicate ShortNumber(s: string)
  {
    1 <= |s| <= 4 && AllDigits(s)
  }

  /** A number, or two with a dash between them. */
  function ParsePart(part: string): Option<Range>
  {
    var ends := Split(part, '-');
    if |ends| == 1 && ShortNumber(ends[0]) then Some(Range(Number(ends[0]), Number(ends[0])))
    else if |ends| == 2 && ShortNumber(ends[0]) && ShortNumber(ends[1])
    then Some(Range(Number(ends[0]), Number(ends[1])))
    else None
  }

  function ShowRange(r: Range): string
  {
    if r.first == r.last then Show(r.first) else Show(r.first) + "-" + Show(r.last)
  }

  lemma ShowHasNoMark(n: nat, c: char)
    requires !IsDigit(c)
    ensures c !in Show(n)
  {
  }

  /** Digits alone are a number when they are one to four, leading zeros included, and nothing when they are more. */
  lemma DigitsAlone(s: string)
    requires AllDigits(s)
    ensures ParsePart(s) == if |s| in {1, 2, 3, 4} then Some(Range(Number(s), Number(s))) else None
  {
    assert '-' !in s;
    SplitFirst(s, '-', "");
  }

  lemma PartRoundTrip(r: Range)
    requires r.first < 10000 && r.last < 10000
    ensures ParsePart(ShowRange(r)) == Some(r)
  {
    NumberOfShow(r.first);
    NumberOfShow(r.last);
    ShowIsShort(r.first, 4);
    ShowIsShort(r.last, 4);
    ShowHasNoMark(r.first, '-');
    ShowHasNoMark(r.last, '-');
    SplitFirst(Show(r.first), '-', Show(r.last));
    SplitFirst(Show(r.last), '-', "");
    assert "-" == ['-'];
  }

  /** A shown range has nothing but digits and a dash. */
  lemma RangeHasNoMark(r: Range, c: char)
    requires !IsDigit(c) && c != '-'
    ensures c !in ShowRange(r)
  {
    ShowHasNoMark(r.first, c);
    ShowHasNoMark(r.last, c);
    assert c !in "-";
  }

  function ShowRanges(rs: seq<Range>): seq<string>
  {
    seq(|rs|, i requires 0 <= i < |rs| => ShowRange(rs[i]))
  }

  lemma ShowOneMore(rs: seq<Range>, r: Range)
    ensures ShowRanges(rs + [r]) == ShowRanges(rs) + [ShowRange(r)]
  {
  }

  /** The parts of the text, each a number or a range; None when one is neither. */
  function ParseParts(parts: seq<string>): (r: Option<seq<Range>>)
    ensures r.Some? ==> |r.value| == |parts|
  {
    if parts == [] then Some([])
    else
      match (ParsePart(parts[0]), ParseParts(parts[1..]))
      case (Some(first), Some(rest)) => Some([first] + rest)
      case _ => None
  }

  lemma {:induction false} PartsRoundTrip(rs: seq<Range>)
    requires forall i | 0 <= i < |rs| :: rs[i].first < 10000 && rs[i].last < 10000
    ensures ParseParts(ShowRanges(rs)) == Some(rs)
  {
    if rs != [] {
      assert ShowRanges(rs)[1..] == ShowRanges(rs[1..]) && ShowRanges(rs)[0] == ShowRange(rs[0]);
      assert [rs[0]] + rs[1..] == rs;
      PartRoundTrip(rs[0]);
      PartsRoundTrip(rs[1..]);
    }
  }

  /** The text of ranges, split and parsed, gives the ranges back. */
  lemma TextRoundTrip(rs: seq<Range>)
    requires rs != [] && forall i | 0 <= i < |rs| :: rs[i].first < 10000 && rs[i].last < 10000
    ensures Split(Join(ShowRanges(rs), ','), ',') == ShowRanges(rs)
    ensures ParseParts(Split(Join(ShowRanges(rs), ','), ',')) == Some(rs)
  {
    forall i | 0 <= i < |rs|
      ensures ',' !in ShowRanges(rs)[i]
    {
      RangeHasNoMark(rs[i], ',');
    }
    SplitOfJoin(ShowRanges(rs), ',');
    PartsRoundTrip(rs);
  }

  /** No mark but digits, dashes and commas. */
  lemma {:induction false} TextHasNoMark(rs: seq<Range>, c: char)
    requires !IsDigit(c) && c != '-' && c != ','
    ensures c !in Join(ShowRanges(rs), ',')
  {
    if rs != [] {
      assert ShowRanges(rs)[1..] == ShowRanges(rs[1..]);
      RangeHasNoMark(rs[0], c);
      TextHasNoMark(rs[1..], c);
    }
  }
}
