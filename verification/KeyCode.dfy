/**
A store's key as a person writes it down: base32 (section 6 of RFC 4648) without its padding, in groups of four, and
back. Text is ASCII here: upper() and isalnum() are those of ASCII letters and digits.
*/
module KeyCode {
  import opened Wrappers
  import opened Bytes

  const ALPHABET: string := "ABCDEFGHIJKLMNOPQRSTUVWXYZ234567"
  const KEY_SIZE := 32

  datatype Error = NotAKey

  // ---- Five bytes are eight digits of base 32 ----

  function GroupDigits(group: Bytes): (ds: seq<nat>)
    requires |group| == 5
    ensures |ds| == 8 && DigitsOf(32, ds)
  {
    ToDigits(32, FromDigits(256, group), 8)
  }

  function GroupBytes(ds: seq<nat>): (group: Bytes)
    requires |ds| == 8 && DigitsOf(32, ds)
    ensures |group| == 5
  {
    ToDigits(256, FromDigits(32, ds), 5)
  }

  /** The digits that carry the last `r` bytes of a string, 1 to 4. */
  function DigitsFor(r: nat): (q: nat)
    requires 1 <= r <= 4
    ensures q < 8
  {
    match r case 1 => 2 case 2 => 4 case 3 => 5 case _ => 7
  }

  function EncodeDigits(s: Bytes): (ds: seq<nat>)
    ensures DigitsOf(32, ds)
    decreases |s|
  {
    if s == [] then []
    else if |s| < 5 then GroupDigits(s + Zeros(5 - |s|))[..DigitsFor(|s|)]
    else GroupDigits(s[..5]) + EncodeDigits(s[5..])
  }

  /** A partial last group is filled with zero digits; the number of missing ones must be one base32 leaves. */
  function DecodeDigits(ds: seq<nat>): Result<Bytes, Error>
    requires DigitsOf(32, ds)
    decreases |ds|
  {
    if ds == [] then Ok([])
    else if |ds| < 8 then
      var padding := 8 - |ds|;
      if padding !in {1, 3, 4, 6} then Err(NotAKey)
      else Ok(GroupBytes(ds + Zeros(padding))[..(43 - 5 * padding) / 8])
    else
      match DecodeDigits(ds[8..])
      case Ok(rest) => Ok(GroupBytes(ds[..8]) + rest)
      case Err(e) => Err(e)
  }

  lemma GroupRoundTrip(group: Bytes)
    requires |group| == 5
    ensures GroupBytes(GroupDigits(group)) == group
  {
    DigitsOfNumber(256, group);
    assert Pow(256, 5) == Pow(32, 8) == 1099511627776;
    NumberOfDigits(32, FromDigits(256, group), 8);
  }

  lemma {:induction false} FromDigitsShift(b: nat, ds: seq<nat>, j: nat)
    ensures FromDigits(b, ds + Zeros(j)) == FromDigits(b, ds) * Pow(b, j)
  {
    var all := ds + Zeros(j);
    if j == 0 {
      assert all == ds;
    } else {
      FromDigitsShift(b, ds, j - 1);
      assert all[..|all| - 1] == ds + Zeros(j - 1);
      var n, p := FromDigits(b, ds), Pow(b, j - 1);
      assert n * p * b == n * (b * p);
    }
  }

  lemma PowersMeet()
    ensures Pow(256, 1) == 8 * Pow(32, 1) && Pow(256, 2) == 2 * Pow(32, 3)
    ensures Pow(256, 3) == 16 * Pow(32, 4) && Pow(256, 4) == 4 * Pow(32, 6)
  {
    assert Pow(32, 2) == 1024 && Pow(32, 3) == 32768 && Pow(32, 4) == 1048576;
    assert Pow(256, 2) == 65536 && Pow(256, 3) == 16777216;
  }

  /** The digits dropped from a partial group are zeros. */
  lemma PartialGroup(s: Bytes)
    requires 1 <= |s| <= 4
    ensures var q := DigitsFor(|s|); var ds := GroupDigits(s + Zeros(5 - |s|)); ds == ds[..q] + Zeros(8 - q)
  {
    var q := DigitsFor(|s|);
    var n := FromDigits(256, s);
    FromDigitsShift(256, s, 5 - |s|);
    ghost var k: nat := match |s| case 1 => 4 case 2 => 16 case 3 => 2 case _ => 8;
    PowersMeet();
    assert Pow(256, 5 - |s|) == k * Pow(32, 8 - q);
    assert n * (k * Pow(32, 8 - q)) == (n * k) * Pow(32, 8 - q);
    ShiftedDigits(32, n * k, 8, 8 - q);
  }

  /** base32 without its padding loses nothing, whatever the length. */
  lemma {:induction false} DigitsRoundTrip(s: Bytes)
    ensures DecodeDigits(EncodeDigits(s)) == Ok(s)
    decreases |s|
  {
    if s == [] {
    } else if |s| < 5 {
      var group := s + Zeros(5 - |s|);
      PartialGroup(s);
      GroupRoundTrip(group);
      assert group[..|s|] == s;
    } else {
      GroupRoundTrip(s[..5]);
      DigitsRoundTrip(s[5..]);
      var head, tail := GroupDigits(s[..5]), EncodeDigits(s[5..]);
      assert (head + tail)[..8] == head && (head + tail)[8..] == tail;
      assert s == s[..5] + s[5..];
    }
  }

  // ---- Text ----

  function Letters(ds: seq<nat>): (text: string)
    requires DigitsOf(32, ds)
    ensures |text| == |ds|
  {
    seq(|ds|, i requires 0 <= i < |ds| => ALPHABET[ds[i]])
  }

  /** The digit a letter stands for. */
  function DigitOf(c: char): Result<nat, Error>
  {
    if 'A' <= c <= 'Z' then Ok(c as int - 'A' as int)
    else if '2' <= c <= '7' then Ok(c as int - '2' as int + 26)
    else Err(NotAKey)
  }

  function Digits(text: string): (r: Result<seq<nat>, Error>)
    ensures r.Ok? ==> DigitsOf(32, r.value)
  {
    if text == "" then Ok([])
    else
      match (DigitOf(text[0]), Digits(text[1..]))
      case (Ok(d), Ok(ds)) => Ok([d] + ds)
      case _ => Err(NotAKey)
  }

  predicate AlphaNumeric(c: char)
  {
    'A' <= c <= 'Z' || 'a' <= c <= 'z' || '0' <= c <= '9'
  }

  function Upper(c: char): char
  {
    if 'a' <= c <= 'z' then c - 'a' + 'A' else c
  }

  function Grouped(text: string): string
  {
    if |text| <= 4 then text else text[..4] + "-" + Grouped(text[4..])
  }

  /** What key_from_code reads of a text: its letters and digits, in capitals. */
  function Kept(code: string): string
  {
    if code == "" then ""
    else (if AlphaNumeric(Upper(code[0])) then [Upper(code[0])] else []) + Kept(code[1..])
  }

  function Code(key: Bytes): string
  {
    Grouped(Letters(EncodeDigits(key)))
  }

  function FromCode(code: string): Result<Bytes, Error>
  {
    match Digits(Kept(code))
    case Err(e) => Err(e)
    case Ok(ds) =>
      match DecodeDigits(ds)
      case Err(e) => Err(e)
      case Ok(key) => if |key| != KEY_SIZE then Err(NotAKey) else Ok(key)
  }

  lemma {:induction false} LettersReadBack(ds: seq<nat>)
    requires DigitsOf(32, ds)
    ensures Digits(Letters(ds)) == Ok(ds)
    ensures forall c | c in Letters(ds) :: AlphaNumeric(c) && Upper(c) == c
  {
    if ds != [] {
      LettersReadBack(ds[1..]);
      assert Letters(ds)[1..] == Letters(ds[1..]);
      assert ds == [ds[0]] + ds[1..];
      assert Letters(ds) == [ALPHABET[ds[0]]] + Letters(ds[1..]);
      AlphabetLetter(ds[0]);
    }
  }

  lemma AlphabetLetter(d: nat)
    requires d < 32
    ensures DigitOf(ALPHABET[d]) == Ok(d) && AlphaNumeric(ALPHABET[d]) && Upper(ALPHABET[d]) == ALPHABET[d]
  {
  }

  lemma {:induction false} KeptConcat(a: string, b: string)
    ensures Kept(a + b) == Kept(a) + Kept(b)
  {
    if a == "" {
      assert a + b == b;
    } else {
      KeptConcat(a[1..], b);
      assert (a + b)[1..] == a[1..] + b;
    }
  }

  lemma {:induction false} KeptOfCapitals(text: string)
    requires forall c | c in text :: AlphaNumeric(c) && Upper(c) == c
    ensures Kept(text) == text
  {
    if text != "" {
      KeptOfCapitals(text[1..]);
    }
  }

  ghost predicate Capitals(text: string)
  {
    forall c | c in text :: AlphaNumeric(c) && Upper(c) == c
  }

  lemma KeptOfGroup(first: string, mark: string, rest: string)
    requires Kept(first) == first && Kept(mark) == ""
    ensures Kept(first + mark + rest) == first + Kept(rest)
  {
    KeptBetween(first, mark, rest);
  }

  lemma DashIsSkipped()
    ensures Kept("-") == ""
  {
    assert "-"[1..] == "";
  }

  lemma KeptBetween(a: string, b: string, c: string)
    ensures Kept(a + b + c) == Kept(a) + Kept(b) + Kept(c)
  {
    KeptConcat(a + b, c);
    KeptConcat(a, b);
  }

  lemma {:induction false} KeptOfGroups(text: string)
    requires Capitals(text)
    ensures Kept(Grouped(text)) == text
    decreases |text|
  {
    if |text| <= 4 {
      KeptOfCapitals(text);
    } else {
      KeptOfGroups(text[4..]);
      KeptOfCapitals(text[..4]);
      DashIsSkipped();
      KeptOfGroup(text[..4], "-", Grouped(text[4..]));
      assert text == text[..4] + text[4..];
    }
  }

  /** A 32-byte key comes back from its code, however the person writes it: in small letters, without the dashes, with
      spaces or other signs between. Any other length is refused. */
  lemma KeyComesBack(key: Bytes, written: string)
    requires Kept(written) == Kept(Code(key))
    ensures FromCode(written) == if |key| == KEY_SIZE then Ok(key) else Err(NotAKey)
  {
    var ds := EncodeDigits(key);
    LettersReadBack(ds);
    KeptOfGroups(Letters(ds));
    DigitsRoundTrip(key);
  }

  /** What is read of each character: digits and capitals, and small letters as capitals. */
  lemma ReadsLettersAndDigits(c: char)
    ensures 48 <= c as int <= 57 || 65 <= c as int <= 90 ==> Kept([c]) == [c]
    ensures 97 <= c as int <= 122 ==> Kept([c]) == [(c as int - 32) as char]
    ensures c as int < 48 || 57 < c as int < 65 || 90 < c as int < 97 || 122 < c as int ==> Kept([c]) == ""
  {
    assert [c][1..] == "";
  }

  lemma {:induction false} DigitsRefuse(text: string, k: nat)
    requires k < |text| && DigitOf(text[k]).Err?
    ensures Digits(text).Err?
  {
    if k > 0 {
      DigitsRefuse(text[1..], k - 1);
    }
  }

  /** Base32 has no 0, 1, 8 or 9: a code with one of them is refused, not read without it. */
  lemma OtherDigitsAreRefused(before: string, c: char, after: string)
    requires c in {'0', '1', '8', '9'}
    ensures FromCode(before + [c] + after) == Err(NotAKey)
  {
    KeptConcat(before + [c], after);
    KeptConcat(before, [c]);
    ReadsLettersAndDigits(c);
    DigitsRefuse(Kept(before + [c] + after), |Kept(before)|);
  }

  lemma NumberOfFooba()
    ensures FromDigits(256, [102, 111, 111, 98, 97]) == 439956234849
  {
    var s: Bytes := [102, 111, 111, 98, 97];
    assert s[..4] == [102, 111, 111, 98] && s[..4][..3] == [102, 111, 111] && s[..4][..3][..2] == [102, 111];
    assert s[..4][..3][..2][..1] == [102] && [102][..0] == [];
    assert FromDigits(256, s[..4][..3][..2][..1]) == 102;
    assert FromDigits(256, s[..4][..3][..2]) == 26223;
    assert FromDigits(256, s[..4][..3]) == 6713199;
    assert FromDigits(256, s[..4]) == 1718579042;
  }

  lemma DigitsOfFooba()
    ensures ToDigits(32, 439956234849, 8) == [12, 25, 23, 22, 30, 24, 19, 1]
  {
    assert ToDigits(32, 12, 1) == [12];
    assert ToDigits(32, 409, 2) == [12, 25];
    assert ToDigits(32, 13111, 3) == [12, 25, 23];
    assert ToDigits(32, 419574, 4) == [12, 25, 23, 22];
    assert ToDigits(32, 13426398, 5) == [12, 25, 23, 22, 30];
    assert ToDigits(32, 429644760, 6) == [12, 25, 23, 22, 30, 24];
    assert ToDigits(32, 13748632339, 7) == [12, 25, 23, 22, 30, 24, 19];
  }

  lemma WholeGroup(s: Bytes)
    requires |s| == 5
    ensures EncodeDigits(s) == GroupDigits(s)
  {
    assert s[..5] == s && s[5..] == [];
  }

  lemma TwoGroupsOfFour(text: string)
    requires |text| == 8
    ensures Grouped(text) == text[..4] + "-" + text[4..]
  {
  }

  lemma LettersOfFooba(ds: seq<nat>)
    requires ds == [12, 25, 23, 22, 30, 24, 19, 1]
    ensures DigitsOf(32, ds) && Letters(ds) == "MZXW6YTB"
  {
  }

  /** The word "fooba", as section 10 of RFC 4648 encodes it, in groups of four. */
  lemma KnownCode()
    ensures Code([102, 111, 111, 98, 97]) == "MZXW-6YTB"
  {
    var s: Bytes := [102, 111, 111, 98, 97];
    NumberOfFooba();
    DigitsOfFooba();
    WholeGroup(s);
    LettersOfFooba(GroupDigits(s));
    GroupsOfFooba();
  }

  lemma GroupsOfFooba()
    ensures Grouped("MZXW6YTB") == "MZXW-6YTB"
  {
    TwoGroupsOfFour("MZXW6YTB");
    assert "MZXW6YTB"[..4] == "MZXW" && "MZXW6YTB"[4..] == "6YTB";
  }
}
