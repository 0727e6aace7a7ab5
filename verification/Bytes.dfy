/**
Byte strings, and numbers written in a fixed number of digits, most significant first: the big-endian fields of the
store's headers (base 256) and the groups of its written-down keys (base 32).
*/
module Bytes {

  type byte = x: int | 0 <= x < 256
  type Bytes = seq<byte>

  function Pow(b: nat, k: nat): nat
  {
    if k == 0 then 1 else b * Pow(b, k - 1)
  }

  ghost predicate DigitsOf(b: nat, ds: seq<nat>)
  {
    forall i | 0 <= i < |ds| :: ds[i] < b
  }

  function FromDigits(b: nat, ds: seq<nat>): nat
  {
    if ds == [] then 0 else FromDigits(b, ds[..|ds| - 1]) * b + ds[|ds| - 1]
  }

  /** The last `k` digits of `n` in base `b`. */
  function ToDigits(b: nat, n: nat, k: nat): (ds: seq<nat>)
    requires b >= 2
    ensures |ds| == k && DigitsOf(b, ds)
  {
    if k == 0 then [] else ToDigits(b, n / b, k - 1) + [n % b]
  }

  lemma {:induction false} NumberOfDigits(b: nat, n: nat, k: nat)
    requires b >= 2 && n < Pow(b, k)
    ensures FromDigits(b, ToDigits(b, n, k)) == n
  {
    if k > 0 {
      QuotientBelow(b, n, Pow(b, k - 1));
      NumberOfDigits(b, n / b, k - 1);
      var ds := ToDigits(b, n, k);
      assert ds[..|ds| - 1] == ToDigits(b, n / b, k - 1);
      DivModIdentity(b, n);
    }
  }

  lemma DivModIdentity(b: nat, n: nat)
    requires b > 0
    ensures n / b * b + n % b == n
  {
  }

  lemma QuotientBelow(b: nat, n: nat, m: nat)
    requires b >= 2 && n < b * m
    ensures n / b < m
  {
  }

  lemma {:induction false} DigitsOfNumber(b: nat, ds: seq<nat>)
    requires b >= 2 && DigitsOf(b, ds)
    ensures FromDigits(b, ds) < Pow(b, |ds|)
    ensures ToDigits(b, FromDigits(b, ds), |ds|) == ds
  {
    if ds != [] {
      var k := |ds| - 1;
      var init, last := ds[..k], ds[k];
      DigitsOfNumber(b, init);
      var n := FromDigits(b, init);
      AppendDigit(b, n, last, Pow(b, k));
      assert ds == init + [last];
    }
  }

  lemma AppendDigit(b: nat, n: nat, d: nat, m: nat)
    requires b >= 2 && d < b && n < m
    ensures n * b + d < b * m
    ensures (n * b + d) / b == n && (n * b + d) % b == d
  {
    assert b * (n + 1) == n * b + b;
    MulMonotone(b, n + 1, m);
    DivModUnique(b, n, d);
  }

  lemma MulMonotone(b: nat, x: nat, y: nat)
    requires x <= y
    ensures b * x <= b * y
  {
  }

  lemma DivModUnique(b: nat, q: nat, r: nat)
    requires r < b
    ensures (q * b + r) / b == q && (q * b + r) % b == r
  {
    var n := q * b + r;
    var k := n / b - q;
    assert b * k == r - n % b by {
      assert b * (n / b) == n - n % b;
      assert b * (n / b - q) == b * (n / b) - b * q;
    }
    NoMultipleBelow(b, k);
  }

  lemma NoMultipleBelow(b: nat, k: int)
    ensures k >= 1 ==> b * k >= b
    ensures k <= -1 ==> b * k + b <= 0
  {
  }

  function Zeros(n: nat): (z: seq<nat>)
    ensures |z| == n && forall i | 0 <= i < n :: z[i] == 0
  {
    seq(n, _ => 0)
  }

  /** A number's digits, followed by zeros once it is shifted. */
  lemma {:induction false} ShiftedDigits(b: nat, n: nat, k: nat, j: nat)
    requires b >= 2 && j <= k
    ensures ToDigits(b, n * Pow(b, j), k) == ToDigits(b, n, k - j) + Zeros(j)
  {
    if j == 0 {
      assert n * Pow(b, 0) == n;
      assert Zeros(0) == [];
    } else {
      var m := n * Pow(b, j - 1);
      assert n * Pow(b, j) == m * b by {
        assert n * (b * Pow(b, j - 1)) == (n * Pow(b, j - 1)) * b;
      }
      AppendDigit(b, m, 0, m + 1);
      ShiftedDigits(b, n, k - 1, j - 1);
      assert Zeros(j - 1) + [0] == Zeros(j);
    }
  }

  /** An unsigned big-endian field of `width` bytes, as struct packs it. */
  function PackBE(n: nat, width: nat): (s: Bytes)
    ensures |s| == width
  {
    ToDigits(256, n, width)
  }

  function UnpackBE(s: Bytes): nat
  {
    FromDigits(256, s)
  }

  lemma FieldRoundTrip(n: nat, width: nat)
    requires n < Pow(256, width)
    ensures UnpackBE(PackBE(n, width)) == n
  {
    NumberOfDigits(256, n, width);
  }

  lemma BytesRoundTrip(s: Bytes)
    ensures UnpackBE(s) < Pow(256, |s|) && PackBE(UnpackBE(s), |s|) == s
  {
    DigitsOfNumber(256, s);
  }
}
