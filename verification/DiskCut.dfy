/** Where a disk's chunks lie: chunk `i` is the bytes from `i * chunkSize`, the last one possibly shorter. */
module DiskCut {
  import opened Bytes
  import opened ChunkStore
  import IndexCodec

  lemma DivideOnce(n: nat, c: nat)
    requires c > 0 && n >= c
    ensures n / c == (n - c) / c + 1
  {
    var q, r := (n - c) / c, (n - c) % c;
    assert n - c == q * c + r by {
      DivModIdentity(c, n - c);
    }
    assert n == (q + 1) * c + r;
    DivModUnique(c, q + 1, r);
  }

  lemma CeilOnce(n: nat, c: nat)
    requires c > 0 && n > 0
    ensures IndexCodec.Ceil(n, c) == 1 + IndexCodec.Ceil(n - Min(c, n), c)
  {
    if n > c {
      DivideOnce(n + c - 1, c);
    } else {
      DivModUnique(c, 1, n - 1);
      DivModUnique(c, 0, c - 1);
    }
  }

  lemma {:induction false} CutCount(disk: Bytes, c: nat)
    requires c > 0
    ensures |Cut(disk, c)| == IndexCodec.Ceil(|disk|, c)
    decreases |disk|
  {
    if disk == [] {
      DivModUnique(c, 0, c - 1);
    } else {
      CeilOnce(|disk|, c);
      CutCount(disk[Min(c, |disk|)..], c);
    }
  }

  lemma SliceOfRest(disk: Bytes, m: nat, a: nat, b: nat)
    requires m <= |disk| && a <= b <= |disk| - m
    ensures disk[m..][a..b] == disk[m + a..m + b]
  {
  }

  /** The bytes of each chunk. */
  lemma {:induction false} CutAt(disk: Bytes, c: nat, i: nat)
    requires c > 0 && i < |Cut(disk, c)|
    ensures 0 <= i * c < |disk| && Cut(disk, c)[i] == disk[i * c..Min(i * c + c, |disk|)]
    decreases i
  {
    var m := Min(c, |disk|);
    if i == 0 {
      assert 0 * c == 0;
    } else {
      var rest := disk[m..];
      CutAt(rest, c, i - 1);
      var a := (i - 1) * c;
      assert i * c == a + c;
      SliceOfRest(disk, m, a, Min(a + c, |rest|));
    }
  }

  lemma QuotientMonotone(a: int, b: int, c: nat)
    requires c > 0 && a <= b
    ensures a / c <= b / c
  {
    var k := b / c - a / c;
    assert c * k == (b - b % c) - (a - a % c) by {
      assert c * (b / c) == b - b % c && c * (a / c) == a - a % c;
    }
    NoMultipleBelow(c, k);
  }

  /** The chunk a byte lies in. */
  lemma ChunkOfByte(p: nat, i: nat, c: nat)
    requires c > 0 && i * c <= p < i * c + c
    ensures p / c == i
  {
    DivModUnique(c, i, p - i * c);
  }

  /** A whole number of chunks. */
  predicate Aligned(n: nat, c: nat)
    requires c > 0
    decreases n
  {
    n == 0 || (n >= c && Aligned(n - c, c))
  }

  /** One chunk more after whole ones. */
  lemma {:induction false} CutAppend(disk: Bytes, part: Bytes, c: nat)
    requires c > 0 && Aligned(|disk|, c) && 0 < |part| <= c
    ensures Cut(disk + part, c) == Cut(disk, c) + [part]
    decreases |disk|
  {
    if disk == [] {
      assert disk + part == part && part[..|part|] == part && part[|part|..] == [];
    } else {
      assert (disk + part)[..c] == disk[..c] && (disk + part)[c..] == disk[c..] + part;
      CutAppend(disk[c..], part, c);
      assert [disk[..c]] + (Cut(disk[c..], c) + [part]) == [disk[..c]] + Cut(disk[c..], c) + [part];
    }
  }

  /** The bytes of the whole chunks among `n` bytes. */
  function InChunks(n: nat, c: nat): (m: nat)
    requires c > 0
    ensures m <= n < m + c && Aligned(m, c)
    decreases n
  {
    if n < c then 0 else c + InChunks(n - c, c)
  }

  /** The bytes that come in whole chunks, from a stream of `length` bytes read for `size`. */
  function Whole(length: nat, size: nat, c: nat): (n: nat)
    requires c > 0
    ensures n <= length && n <= size
  {
    if length >= size then size else InChunks(length, c)
  }

  lemma {:induction false} InChunksIs(n: nat, m: nat, c: nat)
    requires c > 0 && Aligned(m, c) && m <= n < m + c
    ensures InChunks(n, c) == m
    decreases n
  {
    if m > 0 {
      InChunksIs(n - c, m - c, c);
    }
  }
}
