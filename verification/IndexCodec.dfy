/**
The index file of a disk: a header (magic, disk size, chunk size, number of chunks), the chunks' digests, and the
SHA-256 of all of it. The hash is any function to 32 bytes.
*/
module IndexCodec {
  import opened Wrappers
  import opened Bytes

  const INDEX_MAGIC: Bytes := [72, 76, 70, 73, 68, 88, 48, 49]  // "HLFIDX01"
  const HEADER_SIZE := 24
  const DIGEST_SIZE := 32

  datatype Index = Index(size: nat, chunkSize: nat, digests: seq<Bytes>)

  datatype Error = FieldOverflow | TooShort | ChecksumMismatch | NotAnIndex | SizesMismatch

  ghost predicate HashesTo32(sha: Bytes -> Bytes)
  {
    forall x :: |sha(x)| == DIGEST_SIZE
  }

  function Ceil(size: nat, chunkSize: nat): nat
    requires chunkSize > 0
  {
    (size + chunkSize - 1) / chunkSize
  }

  function Join(parts: seq<Bytes>): Bytes
  {
    if parts == [] then [] else parts[0] + Join(parts[1..])
  }

  function Header(index: Index): (h: Bytes)
    ensures |h| == HEADER_SIZE
  {
    INDEX_MAGIC + PackBE(index.size, 8) + PackBE(index.chunkSize, 4) + PackBE(|index.digests|, 4)
  }

  /** struct refuses a number its field cannot hold. */
  predicate Fits(index: Index)
  {
    index.size < Pow(256, 8) && index.chunkSize < Pow(256, 4) && |index.digests| < Pow(256, 4)
  }

  function Encode(sha: Bytes -> Bytes, index: Index): Result<Bytes, Error>
  {
    if !Fits(index) then Err(FieldOverflow) else
    var body := Header(index) + Join(index.digests);
    Ok(body + sha(body))
  }

  /** `count` digests cut from the front of `s`. */
  function Cut(s: Bytes, count: nat): (parts: seq<Bytes>)
    requires |s| == DIGEST_SIZE * count
    ensures |parts| == count && forall i | 0 <= i < count :: |parts[i]| == DIGEST_SIZE
  {
    if count == 0 then [] else [s[..DIGEST_SIZE]] + Cut(s[DIGEST_SIZE..], count - 1)
  }

  function Decode(sha: Bytes -> Bytes, raw: Bytes): Result<Index, Error>
  {
    if |raw| < HEADER_SIZE + DIGEST_SIZE then Err(TooShort) else
    var body, checksum := raw[..|raw| - DIGEST_SIZE], raw[|raw| - DIGEST_SIZE..];
    if sha(body) != checksum then Err(ChecksumMismatch) else
    var size, chunkSize, count := UnpackBE(body[8..16]), UnpackBE(body[16..20]), UnpackBE(body[20..24]);
    if body[..8] != INDEX_MAGIC then Err(NotAnIndex)
    else if chunkSize == 0 || |body| != HEADER_SIZE + DIGEST_SIZE * count || count != Ceil(size, chunkSize) then
      Err(SizesMismatch)
    else Ok(Index(size, chunkSize, Cut(body[HEADER_SIZE..], count)))
  }

  /** What a disk's index is: whole digests, one for each chunk of the disk, every field within its width. */
  predicate WellFormed(index: Index)
  {
    && Fits(index)
    && (forall i | 0 <= i < |index.digests| :: |index.digests[i]| == DIGEST_SIZE)
    && index.chunkSize > 0
    && |index.digests| == Ceil(index.size, index.chunkSize)
  }

  lemma {:induction false} CutOfJoin(parts: seq<Bytes>)
    requires forall i | 0 <= i < |parts| :: |parts[i]| == DIGEST_SIZE
    ensures |Join(parts)| == DIGEST_SIZE * |parts|
    ensures Cut(Join(parts), |parts|) == parts
  {
    if parts != [] {
      CutOfJoin(parts[1..]);
      assert Join(parts)[..DIGEST_SIZE] == parts[0];
      assert Join(parts)[DIGEST_SIZE..] == Join(parts[1..]);
    }
  }

  lemma {:induction false} JoinOfCut(s: Bytes, count: nat)
    requires |s| == DIGEST_SIZE * count
    ensures Join(Cut(s, count)) == s
  {
    if count > 0 {
      JoinOfCut(s[DIGEST_SIZE..], count - 1);
      assert Cut(s, count)[1..] == Cut(s[DIGEST_SIZE..], count - 1);
      assert s == s[..DIGEST_SIZE] + s[DIGEST_SIZE..];
    }
  }

  /** The fields read back from a header and whatever follows it. */
  lemma HeaderFields(index: Index, rest: Bytes)
    requires Fits(index)
    ensures var body := Header(index) + rest;
            body[..8] == INDEX_MAGIC && UnpackBE(body[8..16]) == index.size &&
            UnpackBE(body[16..20]) == index.chunkSize && UnpackBE(body[20..24]) == |index.digests| &&
            body[HEADER_SIZE..] == rest
  {
    var body := Header(index) + rest;
    assert body[8..16] == PackBE(index.size, 8);
    assert body[16..20] == PackBE(index.chunkSize, 4);
    assert body[20..24] == PackBE(|index.digests|, 4);
    FieldRoundTrip(index.size, 8);
    FieldRoundTrip(index.chunkSize, 4);
    FieldRoundTrip(|index.digests|, 4);
  }

  /** A header is its fields packed again. */
  lemma HeaderOfFields(index: Index, body: Bytes)
    requires |body| >= HEADER_SIZE && body[..8] == INDEX_MAGIC
    requires index.size == UnpackBE(body[8..16]) && index.chunkSize == UnpackBE(body[16..20])
    requires |index.digests| == UnpackBE(body[20..24])
    ensures Fits(index) && Header(index) == body[..HEADER_SIZE]
  {
    BytesRoundTrip(body[8..16]);
    BytesRoundTrip(body[16..20]);
    BytesRoundTrip(body[20..24]);
    assert body[..HEADER_SIZE] == body[..8] + body[8..16] + body[16..20] + body[20..24];
  }

  /** An index of whole digests comes back exactly when it has one digest for each chunk of its disk. */
  lemma DecodeOfEncode(sha: Bytes -> Bytes, index: Index)
    requires HashesTo32(sha) && Fits(index)
    requires forall i | 0 <= i < |index.digests| :: |index.digests[i]| == DIGEST_SIZE
    ensures Encode(sha, index).Ok?
    ensures Decode(sha, Encode(sha, index).value) == Ok(index) <==> WellFormed(index)
    ensures !WellFormed(index) ==> Decode(sha, Encode(sha, index).value) == Err(SizesMismatch)
  {
    var digests := Join(index.digests);
    var body := Header(index) + digests;
    var raw := body + sha(body);
    CutOfJoin(index.digests);
    assert raw[..|raw| - DIGEST_SIZE] == body && raw[|raw| - DIGEST_SIZE..] == sha(body);
    HeaderFields(index, digests);
  }

  /** Whatever decodes is the encoding of what it decodes to, which is well formed. */
  lemma EncodeOfDecode(sha: Bytes -> Bytes, raw: Bytes)
    requires HashesTo32(sha) && Decode(sha, raw).Ok?
    ensures WellFormed(Decode(sha, raw).value)
    ensures Encode(sha, Decode(sha, raw).value) == Ok(raw)
  {
    var index := Decode(sha, raw).value;
    var body := raw[..|raw| - DIGEST_SIZE];
    HeaderOfFields(index, body);
    JoinOfCut(body[HEADER_SIZE..], |index.digests|);
    assert body == body[..HEADER_SIZE] + body[HEADER_SIZE..];
    assert raw == body + raw[|raw| - DIGEST_SIZE..];
  }

  /** Decoding accepts the encodings of well-formed indexes, and nothing else. */
  lemma DecodeAcceptsExactlyEncodings(sha: Bytes -> Bytes, raw: Bytes)
    requires HashesTo32(sha)
    ensures Decode(sha, raw).Ok? <==> exists index :: WellFormed(index) && Encode(sha, index) == Ok(raw)
  {
    if Decode(sha, raw).Ok? {
      EncodeOfDecode(sha, raw);
    }
    if index :| WellFormed(index) && Encode(sha, index) == Ok(raw) {
      DecodeOfEncode(sha, index);
    }
  }
}
