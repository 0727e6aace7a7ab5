/**
A chunk's file: a 16-byte header (magic, format, flags, reserved, content length, CRC-32 of the rest) and the content,
compressed when that makes it smaller, sealed when the store is encrypted. The digest, zstd, AES-GCM and CRC-32 are any
functions that keep the laws of `Lawful`.
*/
module ChunkCodec {
  import opened Wrappers
  import opened Bytes

  type Digest = Bytes

  /** A content struct's 4-byte length can carry. */
  type Content = c: Bytes | |c| < 0x1_0000_0000 witness []

  const CHUNK_MAGIC: Bytes := [72, 76, 66, 75]  // "HLBK"
  const FORMAT: byte := 1
  const HEADER_SIZE := 16
  const NONCE_SIZE := 12
  const COMPRESSED := 1
  const ENCRYPTED := 2
  /** The index entry of a chunk of zeros, which is never stored: 32 zero bytes. */
  const ZERO: Digest := ZeroBytes(32)

  function ZeroBytes(n: nat): (z: Bytes)
    ensures |z| == n && forall i | 0 <= i < n :: z[i] == 0
  {
    seq(n, _ => 0)
  }

  datatype Scheme = Scheme(
    encrypted: bool,
    digest: Bytes -> Digest,
    compress: Bytes -> Bytes,
    decompress: (Bytes, nat) -> Option<Bytes>,
    seal: (Bytes, Bytes, Digest) -> Bytes,
    unseal: (Bytes, Bytes, Digest) -> Option<Bytes>,
    crc: Bytes -> nat)

  /** Contents are named apart, and none is named ZERO. A digest is a byte string of any length here: no function to 32
      bytes names every content apart, SHA-256 is only taken never to be caught. */
  ghost predicate NamesApart(digest: Bytes -> Digest)
  {
    (forall a, b :: Apart(digest, a, b)) && (forall a :: digest(a) != ZERO)
  }

  ghost predicate Apart(digest: Bytes -> Digest, a: Bytes, b: Bytes)
  {
    digest(a) == digest(b) ==> a == b
  }

  ghost predicate Lawful(s: Scheme)
  {
    && NamesApart(s.digest)
    && (forall c :: s.decompress(s.compress(c), |c|) == Some(c))
    && (forall n, p, d :: s.unseal(n, s.seal(n, p, d), d) == Some(p))
    && (forall p :: s.crc(p) < 0x1_0000_0000)
  }

  /** The laws can be kept: names with a byte in front, nothing compressed, sealed or summed. */
  lemma SomeSchemeIsLawful(encrypted: bool)
    ensures var s := Scheme(encrypted, c => [1] + c, c => c, (p, n) => Some(p), (n, p, d) => p, (n, q, d) => Some(q),
                            p => 0);
      Lawful(s)
  {
    forall a: Bytes, b: Bytes | [1] + a == [1] + b
      ensures a == b
    {
      assert a == ([1] + a)[1..] && b == ([1] + b)[1..];
    }
    assert ZERO[0] == 0;
  }

  datatype Damage =
    | TooShort | NotAChunk | CrcMismatch | WrongSeal | AuthenticationFailed | CannotDecompress | WrongContent

  predicate Shrinks(s: Scheme, content: Bytes)
  {
    |s.compress(content)| < |content|
  }

  function Payload(s: Scheme, nonce: Bytes, digest: Digest, content: Bytes): Bytes
  {
    var plain := if Shrinks(s, content) then s.compress(content) else content;
    if s.encrypted then nonce + s.seal(nonce, plain, digest) else plain
  }

  function Flags(s: Scheme, content: Bytes): byte
  {
    (if Shrinks(s, content) then COMPRESSED else 0) + (if s.encrypted then ENCRYPTED else 0)
  }

  function Frame(flags: byte, length: nat, crc: nat, payload: Bytes): Bytes
  {
    CHUNK_MAGIC + [FORMAT, flags, 0, 0] + PackBE(length, 4) + PackBE(crc, 4) + payload
  }

  function Encode(s: Scheme, nonce: Bytes, digest: Digest, content: Content): Bytes
  {
    var payload := Payload(s, nonce, digest, content);
    Frame(Flags(s, content), |content|, s.crc(payload), payload)
  }

  function Unpack(s: Scheme, digest: Digest, flags: byte, payload: Bytes, length: nat): Result<Bytes, Damage>
  {
    var cut := if |payload| < NONCE_SIZE then |payload| else NONCE_SIZE;
    var plain := if s.encrypted then s.unseal(payload[..cut], payload[cut..], digest) else Some(payload);
    if plain.None? then Err(AuthenticationFailed) else
    var content := if flags % 2 == 1 then s.decompress(plain.value, length) else plain;
    if content.None? then Err(CannotDecompress)
    else if |content.value| != length || s.digest(content.value) != digest then Err(WrongContent)
    else Ok(content.value)
  }

  function Decode(s: Scheme, digest: Digest, blob: Bytes): Result<Bytes, Damage>
  {
    if |blob| < HEADER_SIZE then Err(TooShort) else
    var flags, length, crc := blob[5], UnpackBE(blob[8..12]), UnpackBE(blob[12..16]);
    var payload := blob[HEADER_SIZE..];
    if blob[..4] != CHUNK_MAGIC || blob[4] != FORMAT then Err(NotAChunk)
    else if s.crc(payload) != crc then Err(CrcMismatch)
    else if (flags / 2 % 2 == 1) != s.encrypted then Err(WrongSeal)
    else Unpack(s, digest, flags, payload, length)
  }

  /** The check a copy makes without the key. */
  function CheckBlob(s: Scheme, blob: Bytes): Result<(), Damage>
  {
    if |blob| < HEADER_SIZE then Err(TooShort)
    else if blob[..4] != CHUNK_MAGIC || blob[4] != FORMAT || s.crc(blob[HEADER_SIZE..]) != UnpackBE(blob[12..16]) then
      Err(CrcMismatch)
    else Ok(())
  }

  lemma FrameFields(flags: byte, length: nat, crc: nat, payload: Bytes)
    requires length < 0x1_0000_0000 && crc < 0x1_0000_0000
    ensures var blob := Frame(flags, length, crc, payload);
            |blob| >= HEADER_SIZE && blob[..4] == CHUNK_MAGIC && blob[4] == FORMAT && blob[5] == flags &&
            blob[6..8] == [0, 0] &&
            UnpackBE(blob[8..12]) == length && UnpackBE(blob[12..16]) == crc && blob[HEADER_SIZE..] == payload
  {
    var blob := Frame(flags, length, crc, payload);
    assert Pow(256, 4) == 0x1_0000_0000;
    assert blob[8..12] == PackBE(length, 4) && blob[12..16] == PackBE(crc, 4);
    FieldRoundTrip(length, 4);
    FieldRoundTrip(crc, 4);
  }

  lemma DecodeFrame(s: Scheme, digest: Digest, flags: byte, length: nat, payload: Bytes)
    requires length < 0x1_0000_0000 && s.crc(payload) < 0x1_0000_0000 && (flags / 2 % 2 == 1) == s.encrypted
    ensures Decode(s, digest, Frame(flags, length, s.crc(payload), payload))
         == Unpack(s, digest, flags, payload, length)
  {
    FrameFields(flags, length, s.crc(payload), payload);
  }

  lemma PayloadRoundTrip(s: Scheme, nonce: Bytes, content: Bytes)
    requires Lawful(s) && |nonce| == NONCE_SIZE
    ensures var d := s.digest(content);
            Unpack(s, d, Flags(s, content), Payload(s, nonce, d, content), |content|) == Ok(content)
  {
    var d := s.digest(content);
    if s.encrypted {
      var plain := if Shrinks(s, content) then s.compress(content) else content;
      var payload := Payload(s, nonce, d, content);
      assert payload[..NONCE_SIZE] == nonce && payload[NONCE_SIZE..] == s.seal(nonce, plain, d);
    }
  }

  /** What is written is read back, whatever compression does and whether the store is sealed or not. */
  lemma BlobRoundTrip(s: Scheme, nonce: Bytes, content: Content)
    requires Lawful(s) && |nonce| == NONCE_SIZE
    ensures Decode(s, s.digest(content), Encode(s, nonce, s.digest(content), content)) == Ok(content)
  {
    var payload := Payload(s, nonce, s.digest(content), content);
    PayloadRoundTrip(s, nonce, content);
    DecodeFrame(s, s.digest(content), Flags(s, content), |content|, payload);
  }

  /** Whatever bytes the file holds, what decodes under a content's digest is that content. */
  lemma DecodeNeverLies(s: Scheme, original: Bytes, blob: Bytes)
    requires NamesApart(s.digest)
    ensures Decode(s, s.digest(original), blob).Ok? ==> Decode(s, s.digest(original), blob).value == original
  {
    var r := Decode(s, s.digest(original), blob);
    assert r.Ok? ==> Apart(s.digest, original, r.value);
  }

  /** The flags say whether the payload is compressed, which it is exactly when that makes it smaller, and sealed. */
  lemma FlagsMean(s: Scheme, content: Bytes)
    ensures Flags(s, content) % 2 == 1 <==> |s.compress(content)| < |content|
    ensures Flags(s, content) / 2 % 2 == 1 <==> s.encrypted
    ensures Flags(s, content) < 4
  {
  }

  /** A store reads only files of its own kind: one that seals none that is not sealed, and one that does not none that
      is. */
  lemma SealMustMatch(s: Scheme, digest: Digest, blob: Bytes)
    requires |blob| >= HEADER_SIZE && (blob[5] / 2 % 2 == 1) != s.encrypted
    ensures Decode(s, digest, blob).Err?
  {
  }

  /** The check made without the key accepts exactly the files of the format whose payload has the CRC they bear. */
  lemma CheckAccepts(s: Scheme, blob: Bytes)
    requires |blob| >= HEADER_SIZE ==> s.crc(blob[HEADER_SIZE..]) < 0x1_0000_0000
    ensures CheckBlob(s, blob).Ok? <==>
      && |blob| >= HEADER_SIZE
      && blob == CHUNK_MAGIC + [FORMAT] + blob[5..12] + PackBE(s.crc(blob[HEADER_SIZE..]), 4) + blob[HEADER_SIZE..]
  {
    if |blob| >= HEADER_SIZE {
      var crc := s.crc(blob[HEADER_SIZE..]);
      assert Pow(256, 4) == 0x1_0000_0000;
      FieldRoundTrip(crc, 4);
      BytesRoundTrip(blob[12..16]);
      assert blob == blob[..4] + [blob[4]] + blob[5..12] + blob[12..16] + blob[HEADER_SIZE..];
      var sealed := CHUNK_MAGIC + [FORMAT] + blob[5..12] + PackBE(crc, 4) + blob[HEADER_SIZE..];
      assert sealed[..4] == CHUNK_MAGIC && sealed[4] == FORMAT && sealed[12..16] == PackBE(crc, 4);
    }
  }

  /** So a payload that came to have another CRC is not copied. */
  lemma DamagedBlobsAreNotCopied(s: Scheme, blob: Bytes, damaged: Bytes)
    requires CheckBlob(s, blob).Ok? && |damaged| >= HEADER_SIZE && damaged[..HEADER_SIZE] == blob[..HEADER_SIZE]
    requires s.crc(damaged[HEADER_SIZE..]) != s.crc(blob[HEADER_SIZE..])
    ensures CheckBlob(s, damaged).Err?
  {
    assert damaged[12..16] == damaged[..HEADER_SIZE][12..16] == blob[..HEADER_SIZE][12..16] == blob[12..16];
  }

  /** A file that decodes passes the check made without the key. */
  lemma SoundBlobsAreCopied(s: Scheme, digest: Digest, blob: Bytes)
    ensures Decode(s, digest, blob).Ok? ==> CheckBlob(s, blob) == Ok(())
  {
  }
}
