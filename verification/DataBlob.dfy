/**
 * The DataBlob framing of chunks and metadata: the two plaintext variants
 * (uncompressed, zstd) and the two encrypted ones. SHA-256, CRC-32, zstd,
 * AES-256-GCM and PBKDF2 are parameters, constrained only by `Laws`.
 */
module DataBlob {
  import opened Wrappers
  import opened Bytes

  type Digest = d: seq<byte> | |d| == 32 witness seq(32, _ => 0)
  type Key = k: seq<byte> | |k| == 32 witness seq(32, _ => 0)
  type Block16 = b: seq<byte> | |b| == 16 witness seq(16, _ => 0)
  type U32 = v: nat | v < U32_LIMIT

  datatype Primitives = Primitives(
    sha256: seq<byte> -> Digest,
    crc32: seq<byte> -> U32,
    compress: seq<byte> -> seq<byte>,
    decompress: seq<byte> -> Option<seq<byte>>,
    // (key, iv, plaintext) to (ciphertext, tag)
    seal: (Key, Block16, seq<byte>) -> (seq<byte>, Block16),
    // (key, iv, ciphertext, tag) to plaintext, or None when the tag is wrong
    open: (Key, Block16, seq<byte>, Block16) -> Option<seq<byte>>,
    idKey: Key -> Key)

  /** Decompression inverts compression, and opening inverts sealing. */
  ghost predicate Laws(p: Primitives) {
    && (forall x :: p.decompress(p.compress(x)) == Some(x))
    && (forall k, iv, x :: p.open(k, iv, p.seal(k, iv, x).0, p.seal(k, iv, x).1) == Some(x))
  }

  const MAGIC_UNCOMPRESSED: seq<byte> := [66, 171, 56, 7, 190, 131, 112, 161]
  const MAGIC_ZSTD: seq<byte> := [49, 185, 88, 66, 111, 182, 163, 127]
  const MAGIC_ENCRYPTED: seq<byte> := [123, 103, 133, 190, 34, 45, 76, 240]
  const MAGIC_ENCRYPTED_ZSTD: seq<byte> := [230, 89, 27, 191, 11, 191, 216, 11]
  const HEADER_SIZE: nat := 12
  const ENC_HEADER_SIZE: nat := 8 + 4 + 16 + 16

  datatype BlobError =
    | ShortHeader | CrcMismatch | UnknownMagic | NotEncrypted | KeyRequired
    | ZstdFailed | DecryptFailed | DigestMismatch

  /** `magic | crc32 of body | body`, the plaintext framing. */
  function Framed(p: Primitives, magic: seq<byte>, body: seq<byte>): seq<byte> {
    magic + Le32(p.crc32(body)) + body
  }

  function EncodeUncompressed(p: Primitives, payload: seq<byte>): seq<byte> {
    Framed(p, MAGIC_UNCOMPRESSED, payload)
  }

  function EncodeAuto(p: Primitives, payload: seq<byte>): seq<byte> {
    var compressed := p.compress(payload);
    if |compressed| < |payload| then Framed(p, MAGIC_ZSTD, compressed)
    else EncodeUncompressed(p, payload)
  }

  function EncryptWithMagic(p: Primitives, key: Key, iv: Block16, payload: seq<byte>, magic: seq<byte>)
    : seq<byte>
  {
    var (buffer, tag) := p.seal(key, iv, payload);
    magic + Le32(p.crc32(buffer)) + iv + tag + buffer
  }

  function EncryptBlob(p: Primitives, key: Key, iv: Block16, plaintext: seq<byte>): seq<byte> {
    EncryptWithMagic(p, key, iv, plaintext, MAGIC_ENCRYPTED)
  }

  function EncryptCompressedBlob(p: Primitives, key: Key, iv: Block16, plaintext: seq<byte>): seq<byte> {
    var compressed := p.compress(plaintext);
    if |compressed| < |plaintext| then EncryptWithMagic(p, key, iv, compressed, MAGIC_ENCRYPTED_ZSTD)
    else EncryptWithMagic(p, key, iv, plaintext, MAGIC_ENCRYPTED)
  }

  /** What the upload task sends for one chunk. */
  function EncodeChunk(p: Primitives, crypt: Option<Key>, compress: bool, iv: Block16, data: seq<byte>)
    : seq<byte>
  {
    match crypt
    case Some(key) =>
      if compress then EncryptCompressedBlob(p, key, iv, data) else EncryptBlob(p, key, iv, data)
    case None =>
      if compress then EncodeAuto(p, data) else EncodeUncompressed(p, data)
  }

  /** The chunk digest: plain SHA-256, or keyed with the key's id key appended. */
  function ChunkDigest(p: Primitives, crypt: Option<Key>, data: seq<byte>): Digest {
    match crypt
    case Some(key) => p.sha256(data + p.idKey(key))
    case None => p.sha256(data)
  }

  function Unzstd(p: Primitives, frame: seq<byte>): Result<seq<byte>, BlobError> {
    match p.decompress(frame)
    case Some(x) => Ok(x)
    case None => Err(ZstdFailed)
  }

  function Decode(p: Primitives, blob: seq<byte>): Result<seq<byte>, BlobError> {
    if |blob| < HEADER_SIZE then Err(ShortHeader)
    else
      var magic := blob[..8];
      var payload := blob[HEADER_SIZE..];
      if p.crc32(payload) != LeValue(blob[8..12]) then Err(CrcMismatch)
      else if magic == MAGIC_UNCOMPRESSED then Ok(payload)
      else if magic == MAGIC_ZSTD then Unzstd(p, payload)
      else if magic == MAGIC_ENCRYPTED || magic == MAGIC_ENCRYPTED_ZSTD then Err(KeyRequired)
      else Err(UnknownMagic)
  }

  function DecryptBlob(p: Primitives, key: Key, blob: seq<byte>): Result<seq<byte>, BlobError> {
    if |blob| < ENC_HEADER_SIZE then Err(ShortHeader)
    else if blob[..8] != MAGIC_ENCRYPTED && blob[..8] != MAGIC_ENCRYPTED_ZSTD then Err(NotEncrypted)
    else
      var ciphertext := blob[ENC_HEADER_SIZE..];
      if p.crc32(ciphertext) != LeValue(blob[8..12]) then Err(CrcMismatch)
      else
        match p.open(key, blob[12..28], ciphertext, blob[28..44])
        case None => Err(DecryptFailed)
        case Some(buffer) =>
          if blob[..8] == MAGIC_ENCRYPTED_ZSTD then Unzstd(p, buffer) else Ok(buffer)
  }

  function DecodeBlob(p: Primitives, crypt: Option<Key>, raw: seq<byte>): Result<seq<byte>, BlobError> {
    if |raw| >= 8 && (raw[..8] == MAGIC_ENCRYPTED || raw[..8] == MAGIC_ENCRYPTED_ZSTD) then
      match crypt
      case Some(key) => DecryptBlob(p, key, raw)
      case None => Err(KeyRequired)
    else Decode(p, raw)
  }

  /** Decode a downloaded chunk and check it against the digest it was fetched by. */
  function DecodeAndVerify(p: Primitives, crypt: Option<Key>, raw: seq<byte>, expected: Digest)
    : Result<seq<byte>, BlobError>
  {
    match DecodeBlob(p, crypt, raw)
    case Err(e) => Err(e)
    case Ok(data) => if ChunkDigest(p, crypt, data) == expected then Ok(data) else Err(DigestMismatch)
  }

  lemma MagicsDiffer()
    ensures |MAGIC_UNCOMPRESSED| == |MAGIC_ZSTD| == |MAGIC_ENCRYPTED| == |MAGIC_ENCRYPTED_ZSTD| == 8
    ensures MAGIC_UNCOMPRESSED != MAGIC_ZSTD && MAGIC_UNCOMPRESSED != MAGIC_ENCRYPTED
    ensures MAGIC_UNCOMPRESSED != MAGIC_ENCRYPTED_ZSTD && MAGIC_ZSTD != MAGIC_ENCRYPTED
    ensures MAGIC_ZSTD != MAGIC_ENCRYPTED_ZSTD && MAGIC_ENCRYPTED != MAGIC_ENCRYPTED_ZSTD
  {
    assert MAGIC_UNCOMPRESSED[0] == 66 && MAGIC_ZSTD[0] == 49;
    assert MAGIC_ENCRYPTED[0] == 123 && MAGIC_ENCRYPTED_ZSTD[0] == 230;
  }

  /** A plaintext frame splits back into its magic, its checksum and its body. */
  lemma FramedParts(p: Primitives, magic: seq<byte>, body: seq<byte>)
    requires |magic| == 8
    ensures var s := Framed(p, magic, body);
            |s| == HEADER_SIZE + |body| && s[..8] == magic
            && LeValue(s[8..12]) == p.crc32(body) && s[HEADER_SIZE..] == body
  {
    var s := Framed(p, magic, body);
    Le32RoundTrip(p.crc32(body));
    assert s[8..12] == Le32(p.crc32(body));
  }

  lemma EncryptedParts(p: Primitives, key: Key, iv: Block16, payload: seq<byte>, magic: seq<byte>)
    requires |magic| == 8
    ensures var s := EncryptWithMagic(p, key, iv, payload, magic);
            var (buffer, tag) := p.seal(key, iv, payload);
            |s| == ENC_HEADER_SIZE + |buffer| && s[..8] == magic
            && LeValue(s[8..12]) == p.crc32(buffer) && s[12..28] == iv && s[28..44] == tag
            && s[ENC_HEADER_SIZE..] == buffer
  {
    var s := EncryptWithMagic(p, key, iv, payload, magic);
    var (buffer, tag) := p.seal(key, iv, payload);
    Le32RoundTrip(p.crc32(buffer));
    assert s[8..12] == Le32(p.crc32(buffer));
    assert s[12..28] == iv;
    assert s[28..44] == tag;
  }

  lemma FramedRoundTrip(p: Primitives, crypt: Option<Key>, magic: seq<byte>, body: seq<byte>)
    requires magic == MAGIC_UNCOMPRESSED || magic == MAGIC_ZSTD
    ensures DecodeBlob(p, crypt, Framed(p, magic, body))
            == if magic == MAGIC_ZSTD then Unzstd(p, body) else Ok(body)
  {
    MagicsDiffer();
    FramedParts(p, magic, body);
  }

  lemma EncryptedRoundTrip(p: Primitives, key: Key, iv: Block16, payload: seq<byte>, magic: seq<byte>)
    requires Laws(p) && (magic == MAGIC_ENCRYPTED || magic == MAGIC_ENCRYPTED_ZSTD)
    ensures DecodeBlob(p, Some(key), EncryptWithMagic(p, key, iv, payload, magic))
            == if magic == MAGIC_ENCRYPTED_ZSTD then Unzstd(p, payload) else Ok(payload)
  {
    MagicsDiffer();
    EncryptedParts(p, key, iv, payload, magic);
  }

  /** Every chunk decodes back under the key mode it was encoded with, through all four framings. */
  lemma ChunkRoundTrip(p: Primitives, crypt: Option<Key>, compress: bool, iv: Block16, data: seq<byte>)
    requires Laws(p)
    ensures DecodeAndVerify(p, crypt, EncodeChunk(p, crypt, compress, iv, data), ChunkDigest(p, crypt, data))
            == Ok(data)
  {
    MagicsDiffer();
    var compressed := p.compress(data);
    match crypt
    case None =>
      FramedRoundTrip(p, crypt, MAGIC_UNCOMPRESSED, data);
      FramedRoundTrip(p, crypt, MAGIC_ZSTD, compressed);
    case Some(key) =>
      EncryptedRoundTrip(p, key, iv, data, MAGIC_ENCRYPTED);
      EncryptedRoundTrip(p, key, iv, compressed, MAGIC_ENCRYPTED_ZSTD);
  }

  /** Compression never inflates: a blob is at most its header longer than the data. */
  lemma NeverInflates(p: Primitives, data: seq<byte>)
    ensures |EncodeAuto(p, data)| <= |EncodeUncompressed(p, data)| == HEADER_SIZE + |data|
  {
    MagicsDiffer();
    FramedParts(p, MAGIC_UNCOMPRESSED, data);
    FramedParts(p, MAGIC_ZSTD, p.compress(data));
  }

  /**
   * A blob that reads back as `data` without a key is read the same under one, but compared with the
   * keyed digest: it verifies exactly when the two digests coincide.
   */
  lemma PlaintextBlobUnderKey(p: Primitives, key: Key, raw: seq<byte>, data: seq<byte>)
    requires DecodeAndVerify(p, None, raw, p.sha256(data)) == Ok(data)
    ensures DecodeAndVerify(p, Some(key), raw, p.sha256(data))
         == if p.sha256(data + p.idKey(key)) == p.sha256(data) then Ok(data) else Err(DigestMismatch)
  {
  }

  /** So it is with a chunk written without a key, compressed or not. */
  lemma PlaintextChunkUnderKey(p: Primitives, key: Key, compress: bool, iv: Block16, data: seq<byte>)
    requires Laws(p)
    ensures DecodeAndVerify(p, Some(key), EncodeChunk(p, None, compress, iv, data), ChunkDigest(p, None, data)).Ok?
            <==> p.sha256(data + p.idKey(key)) == p.sha256(data)
  {
    ChunkRoundTrip(p, None, compress, iv, data);
    PlaintextBlobUnderKey(p, key, EncodeChunk(p, None, compress, iv, data), data);
  }

  /** An encrypted chunk never decodes without a key. */
  lemma EncryptedChunkWithoutKey(
      p: Primitives, key: Key, compress: bool, iv: Block16, data: seq<byte>, expected: Digest)
    ensures DecodeAndVerify(p, None, EncodeChunk(p, Some(key), compress, iv, data), expected) == Err(KeyRequired)
  {
    MagicsDiffer();
    EncryptedParts(p, key, iv, data, MAGIC_ENCRYPTED);
    EncryptedParts(p, key, iv, p.compress(data), MAGIC_ENCRYPTED_ZSTD);
  }
}
