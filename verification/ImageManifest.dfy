/** Identity of a chunked disk image (crates/intar-contracts/src/catalog.rs).

    A manifest lists the non-zero 4 MiB chunks of an image in index order; every
    omitted index stands for a chunk of zero bytes.  The image identity is the
    SHA-256 of a fixed-width encoding of the dense chunk sequence, which the code
    produces by merging the sparse list with the implied zero chunks in one pass.

    SHA-256 is a parameter `sha` about which nothing is assumed but its width. */
module ImageManifest {
  import opened Wrappers

  type byte = x: int | 0 <= x < 0x100
  type u16 = x: int | 0 <= x < 0x1_0000
  type u32 = x: int | 0 <= x < 0x1_0000_0000
  type u64 = x: int | 0 <= x < 0x1_0000_0000_0000_0000
  type Digest = d: seq<byte> | |d| == 32 witness seq(32, _ => 0)
  type Sha256 = seq<byte> -> Digest

  const SCHEMA_VERSION: u16 := 1
  const CHUNK_SIZE: u32 := 4 * 1024 * 1024
  const CHUNK_ENCODING := "zstd-v1-level-6"
  const MAX_IMAGE_BYTES: u64 := 64 * 1024 * 1024 * 1024
  const U32_MAX: u32 := 0xFFFF_FFFF
  const ZERO_BLOCK: u32 := 64 * 1024

  /** `b"intar-raw-chunks-v1\0"` */
  const MAGIC: seq<byte> :=
    [105, 110, 116, 97, 114, 45, 114, 97, 119, 45, 99, 104, 117, 110, 107, 115, 45, 118, 49, 0]

  datatype ImageChunk = ImageChunk(
    index: u32, rawSizeBytes: u32, rawSha256: string, encodedSizeBytes: u64, encodedSha256: string)

  datatype Manifest = Manifest(
    schemaVersion: u16, imageId: string, virtualSizeBytes: u64, chunkSizeBytes: u32,
    encoding: string, chunks: seq<ImageChunk>)

  datatype ManifestError =
    | UnsupportedSchema
    | UnsupportedChunkSize
    | UnsupportedEncoding
    | InvalidVirtualSize
    | InvalidChunkIndex
    | InvalidChunkRawSize
    | InvalidChunkEncodedSize
    | InvalidChunkDigest
    | InvalidImageId

  // ---------------------------------------------------------------- integers

  /** `value as u32`: Rust truncates to the low 32 bits. */
  function AsU32(value: u64): u32 { value % 0x1_0000_0000 }

  function Min(a: int, b: int): int { if a <= b then a else b }

  function SaturatingSub(a: nat, b: nat): nat { if a <= b then 0 else a - b }

  function ChunkCount(virtualSize: u64): u32 {
    AsU32(Min((virtualSize + CHUNK_SIZE - 1) / CHUNK_SIZE, U32_MAX))
  }

  function RawSize(virtualSize: u64, index: u32): u32 {
    AsU32(Min(SaturatingSub(virtualSize, index * CHUNK_SIZE), CHUNK_SIZE))
  }

  function Pow256(width: nat): (p: nat)
    ensures p > 0
  {
    if width == 0 then 1 else 256 * Pow256(width - 1)
  }

  /** `to_le_bytes` of a `width`-byte integer. */
  function LittleEndian(n: nat, width: nat): (s: seq<byte>)
    ensures |s| == width
    decreases width
  {
    if width == 0 then [] else [n % 256] + LittleEndian(n / 256, width - 1)
  }

  function FromLittleEndian(s: seq<byte>): nat {
    if s == [] then 0 else s[0] + 256 * FromLittleEndian(s[1..])
  }

  /** Fixed-width little-endian encoding loses nothing for integers of that width. */
  lemma {:induction false} LittleEndianRoundTrip(n: nat, width: nat)
    requires n < Pow256(width)
    ensures FromLittleEndian(LittleEndian(n, width)) == n
    decreases width
  {
    if width > 0 {
      LittleEndianRoundTrip(n / 256, width - 1);
      assert LittleEndian(n, width)[1..] == LittleEndian(n / 256, width - 1);
    }
  }

  lemma WidthBounds()
    ensures Pow256(4) == 0x1_0000_0000
    ensures Pow256(8) == 0x1_0000_0000_0000_0000
  {
    assert Pow256(2) == 0x1_0000;
    assert Pow256(4) == 256 * (256 * Pow256(2));
    assert Pow256(6) == 256 * (256 * Pow256(4));
    assert Pow256(8) == 256 * (256 * Pow256(6));
  }

  // --------------------------------------------------------------- raw sizes

  /** The largest image whose chunk count fits the `u32` of `chunk_count`. */
  const COUNTABLE_BYTES: u64 := U32_MAX * CHUNK_SIZE

  ghost function SumRawSizes(virtualSize: u64, n: nat): nat
    requires n <= U32_MAX
  {
    if n == 0 then 0 else SumRawSizes(virtualSize, n - 1) + RawSize(virtualSize, n - 1)
  }

  lemma {:induction false} SumIsClippedPrefix(virtualSize: u64, n: nat)
    requires n <= U32_MAX
    ensures SumRawSizes(virtualSize, n) == Min(virtualSize, n * CHUNK_SIZE)
    decreases n
  {
    if n > 0 {
      SumIsClippedPrefix(virtualSize, n - 1);
      assert n * CHUNK_SIZE == (n - 1) * CHUNK_SIZE + CHUNK_SIZE;
    }
  }

  lemma ChunkStartsInsideTheImage(virtualSize: u64, i: u32)
    requires i < ChunkCount(virtualSize)
    ensures i * CHUNK_SIZE < virtualSize
  {
    var count := (virtualSize + CHUNK_SIZE - 1) / CHUNK_SIZE;
    assert i + 1 <= count;
    assert count * CHUNK_SIZE <= virtualSize + CHUNK_SIZE - 1;
  }

  /** No size is lost in the saturating and truncating casts: every chunk the
      count admits is non-empty and fits a chunk, and the sizes add up to the
      image exactly when the count itself did not saturate. */
  lemma RawSizesPartitionTheImage(virtualSize: u64)
    ensures forall i: u32 :: i < ChunkCount(virtualSize) ==> 0 < RawSize(virtualSize, i) <= CHUNK_SIZE
    ensures SumRawSizes(virtualSize, ChunkCount(virtualSize)) == virtualSize
            <==> virtualSize <= COUNTABLE_BYTES
    ensures virtualSize <= MAX_IMAGE_BYTES ==> virtualSize <= COUNTABLE_BYTES
  {
    SumIsClippedPrefix(virtualSize, ChunkCount(virtualSize));
    forall i: u32 | i < ChunkCount(virtualSize)
      ensures 0 < RawSize(virtualSize, i) <= CHUNK_SIZE
    {
      ChunkStartsInsideTheImage(virtualSize, i);
    }
  }

  // --------------------------------------------------------------------- hex

  predicate IsHexDigit(c: char) { '0' <= c <= '9' || 'a' <= c <= 'f' }

  predicate IsSha256Hex(value: string) {
    |value| == 64 && forall i :: 0 <= i < |value| ==> IsHexDigit(value[i])
  }

  function HexNibble(c: char): (n: byte)
    requires IsHexDigit(c)
    ensures n < 16
  {
    if c <= '9' then (c - '0') as int else (c - 'a') as int + 10
  }

  function HexChar(n: byte): (c: char)
    requires n < 16
    ensures IsHexDigit(c) && HexNibble(c) == n
  {
    if n < 10 then '0' + n as char else 'a' + (n - 10) as char
  }

  /** `hex_digest`: two lowercase digits per byte. */
  function HexDigest(bytes: seq<byte>): (s: string)
    ensures |s| == 2 * |bytes|
    ensures forall i :: 0 <= i < |bytes| ==>
              s[2 * i] == HexChar(bytes[i] / 16) && s[2 * i + 1] == HexChar(bytes[i] % 16)
  {
    if bytes == [] then ""
    else
      var n := |bytes| - 1;
      HexDigest(bytes[..n]) + [HexChar(bytes[n] / 16), HexChar(bytes[n] % 16)]
  }

  /** Byte `k` of the digest: its high digit comes first. */
  function HexByte(value: string, k: nat): byte
    requires IsSha256Hex(value) && k < 32
  {
    HexNibble(value[2 * k]) * 16 + HexNibble(value[2 * k + 1])
  }

  ghost function Decoded(value: string): Digest
    requires IsSha256Hex(value)
  {
    seq(32, k requires 0 <= k < 32 => HexByte(value, k))
  }

  lemma NibbleCharInverse(c: char)
    requires IsHexDigit(c)
    ensures HexChar(HexNibble(c)) == c
  {
  }

  lemma EncodeThenDecode(digest: Digest)
    ensures IsSha256Hex(HexDigest(digest)) && Decoded(HexDigest(digest)) == digest
  {
    var hex := HexDigest(digest);
    forall i | 0 <= i < 64 ensures IsHexDigit(hex[i]) {
      var k := i / 2;
      assert hex[2 * k] == HexChar(digest[k] / 16) && hex[2 * k + 1] == HexChar(digest[k] % 16);
      assert i == 2 * k || i == 2 * k + 1;
    }
  }

  lemma SplitHexByte(value: string, k: nat)
    requires IsSha256Hex(value) && k < 32
    ensures HexChar(HexByte(value, k) / 16) == value[2 * k]
    ensures HexChar(HexByte(value, k) % 16) == value[2 * k + 1]
  {
    NibbleCharInverse(value[2 * k]);
    NibbleCharInverse(value[2 * k + 1]);
  }

  lemma DecodeThenEncode(value: string)
    requires IsSha256Hex(value)
    ensures HexDigest(Decoded(value)) == value
  {
    var back := HexDigest(Decoded(value));
    forall i | 0 <= i < 64 ensures back[i] == value[i] {
      var k := i / 2;
      SplitHexByte(value, k);
      assert Decoded(value)[k] == HexByte(value, k);
      assert i == 2 * k || i == 2 * k + 1;
    }
  }

  /** `decode_sha256`: fills a 32-byte array two characters at a time. */
  method DecodeSha256(value: string) returns (r: Result<Digest, ManifestError>)
    ensures r.Ok? <==> IsSha256Hex(value)
    ensures r.Ok? ==> HexDigest(r.value) == value
    ensures r.Ok? ==> r.value == Decoded(value)
    ensures r.Err? ==> r.error == InvalidChunkDigest
  {
    if !IsSha256Hex(value) {
      return Err(InvalidChunkDigest);
    }
    var output := new byte[32](_ => 0);
    var index := 0;
    while index < 32
      invariant 0 <= index <= 32
      invariant forall k :: 0 <= k < index ==> output[k] == HexByte(value, k)
    {
      output[index] := HexByte(value, index);
      index := index + 1;
    }
    DecodeThenEncode(value);
    assert output[..] == Decoded(value);
    r := Ok(output[..]);
  }

  // ------------------------------------------------------------- zero chunks

  function Zeros(n: nat): (s: seq<byte>)
    ensures |s| == n && forall i :: 0 <= i < n ==> s[i] == 0
  {
    seq(n, _ => 0)
  }

  /** `compute_zero_chunk_sha256`: feeds the hasher in 64 KiB blocks. */
  method ComputeZeroChunkSha256(sha: Sha256, rawSize: u32) returns (digest: Digest)
    ensures digest == sha(Zeros(rawSize))
  {
    var hashed: seq<byte> := [];
    var zeros := Zeros(ZERO_BLOCK);
    var remaining := rawSize;
    while remaining > 0
      invariant 0 <= remaining <= rawSize
      invariant hashed == Zeros(rawSize - remaining)
    {
      var length := Min(remaining, ZERO_BLOCK);
      hashed := hashed + zeros[..length];
      remaining := remaining - length;
    }
    digest := sha(hashed);
  }

  /** The process-wide memo of the full-size zero chunk digest. */
  class ZeroChunkCache {
    const sha: Sha256
    var full: Option<Digest>

    ghost predicate Valid() reads this {
      full.Some? ==> full.value == sha(Zeros(CHUNK_SIZE))
    }

    constructor (sha: Sha256)
      ensures Valid() && this.sha == sha
    {
      this.sha := sha;
      full := None;
    }

    /** `zero_chunk_sha256` */
    method Digest(rawSize: u32) returns (digest: Digest)
      requires Valid()
      modifies this
      ensures Valid()
      ensures digest == sha(Zeros(rawSize))
    {
      if rawSize == CHUNK_SIZE {
        if full.None? {
          var computed := ComputeZeroChunkSha256(sha, CHUNK_SIZE);
          full := Some(computed);
        }
        return full.value;
      }
      digest := ComputeZeroChunkSha256(sha, rawSize);
    }
  }

  // ---------------------------------------------------- the dense chunk sequence

  /** Strictly increasing chunk indexes below `count`. */
  ghost predicate InOrder(chunks: seq<ImageChunk>, count: nat) {
    && (forall i :: 0 <= i < |chunks| ==> chunks[i].index < count)
    && (forall i, j :: 0 <= i < j < |chunks| ==> chunks[i].index < chunks[j].index)
  }

  /** `k` is the length of the longest index-ordered prefix of a chunk list. */
  ghost predicate IsOrderedPrefix(chunks: seq<ImageChunk>, count: nat, k: nat) {
    && k <= |chunks|
    && InOrder(chunks[..k], count)
    && (k < |chunks| ==> !InOrder(chunks[..k + 1], count))
  }

  lemma {:induction false} OrderedPrefixExists(chunks: seq<ImageChunk>, count: nat, n: nat)
    requires n <= |chunks| && (n < |chunks| ==> !InOrder(chunks[..n + 1], count))
    ensures exists k: nat :: IsOrderedPrefix(chunks, count, k)
    decreases n
  {
    if InOrder(chunks[..n], count) {
      assert IsOrderedPrefix(chunks, count, n);
    } else {
      OrderedPrefixExists(chunks, count, n - 1);
    }
  }

  ghost function OrderedPrefix(chunks: seq<ImageChunk>, count: nat): (k: nat)
    ensures IsOrderedPrefix(chunks, count, k)
  {
    OrderedPrefixExists(chunks, count, |chunks|);
    var k: nat :| IsOrderedPrefix(chunks, count, k);
    k
  }

  /** The chunks that decide the identity of `m`. */
  ghost function Listed(m: Manifest): (chunks: seq<ImageChunk>)
    ensures InOrder(chunks, ChunkCount(m.virtualSizeBytes))
  {
    m.chunks[..OrderedPrefix(m.chunks, ChunkCount(m.virtualSizeBytes))]
  }

  ghost function ListedAt(chunks: seq<ImageChunk>, index: nat): (r: Option<nat>)
    ensures r.Some? ==> r.value < |chunks| && chunks[r.value].index == index
    ensures r.None? ==> forall j :: 0 <= j < |chunks| ==> chunks[j].index != index
  {
    if exists j: nat :: j < |chunks| && chunks[j].index == index
    then (var j: nat :| j < |chunks| && chunks[j].index == index; Some(j))
    else None
  }

  /** Every chunk listed below `n` carries a well-formed digest. */
  ghost predicate DigestsReadable(chunks: seq<ImageChunk>, n: nat) {
    forall j :: 0 <= j < |chunks| && chunks[j].index < n ==> IsSha256Hex(chunks[j].rawSha256)
  }

  /** The dense meaning of a sparse list: the listed digest at `index`, else the
      digest of as many zero bytes as the chunk holds. */
  ghost function DenseDigest(chunks: seq<ImageChunk>, sha: Sha256, virtualSize: u64, index: u32): Digest
    requires DigestsReadable(chunks, index + 1)
  {
    match ListedAt(chunks, index)
    case Some(j) => Decoded(chunks[j].rawSha256)
    case None => sha(Zeros(RawSize(virtualSize, index)))
  }

  ghost function Record(chunks: seq<ImageChunk>, sha: Sha256, virtualSize: u64, index: u32): (s: seq<byte>)
    requires DigestsReadable(chunks, index + 1)
    ensures |s| == 40
  {
    LittleEndian(index, 4) + LittleEndian(RawSize(virtualSize, index), 4)
    + DenseDigest(chunks, sha, virtualSize, index)
  }

  ghost function Flatten(blocks: seq<seq<byte>>): seq<byte> {
    if blocks == [] then []
    else Flatten(blocks[..|blocks| - 1]) + blocks[|blocks| - 1]
  }

  /** The records of the first `n` indexes. */
  ghost function Records(chunks: seq<ImageChunk>, sha: Sha256, virtualSize: u64, n: nat): (s: seq<seq<byte>>)
    requires n <= U32_MAX
    requires DigestsReadable(chunks, n)
    ensures |s| == n
  {
    seq(n, i requires 0 <= i < n => Record(chunks, sha, virtualSize, i))
  }

  function Header(m: Manifest): (s: seq<byte>)
    ensures |s| == |MAGIC| + 12
  {
    MAGIC + LittleEndian(m.virtualSizeBytes, 8) + LittleEndian(m.chunkSizeBytes, 4)
  }

  /** Everything the hasher is fed for a manifest. */
  ghost function Preimage(m: Manifest, sha: Sha256): seq<byte>
    requires DigestsReadable(Listed(m), ChunkCount(m.virtualSizeBytes))
  {
    Header(m) + Flatten(Records(Listed(m), sha, m.virtualSizeBytes, ChunkCount(m.virtualSizeBytes)))
  }

  ghost function IdentityOf(m: Manifest, sha: Sha256): Result<string, ManifestError> {
    if DigestsReadable(Listed(m), ChunkCount(m.virtualSizeBytes))
    then Ok(HexDigest(sha(Preimage(m, sha))))
    else Err(InvalidChunkDigest)
  }

  /** Where the peekable iterator stands before `index`: it has passed exactly the
      listed chunks below `index`, and all of those were readable. */
  ghost predicate IteratorAt(chunks: seq<ImageChunk>, next: nat, index: nat) {
    && next <= |chunks|
    && (forall j :: 0 <= j < next ==> chunks[j].index < index)
    && (forall j :: next <= j < |chunks| ==> index <= chunks[j].index)
    && DigestsReadable(chunks, index)
  }

  lemma IteratorIsExhausted(chunks: seq<ImageChunk>, next: nat, count: nat)
    requires InOrder(chunks, count) && IteratorAt(chunks, next, count)
    ensures next == |chunks|
  {
    assert |chunks| > 0 ==> chunks[|chunks| - 1].index < count;
  }

  /** The digest of one index: the listed chunk if the iterator peeks at it, else zeros. */
  method DigestOfIndex(m: Manifest, cache: ZeroChunkCache, next: nat, index: u32)
    returns (digest: Result<Digest, ManifestError>, advanced: nat)
    requires cache.Valid() && index < ChunkCount(m.virtualSizeBytes)
    requires IteratorAt(Listed(m), next, index)
    modifies cache
    ensures cache.Valid()
    ensures digest.Ok? <==> DigestsReadable(Listed(m), index + 1)
    ensures digest.Ok? ==> IteratorAt(Listed(m), advanced, index + 1)
    ensures digest.Ok? ==> digest.value == DenseDigest(Listed(m), cache.sha, m.virtualSizeBytes, index)
    ensures digest.Err? ==> digest.error == InvalidChunkDigest
  {
    PeekFindsTheListedChunk(m, Listed(m), next, index);
    if next < |m.chunks| && m.chunks[next].index == index {
      assert m.chunks[next] == Listed(m)[next];
      digest := DecodeSha256(m.chunks[next].rawSha256);
      advanced := next + 1;
    } else {
      var zero := cache.Digest(RawSize(m.virtualSizeBytes, index));
      digest, advanced := Ok(zero), next;
    }
  }

  /** The loop of `compute_image_id`: one pass over the indexes with a peekable
      iterator over the sparse list, collecting what the hasher is fed. */
  method HashInput(m: Manifest, cache: ZeroChunkCache) returns (hashed: seq<byte>, readable: bool, consumed: nat)
    requires cache.Valid()
    modifies cache
    ensures cache.Valid()
    ensures readable <==> DigestsReadable(Listed(m), ChunkCount(m.virtualSizeBytes))
    ensures readable ==> hashed == Preimage(m, cache.sha)
    ensures readable ==> consumed == |Listed(m)|
    ensures readable && InOrder(m.chunks, ChunkCount(m.virtualSizeBytes)) ==> consumed == |m.chunks|
  {
    var count := ChunkCount(m.virtualSizeBytes);
    var next := 0;
    var index := 0;
    hashed := Header(m);
    assert hashed == Header(m) + Flatten(Records(Listed(m), cache.sha, m.virtualSizeBytes, 0));
    while index < count
      invariant cache.Valid()
      invariant 0 <= index <= count
      invariant IteratorAt(Listed(m), next, index)
      invariant hashed == Header(m) + Flatten(Records(Listed(m), cache.sha, m.virtualSizeBytes, index))
    {
      var digest, advanced := DigestOfIndex(m, cache, next, index);
      if digest.Err? {
        return hashed, false, next;
      }
      next := advanced;
      var raw := RawSize(m.virtualSizeBytes, index);
      var record := LittleEndian(index, 4) + LittleEndian(raw, 4) + digest.value;
      NextRecord(Listed(m), cache.sha, m.virtualSizeBytes, index);
      Associative(Header(m), Flatten(Records(Listed(m), cache.sha, m.virtualSizeBytes, index)), record);
      hashed := hashed + record;
      index := index + 1;
    }
    readable, consumed := true, next;
    IteratorIsExhausted(Listed(m), next, count);
    if InOrder(m.chunks, count) { OrderedListIsListed(m); }
  }

  /** `compute_image_id`.  For every chunk list, ordered or not, it hashes exactly the
      dense sequence of the longest index-ordered prefix. */
  method ComputeImageId(m: Manifest, cache: ZeroChunkCache) returns (r: Result<string, ManifestError>)
    requires cache.Valid()
    modifies cache
    ensures cache.Valid()
    ensures r == IdentityOf(m, cache.sha)
  {
    var hashed, readable, _ := HashInput(m, cache);
    r := if readable then Ok(HexDigest(cache.sha(hashed))) else Err(InvalidChunkDigest);
  }

  lemma NextRecord(chunks: seq<ImageChunk>, sha: Sha256, virtualSize: u64, index: u32)
    requires index < U32_MAX && DigestsReadable(chunks, index + 1)
    ensures Flatten(Records(chunks, sha, virtualSize, index + 1))
            == Flatten(Records(chunks, sha, virtualSize, index)) + Record(chunks, sha, virtualSize, index)
  {
    var longer := Records(chunks, sha, virtualSize, index + 1);
    assert longer[..index] == Records(chunks, sha, virtualSize, index);
  }

  lemma Associative(a: seq<byte>, b: seq<byte>, c: seq<byte>)
    ensures a + b + c == a + (b + c)
  {
  }

  /** The chunk behind the longest ordered prefix repeats or precedes an index of it,
      or is out of range. */
  lemma OrderedChunkWouldExtend(chunks: seq<ImageChunk>, k: nat, count: nat)
    requires k < |chunks| && InOrder(chunks[..k], count) && !InOrder(chunks[..k + 1], count)
    ensures chunks[k].index >= count || (k > 0 && chunks[k].index <= chunks[k - 1].index)
  {
    if chunks[k].index < count && (k > 0 ==> chunks[k - 1].index < chunks[k].index) {
      InOrderExtends(chunks, k, count);
    }
  }

  /** What `peek` sees at `index` is the listed chunk of that index, if there is one. */
  lemma PeekFindsTheListedChunk(m: Manifest, listed: seq<ImageChunk>, next: nat, index: u32)
    requires listed == Listed(m) && index < ChunkCount(m.virtualSizeBytes)
    requires IteratorAt(listed, next, index)
    ensures |listed| <= |m.chunks| && listed == m.chunks[..|listed|]
    ensures next < |m.chunks| && m.chunks[next].index == index
            <==> ListedAt(listed, index) == Some(next)
    ensures ListedAt(listed, index) == Some(next) || ListedAt(listed, index) == None
  {
    if next == |listed| < |m.chunks| {
      OrderedChunkWouldExtend(m.chunks, next, ChunkCount(m.virtualSizeBytes));
    }
    if next < |listed| && listed[next].index == index {
      var found := ListedAt(listed, index).value;
      assert found == next;
    }
  }

  /** An ordered list is its own longest ordered prefix. */
  lemma OrderedListIsListed(m: Manifest)
    requires InOrder(m.chunks, ChunkCount(m.virtualSizeBytes))
    ensures Listed(m) == m.chunks
  {
  }

  /** A chunk behind an out-of-order one is silently ignored by the identity. */
  lemma IdentityIgnoresTheDisorderedTail(m: Manifest, sha: Sha256)
    ensures IdentityOf(m, sha) == IdentityOf(m.(chunks := Listed(m)), sha)
  {
    OrderedListIsListed(m.(chunks := Listed(m)));
  }

  // -------------------------------------------------------------- validation

  predicate ChunkShapeValid(m: Manifest, chunk: ImageChunk) {
    && chunk.index < ChunkCount(m.virtualSizeBytes)
    && chunk.rawSizeBytes == RawSize(m.virtualSizeBytes, chunk.index)
    && 0 < chunk.encodedSizeBytes <= CHUNK_SIZE * 2
    && IsSha256Hex(chunk.rawSha256)
    && IsSha256Hex(chunk.encodedSha256)
  }

  ghost predicate WellShaped(m: Manifest) {
    && m.schemaVersion == SCHEMA_VERSION
    && m.chunkSizeBytes == CHUNK_SIZE
    && m.encoding == CHUNK_ENCODING
    && 0 < m.virtualSizeBytes <= MAX_IMAGE_BYTES
    && InOrder(m.chunks, ChunkCount(m.virtualSizeBytes))
    && forall i :: 0 <= i < |m.chunks| ==> ChunkShapeValid(m, m.chunks[i])
  }

  /** What an accepted manifest promises. */
  ghost predicate ValidManifest(m: Manifest, sha: Sha256) {
    WellShaped(m) && IdentityOf(m, sha) == Ok(m.imageId)
  }

  function HeaderError(m: Manifest): Option<ManifestError> {
    if m.schemaVersion != SCHEMA_VERSION then Some(UnsupportedSchema)
    else if m.chunkSizeBytes != CHUNK_SIZE then Some(UnsupportedChunkSize)
    else if m.encoding != CHUNK_ENCODING then Some(UnsupportedEncoding)
    else if m.virtualSizeBytes == 0 || m.virtualSizeBytes > MAX_IMAGE_BYTES then Some(InvalidVirtualSize)
    else if !IsSha256Hex(m.imageId) then Some(InvalidImageId)
    else None
  }

  /** The error of chunk `i`, given that the chunks before it are in order. */
  function ChunkError(m: Manifest, i: nat): Option<ManifestError>
    requires i < |m.chunks|
  {
    var chunk := m.chunks[i];
    if chunk.index >= ChunkCount(m.virtualSizeBytes) || (i > 0 && chunk.index <= m.chunks[i - 1].index) then
      Some(InvalidChunkIndex)
    else if chunk.rawSizeBytes != RawSize(m.virtualSizeBytes, chunk.index) then Some(InvalidChunkRawSize)
    else if chunk.encodedSizeBytes == 0 || chunk.encodedSizeBytes > CHUNK_SIZE * 2 then
      Some(InvalidChunkEncodedSize)
    else if !IsSha256Hex(chunk.rawSha256) || !IsSha256Hex(chunk.encodedSha256) then Some(InvalidChunkDigest)
    else None
  }

  /** No error among the first `n` chunks. */
  predicate ChunksPass(m: Manifest, n: nat)
    requires n <= |m.chunks|
  {
    forall j: nat :: j < n ==> ChunkError(m, j).None?
  }

  /** The chunk loop of `validate`, which remembers the previous index. */
  method CheckChunks(m: Manifest) returns (error: Option<ManifestError>)
    ensures error.None? <==> ChunksPass(m, |m.chunks|)
    ensures error.Some? ==> exists i: nat :: i < |m.chunks| && ChunksPass(m, i) && ChunkError(m, i) == error
  {
    var count := ChunkCount(m.virtualSizeBytes);
    var previous: Option<u32> := None;
    var i := 0;
    while i < |m.chunks|
      invariant 0 <= i <= |m.chunks|
      invariant previous == if i == 0 then None else Some(m.chunks[i - 1].index)
      invariant ChunksPass(m, i)
    {
      var chunk := m.chunks[i];
      error := None;
      if chunk.index >= count || (previous.Some? && chunk.index <= previous.value) {
        error := Some(InvalidChunkIndex);
      } else if chunk.rawSizeBytes != RawSize(m.virtualSizeBytes, chunk.index) {
        error := Some(InvalidChunkRawSize);
      } else if chunk.encodedSizeBytes == 0 || chunk.encodedSizeBytes > CHUNK_SIZE * 2 {
        error := Some(InvalidChunkEncodedSize);
      } else if !IsSha256Hex(chunk.rawSha256) || !IsSha256Hex(chunk.encodedSha256) {
        error := Some(InvalidChunkDigest);
      }
      assert error == ChunkError(m, i);
      if error.Some? {
        return;
      }
      previous := Some(chunk.index);
      i := i + 1;
    }
    error := None;
  }

  /** Comparing each index with the previous one orders the whole list. */
  lemma {:induction false} PassingChunksAreOrdered(m: Manifest, n: nat)
    requires n <= |m.chunks|
    ensures ChunksPass(m, n) <==>
            && InOrder(m.chunks[..n], ChunkCount(m.virtualSizeBytes))
            && forall i :: 0 <= i < n ==> ChunkShapeValid(m, m.chunks[i])
    decreases n
  {
    if n > 0 {
      PassingChunksAreOrdered(m, n - 1);
      LastChunkPasses(m, n - 1);
    }
  }

  lemma LastChunkPasses(m: Manifest, n: nat)
    requires n < |m.chunks|
    ensures ChunkError(m, n).None? && InOrder(m.chunks[..n], ChunkCount(m.virtualSizeBytes))
            <==> ChunkShapeValid(m, m.chunks[n]) && InOrder(m.chunks[..n + 1], ChunkCount(m.virtualSizeBytes))
  {
    var count := ChunkCount(m.virtualSizeBytes);
    if ChunkError(m, n).None? && InOrder(m.chunks[..n], count) {
      InOrderExtends(m.chunks, n, count);
    }
    if InOrder(m.chunks[..n + 1], count) {
      InOrderShrinks(m.chunks, n, count);
    }
  }

  lemma InOrderShrinks(chunks: seq<ImageChunk>, n: nat, count: nat)
    requires n < |chunks| && InOrder(chunks[..n + 1], count)
    ensures InOrder(chunks[..n], count) && chunks[n].index < count
    ensures n > 0 ==> chunks[n - 1].index < chunks[n].index
  {
    var longer := chunks[..n + 1];
    assert longer[..n] == chunks[..n] && longer[n] == chunks[n];
    if n > 0 { assert longer[n - 1] == chunks[n - 1]; }
  }

  /** `validate`.  It accepts exactly the valid manifests, and an error names the
      first failing check: the header in order, then the first bad chunk, then the
      identity. */
  method Validate(m: Manifest, cache: ZeroChunkCache) returns (error: Option<ManifestError>)
    requires cache.Valid()
    modifies cache
    ensures cache.Valid()
    ensures error.None? <==> ValidManifest(m, cache.sha)
    ensures HeaderError(m).Some? ==> error == HeaderError(m)
    ensures HeaderError(m).None? && error.Some? ==>
              || (exists i: nat :: i < |m.chunks| && ChunksPass(m, i) && ChunkError(m, i) == error)
              || (error == Some(InvalidImageId) && ChunksPass(m, |m.chunks|))
  {
    PassingChunksAreOrdered(m, |m.chunks|);
    assert m.chunks[..|m.chunks|] == m.chunks;
    ReadableIdentity(m, cache.sha);
    error := HeaderError(m);
    if error.Some? {
      return;
    }
    error := CheckChunks(m);
    if error.Some? {
      return;
    }
    var id := ComputeImageId(m, cache);
    error := if id == Ok(m.imageId) then None else Some(InvalidImageId);
  }

  /** Every well-shaped manifest has exactly one image ID that makes it valid. */
  lemma OneValidId(m: Manifest, sha: Sha256, id: string)
    requires WellShaped(m)
    ensures IdentityOf(m, sha).Ok? && (ValidManifest(m.(imageId := id), sha) <==> Ok(id) == IdentityOf(m, sha))
  {
    OrderedListIsListed(m);
    OrderedListIsListed(m.(imageId := id));
    assert DigestsReadable(m.chunks, ChunkCount(m.virtualSizeBytes));
    assert Header(m.(imageId := id)) == Header(m);
  }

  lemma ReadableIdentity(m: Manifest, sha: Sha256)
    ensures IdentityOf(m, sha).Ok? ==> IsSha256Hex(IdentityOf(m, sha).value)
  {
    if IdentityOf(m, sha).Ok? {
      EncodeThenDecode(sha(Preimage(m, sha)));
    }
  }

  lemma InOrderExtends(chunks: seq<ImageChunk>, i: nat, count: nat)
    requires i < |chunks| && InOrder(chunks[..i], count)
    requires chunks[i].index < count && (i > 0 ==> chunks[i - 1].index < chunks[i].index)
    ensures InOrder(chunks[..i + 1], count)
  {
    var longer := chunks[..i + 1];
    forall a, b | 0 <= a < b < |longer| ensures longer[a].index < longer[b].index {
      assert longer[a] == chunks[..i][a];
      if b < i { assert longer[b] == chunks[..i][b]; } else if a < i - 1 { assert chunks[..i][i - 1] == chunks[i - 1]; }
    }
  }

  // ------------------------------------------- identity and content determine each other

  /** The dense digest of a valid manifest at `index`. */
  ghost function Content(m: Manifest, sha: Sha256, index: u32): Digest
    requires ValidManifest(m, sha) && index < ChunkCount(m.virtualSizeBytes)
  {
    DenseDigest(m.chunks, sha, m.virtualSizeBytes, index)
  }

  ghost function ContentRecords(m: Manifest, sha: Sha256): (s: seq<seq<byte>>)
    requires ValidManifest(m, sha)
    ensures |s| == ChunkCount(m.virtualSizeBytes)
    ensures forall i :: 0 <= i < |s| ==> |s[i]| == 40
  {
    Records(m.chunks, sha, m.virtualSizeBytes, ChunkCount(m.virtualSizeBytes))
  }

  /** Two manifests describe one image: same size, same digest at every index. */
  ghost predicate SameImage(a: Manifest, b: Manifest, sha: Sha256)
    requires ValidManifest(a, sha) && ValidManifest(b, sha)
  {
    && a.virtualSizeBytes == b.virtualSizeBytes
    && forall i: u32 :: i < ChunkCount(a.virtualSizeBytes) ==> Content(a, sha, i) == Content(b, sha, i)
  }

  lemma ConcatenationSplits(x: seq<byte>, y: seq<byte>, x': seq<byte>, y': seq<byte>)
    requires x + y == x' + y' && |x| == |x'|
    ensures x == x' && y == y'
  {
    assert x == (x + y)[..|x|] && y == (x + y)[|x|..];
    assert x' == (x' + y')[..|x|] && y' == (x' + y')[|x|..];
  }

  /** Fixed-width records can be taken apart again. */
  lemma {:induction false} FlattenIsInjective(xs: seq<seq<byte>>, ys: seq<seq<byte>>)
    requires |xs| == |ys| && Flatten(xs) == Flatten(ys)
    requires forall i :: 0 <= i < |xs| ==> |xs[i]| == 40 && |ys[i]| == 40
    ensures xs == ys
    decreases |xs|
  {
    if xs != [] {
      var n := |xs| - 1;
      FlattenWidth(xs[..n]);
      FlattenWidth(ys[..n]);
      ConcatenationSplits(Flatten(xs[..n]), xs[n], Flatten(ys[..n]), ys[n]);
      FlattenIsInjective(xs[..n], ys[..n]);
      assert xs == xs[..n] + [xs[n]] && ys == ys[..n] + [ys[n]];
    }
  }

  lemma {:induction false} FlattenWidth(xs: seq<seq<byte>>)
    requires forall i :: 0 <= i < |xs| ==> |xs[i]| == 40
    ensures |Flatten(xs)| == 40 * |xs|
    decreases |xs|
  {
    if xs != [] {
      FlattenWidth(xs[..|xs| - 1]);
    }
  }

  /** A record gives its digest back. */
  lemma EqualRecordsEqualDigests(a: seq<ImageChunk>, b: seq<ImageChunk>, sha: Sha256, virtualSize: u64, index: u32)
    requires DigestsReadable(a, index + 1) && DigestsReadable(b, index + 1)
    requires Record(a, sha, virtualSize, index) == Record(b, sha, virtualSize, index)
    ensures DenseDigest(a, sha, virtualSize, index) == DenseDigest(b, sha, virtualSize, index)
  {
    var prefix := LittleEndian(index, 4) + LittleEndian(RawSize(virtualSize, index), 4);
    ConcatenationSplits(prefix, DenseDigest(a, sha, virtualSize, index),
                        prefix, DenseDigest(b, sha, virtualSize, index));
  }

  lemma EqualHeadersEqualSizes(a: Manifest, b: Manifest)
    requires Header(a) == Header(b)
    ensures a.virtualSizeBytes == b.virtualSizeBytes
  {
    var k := |MAGIC|;
    assert Header(a)[k .. k + 8] == LittleEndian(a.virtualSizeBytes, 8);
    assert Header(b)[k .. k + 8] == LittleEndian(b.virtualSizeBytes, 8);
    WidthBounds();
    LittleEndianRoundTrip(a.virtualSizeBytes, 8);
    LittleEndianRoundTrip(b.virtualSizeBytes, 8);
  }

  lemma ValidPreimage(m: Manifest, sha: Sha256)
    requires ValidManifest(m, sha)
    ensures Listed(m) == m.chunks && DigestsReadable(m.chunks, ChunkCount(m.virtualSizeBytes))
    ensures Preimage(m, sha) == Header(m) + Flatten(ContentRecords(m, sha))
    ensures m.imageId == HexDigest(sha(Preimage(m, sha)))
  {
    OrderedListIsListed(m);
  }

  lemma EqualPreimagesEqualRecords(a: Manifest, b: Manifest, sha: Sha256)
    requires ValidManifest(a, sha) && ValidManifest(b, sha)
    requires Header(a) + Flatten(ContentRecords(a, sha)) == Header(b) + Flatten(ContentRecords(b, sha))
    ensures a.virtualSizeBytes == b.virtualSizeBytes
    ensures ContentRecords(a, sha) == ContentRecords(b, sha)
  {
    ConcatenationSplits(Header(a), Flatten(ContentRecords(a, sha)), Header(b), Flatten(ContentRecords(b, sha)));
    EqualHeadersEqualSizes(a, b);
    FlattenIsInjective(ContentRecords(a, sha), ContentRecords(b, sha));
  }

  lemma EqualRecordsSameImage(a: Manifest, b: Manifest, sha: Sha256)
    requires ValidManifest(a, sha) && ValidManifest(b, sha) && a.virtualSizeBytes == b.virtualSizeBytes
    requires ContentRecords(a, sha) == ContentRecords(b, sha)
    ensures SameImage(a, b, sha)
  {
    forall i: u32 | i < ChunkCount(a.virtualSizeBytes) ensures Content(a, sha, i) == Content(b, sha, i) {
      assert ContentRecords(a, sha)[i] == ContentRecords(b, sha)[i];
      EqualRecordsEqualDigests(a.chunks, b.chunks, sha, a.virtualSizeBytes, i);
    }
  }

  lemma SameImageEqualRecords(a: Manifest, b: Manifest, sha: Sha256)
    requires ValidManifest(a, sha) && ValidManifest(b, sha) && SameImage(a, b, sha)
    ensures ContentRecords(a, sha) == ContentRecords(b, sha) && Header(a) == Header(b)
  {
    forall i: u32 | i < ChunkCount(a.virtualSizeBytes) ensures ContentRecords(a, sha)[i] == ContentRecords(b, sha)[i] {
      assert Content(a, sha, i) == Content(b, sha, i);
    }
  }

  /** The hashed bytes determine the image and are determined by it. */
  lemma PreimageDeterminesImage(a: Manifest, b: Manifest, sha: Sha256)
    requires ValidManifest(a, sha) && ValidManifest(b, sha)
    ensures DigestsReadable(Listed(a), ChunkCount(a.virtualSizeBytes))
    ensures DigestsReadable(Listed(b), ChunkCount(b.virtualSizeBytes))
    ensures Preimage(a, sha) == Preimage(b, sha) <==> SameImage(a, b, sha)
  {
    ValidPreimage(a, sha);
    ValidPreimage(b, sha);
    if Preimage(a, sha) == Preimage(b, sha) {
      EqualPreimagesEqualRecords(a, b, sha);
      EqualRecordsSameImage(a, b, sha);
    }
    if SameImage(a, b, sha) { SameImageEqualRecords(a, b, sha); }
  }

  /** How two listings of one image may differ at an index: the encoded fields, and
      whether a chunk equal to all zeros is spelled out or omitted. */
  ghost predicate ListingsAgree(a: Manifest, b: Manifest, sha: Sha256, index: u32) {
    var zero := sha(Zeros(RawSize(a.virtualSizeBytes, index)));
    match (ListedAt(a.chunks, index), ListedAt(b.chunks, index))
    case (None, None) => true
    case (Some(i), None) => a.chunks[i].rawSha256 == HexDigest(zero)
    case (None, Some(j)) => b.chunks[j].rawSha256 == HexDigest(zero)
    case (Some(i), Some(j)) =>
      && a.chunks[i].rawSha256 == b.chunks[j].rawSha256
      && a.chunks[i].rawSizeBytes == b.chunks[j].rawSizeBytes
  }

  lemma ListedDigest(m: Manifest, sha: Sha256, index: u32)
    requires ValidManifest(m, sha) && index < ChunkCount(m.virtualSizeBytes)
    ensures match ListedAt(m.chunks, index)
            case Some(i) => m.chunks[i].rawSha256 == HexDigest(Content(m, sha, index))
                            && m.chunks[i].rawSizeBytes == RawSize(m.virtualSizeBytes, index)
            case None => Content(m, sha, index) == sha(Zeros(RawSize(m.virtualSizeBytes, index)))
  {
    var found := ListedAt(m.chunks, index);
    if found.Some? {
      DecodeThenEncode(m.chunks[found.value].rawSha256);
    }
  }

  /** Image identity is exact up to SHA-256 collisions: manifests of one image share
      the identity, and manifests that share the identity without a collision describe
      one image and may differ only in the ways of `ListingsAgree`. */
  lemma IdentityIsExact(a: Manifest, b: Manifest, sha: Sha256)
    requires ValidManifest(a, sha) && ValidManifest(b, sha)
    ensures SameImage(a, b, sha) ==> a.imageId == b.imageId
    ensures a.imageId == b.imageId && !SameImage(a, b, sha) ==>
              exists x: seq<byte>, y: seq<byte> :: x != y && sha(x) == sha(y)
    ensures SameImage(a, b, sha) ==>
              forall i: u32 :: i < ChunkCount(a.virtualSizeBytes) ==> ListingsAgree(a, b, sha, i)
  {
    PreimageDeterminesImage(a, b, sha);
    ValidPreimage(a, sha);
    ValidPreimage(b, sha);
    if a.imageId == b.imageId && !SameImage(a, b, sha) {
      EncodeThenDecode(sha(Preimage(a, sha)));
      EncodeThenDecode(sha(Preimage(b, sha)));
      assert Preimage(a, sha) != Preimage(b, sha);
    }
    if SameImage(a, b, sha) {
      forall i: u32 | i < ChunkCount(a.virtualSizeBytes) ensures ListingsAgree(a, b, sha, i) {
        assert Content(a, sha, i) == Content(b, sha, i);
        ListedDigest(a, sha, i);
        ListedDigest(b, sha, i);
      }
    }
  }
}
