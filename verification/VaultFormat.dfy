/**
  The `*.vit` container of src/storage.rs as pure functions on its bytes: what the writer
  produces and what each reader makes of arbitrary bytes. The readers and the writer themselves
  are in VaultIo.
 */
module VaultFormat {
  import opened Basics
  import opened Crypto

  const MAGIC: Bytes := [0x56, 0x49, 0x54, 0x56, 0x30, 0x31, 0, 0]   // "VITV01\0\0"
  const HEADER: nat := 40
  const RECORD_HEAD: nat := 32 + 4   // plaintext hash, block length

  datatype Header = Header(uuid: Bytes16, count: u32, size: nat)

  /** The secrets and random draws that go into one container. */
  datatype Seal = Seal(key: Bytes32, uuid: Bytes16, nonces: nat -> Bytes12)

  // ── What the writer produces ────────────────────────────────────────────

  function HeaderBytes(uuid: Bytes16, count: nat, size: nat): (b: Bytes)
    ensures |b| == HEADER
  {
    MAGIC + uuid + Le(count, 4) + Le(size, 8) + Zeros(4)
  }

  function Block(P: Primitives, s: Seal, i: u32, chunk: Bytes): Bytes {
    Encrypt(P, s.key, s.nonces(i), chunk, VaultAad(s.uuid, i))
  }

  function Record(P: Primitives, s: Seal, i: u32, chunk: Bytes): Bytes {
    var block := Block(P, s, i, chunk);
    P.hash(chunk) + Le(|block|, 4) + block
  }

  /** The first `n` records. */
  function Records(P: Primitives, s: Seal, chunks: seq<Bytes>, n: nat): Bytes
    requires n <= |chunks| < U32
  {
    if n == 0 then [] else Records(P, s, chunks, n - 1) + Record(P, s, n - 1, chunks[n - 1])
  }

  /** The file as it stands after the header and `n` records have been written. */
  function Written(P: Primitives, s: Seal, chunks: seq<Bytes>, n: nat): Bytes
    requires n <= |chunks| < U32
  {
    HeaderBytes(s.uuid, |chunks|, TotalSize(chunks)) + Records(P, s, chunks, n)
  }

  function Container(P: Primitives, s: Seal, chunks: seq<Bytes>): Bytes
    requires |chunks| < U32
  {
    Written(P, s, chunks, |chunks|)
  }

  /** Where record `i` starts. */
  function Offset(P: Primitives, s: Seal, chunks: seq<Bytes>, i: nat): nat
    requires i <= |chunks| < U32
  {
    HEADER + |Records(P, s, chunks, i)|
  }

  /** Lengths and sizes that fit the fields the format has for them. */
  ghost predicate Fits(P: Primitives, s: Seal, chunks: seq<Bytes>) {
    && |chunks| < U32
    && TotalSize(chunks) < U64
    && forall i | 0 <= i < |chunks| :: |Block(P, s, i, chunks[i])| < U32
  }

  // ── What the readers make of any bytes ──────────────────────────────────

  function ReadHeader(data: Bytes): Result<Header> {
    if |data| < HEADER then Err(ShortRead)
    else if data[..8] != MAGIC then Err(BadMagic)
    else Ok(Header(data[8..24], FieldU32(data[24..28]), FromLe(data[28..36])))
  }

  /** A 4-byte field. */
  function FieldU32(b: Bytes): (n: u32)
    requires |b| == 4
  {
    assert FromLe(b) < U32 by { FromLeBound(b); }
    FromLe(b)
  }

  lemma FromLeBound(b: Bytes)
    requires |b| == 4
    ensures FromLe(b) < U32
  {
    assert FromLe(b) == b[0] + 256 * FromLe(b[1..]);
    assert FromLe(b[1..]) == b[1] + 256 * FromLe(b[2..]) by { assert b[1..][1..] == b[2..]; }
    assert FromLe(b[2..]) == b[2] + 256 * FromLe(b[3..]) by { assert b[2..][1..] == b[3..]; }
    assert FromLe(b[3..]) == b[3] by { assert b[3..][1..] == []; }
  }

  /** The block length announced by the record at `o`. */
  function BlockLen(data: Bytes, o: nat): u32
    requires o + RECORD_HEAD <= |data|
  {
    FieldU32(data[o + 32..o + 36])
  }

  /**
    Where record `i` starts when every earlier record is skipped by its announced length.
    Skipping is a seek, so it may leave the file without failing.
   */
  function Walk(data: Bytes, i: nat): Option<nat> {
    if i == 0 then Some(HEADER) else
    match Walk(data, i - 1)
    case None => None
    case Some(o) =>
      if o + RECORD_HEAD > |data| then None
      else Some(o + RECORD_HEAD + BlockLen(data, o))
  }

  /** The record heads that a walk reaches inside the file. */
  predicate HeadReadable(data: Bytes, i: nat) {
    Walk(data, i).Some? && Walk(data, i).value + RECORD_HEAD <= |data|
  }

  /** The plaintext hash at the front of record `i`. */
  function HeadHash(data: Bytes, i: nat): Bytes32
    requires HeadReadable(data, i)
  {
    data[Walk(data, i).value..Walk(data, i).value + 32]
  }

  /** Random access: decrypt record `i` as chunk `i` of the file named in the header. */
  function ChunkAt(P: Primitives, key: Bytes32, uuid: Bytes16, data: Bytes, i: u32): Result<Bytes> {
    match Walk(data, i)
    case None => Err(ShortRead)
    case Some(o) =>
      if o + RECORD_HEAD > |data| || o + RECORD_HEAD + BlockLen(data, o) > |data| then Err(ShortRead)
      else Decrypt(P, key, data[o + RECORD_HEAD..o + RECORD_HEAD + BlockLen(data, o)], VaultAad(uuid, i))
  }

  function ReadChunk(P: Primitives, key: Bytes32, data: Bytes, i: u32): Result<Bytes> {
    match ReadHeader(data)
    case Err(e) => Err(e)
    case Ok(h) => if i >= h.count then Err(OutOfRange) else ChunkAt(P, key, h.uuid, data, i)
  }

  /** The hashes of the first `n` records. */
  function HashesAt(data: Bytes, n: nat): Result<seq<Bytes32>> {
    if n == 0 then Ok([]) else
    match HashesAt(data, n - 1)
    case Err(e) => Err(e)
    case Ok(hs) =>
      if HeadReadable(data, n - 1) then Ok(hs + [HeadHash(data, n - 1)]) else Err(ShortRead)
  }

  function ChunksAt(P: Primitives, key: Bytes32, uuid: Bytes16, data: Bytes, n: nat): (rs: seq<Result<Bytes>>)
    requires n < U32
    ensures |rs| == n
  {
    seq(n, i requires 0 <= i < n => ChunkAt(P, key, uuid, data, i))
  }

  /** The first failure, or all results concatenated. */
  function Collect(rs: seq<Result<Bytes>>): Result<Bytes> {
    if rs == [] then Ok([]) else
    match Collect(rs[..|rs| - 1])
    case Err(e) => Err(e)
    case Ok(out) =>
      match rs[|rs| - 1]
      case Err(e) => Err(e)
      case Ok(plain) => Ok(out + plain)
  }

  /** The first `n` chunks, decrypted and concatenated. */
  function ExportAt(P: Primitives, key: Bytes32, uuid: Bytes16, data: Bytes, n: nat): Result<Bytes>
    requires n < U32
  {
    Collect(ChunksAt(P, key, uuid, data, n))
  }

  // ── The readers agree with each other on any bytes ──────────────────────

  lemma {:induction false} CollectAll(rs: seq<Result<Bytes>>)
    ensures Collect(rs).Ok? <==> forall i | 0 <= i < |rs| :: rs[i].Ok?
  {
    if rs == [] {
    } else {
      CollectAll(rs[..|rs| - 1]);
    }
  }

  lemma {:induction false} CollectConcatenates(rs: seq<Result<Bytes>>, cs: seq<Bytes>)
    requires |rs| == |cs| && forall i | 0 <= i < |rs| :: rs[i] == Ok(cs[i])
    ensures Collect(rs) == Ok(Concat(cs))
  {
    if rs == [] {
    } else {
      CollectConcatenates(rs[..|rs| - 1], cs[..|cs| - 1]);
    }
  }

  /** Export succeeds exactly when every random access does ... */
  lemma ExportNeedsEachChunk(P: Primitives, key: Bytes32, uuid: Bytes16, data: Bytes, n: nat)
    requires n < U32
    ensures ExportAt(P, key, uuid, data, n).Ok? <==> forall i: u32 | i < n :: ChunkAt(P, key, uuid, data, i).Ok?
  {
    var rs := ChunksAt(P, key, uuid, data, n);
    CollectAll(rs);
    if forall i | 0 <= i < n :: rs[i].Ok? {
      forall i: u32 | i < n ensures ChunkAt(P, key, uuid, data, i).Ok? {
        assert rs[i].Ok?;
      }
    }
  }

  /** ... and then it is the concatenation of what random access returns. */
  lemma ExportConcatenates(P: Primitives, key: Bytes32, uuid: Bytes16, data: Bytes, cs: seq<Bytes>)
    requires |cs| < U32
    requires forall i: u32 | i < |cs| :: ChunkAt(P, key, uuid, data, i) == Ok(cs[i])
    ensures ExportAt(P, key, uuid, data, |cs|) == Ok(Concat(cs))
  {
    CollectConcatenates(ChunksAt(P, key, uuid, data, |cs|), cs);
  }

  /** Listing the hashes needs every record head, but never a block. */
  lemma {:induction false} ListingNeedsHeadsOnly(data: Bytes, n: nat)
    ensures HashesAt(data, n).Ok? <==> forall i | 0 <= i < n :: HeadReadable(data, i)
  {
    if n == 0 {
    } else {
      ListingNeedsHeadsOnly(data, n - 1);
      assert HashesAt(data, n).Ok? <==> HashesAt(data, n - 1).Ok? && HeadReadable(data, n - 1);
    }
  }

  /**
    A header reads exactly when the file has one and it begins with the magic bytes, and then
    what is read is what the writer would have written there.
   */
  lemma ReadHeaderExactly(data: Bytes)
    ensures ReadHeader(data).Ok? <==> |data| >= HEADER && MAGIC <= data
    ensures ReadHeader(data).Ok? ==>
              var h := ReadHeader(data).value;
              && h.uuid == data[8..24] && h.count == FromLe(data[24..28]) && h.size == FromLe(data[28..36]) < U64
              && HeaderBytes(h.uuid, h.count, h.size)[..36] == data[..36]
  {
    BeginsWith(data, MAGIC);
    if ReadHeader(data).Ok? {
      var h := ReadHeader(data).value;
      LeOfFromLe(data[24..28]);
      LeOfFromLe(data[28..36]);
      Pow256Of4And8();
      assert data[..36] == data[..8] + data[8..24] + data[24..28] + data[28..36];
      HeaderFront(h.uuid, h.count, h.size);
      hide HeaderBytes, Le, FromLe;
    }
  }

  lemma BeginsWith(data: Bytes, front: Bytes)
    ensures |front| <= |data| ==> (front <= data <==> data[..|front|] == front)
  {
  }

  lemma HeaderFront(uuid: Bytes16, count: nat, size: nat)
    ensures HeaderBytes(uuid, count, size)[..36] == MAGIC + uuid + Le(count, 4) + Le(size, 8)
  {
  }

  // ── The writer's container, read back ───────────────────────────────────

  lemma HeaderRoundTrip(uuid: Bytes16, count: u32, size: nat, rest: Bytes)
    requires size < U64
    ensures ReadHeader(HeaderBytes(uuid, count, size) + rest) == Ok(Header(uuid, count, size))
  {
    var data := HeaderBytes(uuid, count, size) + rest;
    assert data[..8] == MAGIC;
    assert data[8..24] == uuid;
    assert data[24..28] == Le(count, 4);
    assert data[28..36] == Le(size, 8);
    LeExact(count);
    LeExact(size);
  }

  lemma {:induction false} RecordsGrow(P: Primitives, s: Seal, chunks: seq<Bytes>, i: nat, n: nat)
    requires i <= n <= |chunks| < U32
    ensures |Records(P, s, chunks, i)| <= |Records(P, s, chunks, n)|
    ensures Records(P, s, chunks, n)[..|Records(P, s, chunks, i)|] == Records(P, s, chunks, i)
  {
    if i == n {
    } else {
      RecordsGrow(P, s, chunks, i, n - 1);
      var r := Records(P, s, chunks, n - 1);
      assert Records(P, s, chunks, n)[..|r|] == r;
      SliceOfPrefix(r, Records(P, s, chunks, n), 0, |Records(P, s, chunks, i)|);
    }
  }

  /** Record `i` lies between its offset and the next. */
  lemma RecordInPlace(P: Primitives, s: Seal, chunks: seq<Bytes>, i: nat)
    requires i < |chunks| < U32
    ensures Offset(P, s, chunks, i + 1) == Offset(P, s, chunks, i) + |Record(P, s, i, chunks[i])|
    ensures Offset(P, s, chunks, i + 1) <= |Container(P, s, chunks)|
    ensures Container(P, s, chunks)[Offset(P, s, chunks, i)..Offset(P, s, chunks, i + 1)] == Record(P, s, i, chunks[i])
  {
    var data, r := Container(P, s, chunks), Records(P, s, chunks, i + 1);
    var front := HeaderBytes(s.uuid, |chunks|, TotalSize(chunks)) + r;
    RecordsGrow(P, s, chunks, i + 1, |chunks|);
    assert data[..|front|] == front;
    SliceOfPrefix(front, data, Offset(P, s, chunks, i), Offset(P, s, chunks, i + 1));
    assert front == HeaderBytes(s.uuid, |chunks|, TotalSize(chunks)) + Records(P, s, chunks, i)
        + Record(P, s, i, chunks[i]);
  }

  lemma SubSlice(data: Bytes, whole: Bytes, o: nat, rec: Bytes, a: nat, b: nat)
    requires data <= whole && o + |rec| <= |whole| && whole[o..o + |rec|] == rec
    requires a <= b <= |rec| && o + b <= |data|
    ensures data[o + a..o + b] == rec[a..b]
  {
    var lhs, rhs := data[o + a..o + b], rec[a..b];
    forall k | 0 <= k < b - a
      ensures lhs[k] == rhs[k]
    {
      assert lhs[k] == whole[o + a + k] == whole[o..o + |rec|][a + k] == rhs[k];
    }
  }

  // `data` below is a container that lost its tail: any prefix of what was written.

  /** A record whose head survived still shows its hash, ... */
  lemma RecordHash(P: Primitives, s: Seal, chunks: seq<Bytes>, data: Bytes, i: nat)
    requires i < |chunks| < U32 && data <= Container(P, s, chunks)
    requires Offset(P, s, chunks, i) + RECORD_HEAD <= |data|
    ensures data[Offset(P, s, chunks, i)..Offset(P, s, chunks, i) + 32] == P.hash(chunks[i])
  {
    var rec := Record(P, s, i, chunks[i]);
    RecordInPlace(P, s, chunks, i);
    SubSlice(data, Container(P, s, chunks), Offset(P, s, chunks, i), rec, 0, 32);
    assert rec[0..32] == P.hash(chunks[i]);
  }

  /** ... the length of its block, ... */
  lemma RecordLength(P: Primitives, s: Seal, chunks: seq<Bytes>, data: Bytes, i: nat)
    requires i < |chunks| && Fits(P, s, chunks) && data <= Container(P, s, chunks)
    requires Offset(P, s, chunks, i) + RECORD_HEAD <= |data|
    ensures Offset(P, s, chunks, i) + RECORD_HEAD + BlockLen(data, Offset(P, s, chunks, i))
        == Offset(P, s, chunks, i + 1)
  {
    var block, rec := Block(P, s, i, chunks[i]), Record(P, s, i, chunks[i]);
    RecordInPlace(P, s, chunks, i);
    SubSlice(data, Container(P, s, chunks), Offset(P, s, chunks, i), rec, 32, 36);
    assert rec[32..36] == Le(|block|, 4);
    LeExact(|block|);
  }

  /** ... and one that survived whole its block. */
  lemma RecordBlock(P: Primitives, s: Seal, chunks: seq<Bytes>, data: Bytes, i: nat)
    requires i < |chunks| < U32 && data <= Container(P, s, chunks)
    requires Offset(P, s, chunks, i + 1) <= |data|
    ensures Offset(P, s, chunks, i) + RECORD_HEAD <= Offset(P, s, chunks, i + 1)
    ensures data[Offset(P, s, chunks, i) + RECORD_HEAD..Offset(P, s, chunks, i + 1)] == Block(P, s, i, chunks[i])
  {
    var rec := Record(P, s, i, chunks[i]);
    RecordInPlace(P, s, chunks, i);
    SubSlice(data, Container(P, s, chunks), Offset(P, s, chunks, i), rec, 36, |rec|);
    assert rec[36..] == Block(P, s, i, chunks[i]);
  }

  /** The head of the record before lies before this one. */
  lemma HeadReached(P: Primitives, s: Seal, chunks: seq<Bytes>, i: nat)
    requires i < |chunks| < U32
    ensures i > 0 ==> Offset(P, s, chunks, i - 1) + RECORD_HEAD <= Offset(P, s, chunks, i)
  {
    if i > 0 {
      RecordInPlace(P, s, chunks, i - 1);
      assert |Record(P, s, i - 1, chunks[i - 1])| >= RECORD_HEAD;
    }
  }

  /** A table of record offsets that the announced lengths agree with, as far as heads survive. */
  ghost predicate Layout(data: Bytes, offs: seq<nat>) {
    && |offs| > 0 && offs[0] == HEADER
    && forall i | 0 <= i < |offs| - 1 ::
         && offs[i] + RECORD_HEAD <= offs[i + 1]
         && (offs[i] + RECORD_HEAD <= |data| ==> offs[i] + RECORD_HEAD + BlockLen(data, offs[i]) == offs[i + 1])
  }

  /** Record `i` is reached exactly when the head of the record before it survived. */
  lemma {:induction false} WalkOfLayout(data: Bytes, offs: seq<nat>, i: nat)
    requires Layout(data, offs) && i < |offs|
    ensures Walk(data, i) == if i == 0 || offs[i - 1] + RECORD_HEAD <= |data| then Some(offs[i]) else None
  {
    if i == 0 {
    } else {
      WalkOfLayout(data, offs, i - 1);
    }
  }

  lemma WalkOfTruncated(P: Primitives, s: Seal, chunks: seq<Bytes>, data: Bytes, i: nat)
    requires i <= |chunks| && Fits(P, s, chunks) && data <= Container(P, s, chunks)
    ensures Walk(data, i) ==
            if i == 0 || Offset(P, s, chunks, i - 1) + RECORD_HEAD <= |data| then Some(Offset(P, s, chunks, i))
                else None
  {
    var offs := seq<nat>(|chunks| + 1, j requires 0 <= j <= |chunks| => Offset(P, s, chunks, j));
    forall j | 0 <= j < |chunks|
      ensures offs[j] + RECORD_HEAD <= offs[j + 1]
      ensures offs[j] + RECORD_HEAD <= |data| ==> offs[j] + RECORD_HEAD + BlockLen(data, offs[j]) == offs[j + 1]
    {
      LayoutEntry(P, s, chunks, data, j);
    }
    WalkOfLayout(data, offs, i);
  }

  lemma LayoutEntry(P: Primitives, s: Seal, chunks: seq<Bytes>, data: Bytes, j: nat)
    requires j < |chunks| && Fits(P, s, chunks) && data <= Container(P, s, chunks)
    ensures var o, next := Offset(P, s, chunks, j), Offset(P, s, chunks, j + 1);
      && o + RECORD_HEAD <= next
      && (o + RECORD_HEAD <= |data| ==> o + RECORD_HEAD + BlockLen(data, o) == next)
  {
    RecordInPlace(P, s, chunks, j);
    assert |Record(P, s, j, chunks[j])| >= RECORD_HEAD;
    if Offset(P, s, chunks, j) + RECORD_HEAD <= |data| { RecordLength(P, s, chunks, data, j); }
  }

  /**
    A container cut off after any number of bytes yields chunk `i` exactly when record `i`
    survived whole, and then it is the chunk that was written.
   */
  lemma TruncatedChunk(P: Primitives, s: Seal, chunks: seq<Bytes>, data: Bytes, i: u32)
    requires SealsCorrectly(P) && Fits(P, s, chunks)
    requires data <= Container(P, s, chunks) && HEADER <= |data|
    ensures ReadChunk(P, s.key, data, i).Ok? <==> i < |chunks| && Offset(P, s, chunks, i + 1) <= |data|
    ensures ReadChunk(P, s.key, data, i).Ok? ==> ReadChunk(P, s.key, data, i) == Ok(chunks[i])
  {
    TruncatedHeader(P, s, chunks, data);
    if i < |chunks| {
      TruncatedChunkAt(P, s, chunks, data, i);
    }
  }

  lemma TruncatedChunkAt(P: Primitives, s: Seal, chunks: seq<Bytes>, data: Bytes, i: u32)
    requires SealsCorrectly(P) && Fits(P, s, chunks) && i < |chunks|
    requires data <= Container(P, s, chunks)
    ensures ChunkAt(P, s.key, s.uuid, data, i) ==
            if Offset(P, s, chunks, i + 1) <= |data| then Ok(chunks[i]) else Err(ShortRead)
  {
    var o, next, block := Offset(P, s, chunks, i), Offset(P, s, chunks, i + 1), Block(P, s, i, chunks[i]);
    WalkOfTruncated(P, s, chunks, data, i);
    HeadReached(P, s, chunks, i);
    RecordInPlace(P, s, chunks, i);
    if o + RECORD_HEAD <= |data| {
      RecordLength(P, s, chunks, data, i);
      if next <= |data| { RecordBlock(P, s, chunks, data, i); }
      ChunkAtCursor(P, s.key, s.uuid, data, i, o, next);
      DecryptEncrypt(P, s.key, s.nonces(i), chunks[i], VaultAad(s.uuid, i));
    }
  }

  lemma ChunkAtCursor(P: Primitives, key: Bytes32, uuid: Bytes16, data: Bytes, i: u32, o: nat, next: nat)
    requires Walk(data, i) == Some(o) && o + RECORD_HEAD <= |data| && next == o + RECORD_HEAD + BlockLen(data, o)
    ensures ChunkAt(P, key, uuid, data, i) ==
            if next <= |data| then Decrypt(P, key, data[o + RECORD_HEAD..next], VaultAad(uuid, i)) else Err(ShortRead)
  {
    hide Walk, BlockLen, Decrypt, VaultAad;
  }

  lemma PrefixSplits(front: Bytes, rest: Bytes, data: Bytes)
    requires data <= front + rest && |front| <= |data|
    ensures data == front + data[|front|..]
  {
    assert data[..|front|] == (front + rest)[..|front|] == front;
  }

  lemma TruncatedHeader(P: Primitives, s: Seal, chunks: seq<Bytes>, data: Bytes)
    requires Fits(P, s, chunks) && data <= Container(P, s, chunks) && HEADER <= |data|
    ensures ReadHeader(data) == Ok(Header(s.uuid, |chunks|, TotalSize(chunks)))
  {
    hide HeaderBytes, Records, Block, ReadHeader;
    var header := HeaderBytes(s.uuid, |chunks|, TotalSize(chunks));
    PrefixSplits(header, Records(P, s, chunks, |chunks|), data);
    HeaderRoundTrip(s.uuid, |chunks|, TotalSize(chunks), data[HEADER..]);
  }

  function HashesOf(P: Primitives, chunks: seq<Bytes>): (hs: seq<Bytes32>)
    ensures |hs| == |chunks|
  {
    seq<Bytes32>(|chunks|, i requires 0 <= i < |chunks| => P.hash(chunks[i]))
  }

  lemma HashesOfTake(P: Primitives, chunks: seq<Bytes>, k: nat)
    requires k < |chunks|
    ensures HashesOf(P, chunks[..k + 1]) == HashesOf(P, chunks[..k]) + [P.hash(chunks[k])]
  {
  }

  /**
    The hash listing does not notice a container that lost bytes of its last block: it
    succeeds exactly when the last record head survived.
   */
  lemma TruncatedListing(P: Primitives, s: Seal, chunks: seq<Bytes>, data: Bytes)
    requires Fits(P, s, chunks)
    requires data <= Container(P, s, chunks) && HEADER <= |data|
    ensures HashesAt(data, |chunks|) ==
            if chunks == [] || Offset(P, s, chunks, |chunks| - 1) + RECORD_HEAD <= |data|
            then Ok(HashesOf(P, chunks)) else Err(ShortRead)
  {
    assert chunks[..|chunks|] == chunks;
    TruncatedHashes(P, s, chunks, data, |chunks|);
  }

  lemma {:induction false} TruncatedHashes(P: Primitives, s: Seal, chunks: seq<Bytes>, data: Bytes, n: nat)
    requires Fits(P, s, chunks) && n <= |chunks|
    requires data <= Container(P, s, chunks)
    ensures HashesAt(data, n) ==
            if n == 0 || Offset(P, s, chunks, n - 1) + RECORD_HEAD <= |data|
            then Ok(HashesOf(P, chunks[..n])) else Err(ShortRead)
  {
    if n == 0 {
    } else {
      TruncatedHashes(P, s, chunks, data, n - 1);
      TruncatedHead(P, s, chunks, data, n - 1);
      HeadReached(P, s, chunks, n - 1);
      HashesOfTake(P, chunks, n - 1);
    }
  }

  lemma TruncatedHead(P: Primitives, s: Seal, chunks: seq<Bytes>, data: Bytes, i: nat)
    requires Fits(P, s, chunks) && i < |chunks|
    requires data <= Container(P, s, chunks)
    ensures HeadReadable(data, i) <==> Offset(P, s, chunks, i) + RECORD_HEAD <= |data|
    ensures HeadReadable(data, i) ==> HeadHash(data, i) == P.hash(chunks[i])
  {
    WalkOfTruncated(P, s, chunks, data, i);
    HeadReached(P, s, chunks, i);
    if Offset(P, s, chunks, i) + RECORD_HEAD <= |data| {
      RecordHash(P, s, chunks, data, i);
    }
  }

  /** Every block starts with the nonce drawn for it. */
  lemma BlockNonce(P: Primitives, s: Seal, chunks: seq<Bytes>, i: nat)
    requires SealsCorrectly(P) && i < |chunks| < U32
    ensures var o := Offset(P, s, chunks, i) + RECORD_HEAD;
      o + 12 <= |Container(P, s, chunks)| && Container(P, s, chunks)[o..o + 12] == s.nonces(i)
  {
    hide Container, Offset;
    var data, o, rec := Container(P, s, chunks), Offset(P, s, chunks, i), Record(P, s, i, chunks[i]);
    RecordInPlace(P, s, chunks, i);
    DecryptEncrypt(P, s.key, s.nonces(i), chunks[i], VaultAad(s.uuid, i));
    SubSlice(data, data, o, rec, RECORD_HEAD, RECORD_HEAD + 12);
    assert rec[RECORD_HEAD..] == Block(P, s, i, chunks[i]);
    assert rec[RECORD_HEAD..RECORD_HEAD + 12] == Block(P, s, i, chunks[i])[..12];
  }

  /** A walk over the whole container comes to it. */
  lemma NonceReached(P: Primitives, s: Seal, chunks: seq<Bytes>, i: nat)
    requires SealsCorrectly(P) && Fits(P, s, chunks) && i < |chunks|
    ensures NonceAt(Container(P, s, chunks), i) == Some(s.nonces(i))
  {
    hide Container, Walk, Offset, Block;
    var data := Container(P, s, chunks);
    assert data <= data;
    WalkOfTruncated(P, s, chunks, data, i);
    if i > 0 { RecordInPlace(P, s, chunks, i - 1); }
    HeadReached(P, s, chunks, i);
    BlockNonce(P, s, chunks, i);
  }

  /** The nonce at the front of the block of record `i`. */
  function NonceAt(data: Bytes, i: nat): Option<Bytes> {
    match Walk(data, i)
    case None => None
    case Some(o) => if o + RECORD_HEAD + 12 <= |data| then Some(data[o + RECORD_HEAD..o + RECORD_HEAD + 12]) else None
  }

  /** Every reader recovers what was written. */
  lemma RoundTrip(P: Primitives, s: Seal, chunks: seq<Bytes>)
    requires SealsCorrectly(P) && Fits(P, s, chunks)
    ensures ReadHeader(Container(P, s, chunks)) == Ok(Header(s.uuid, |chunks|, TotalSize(chunks)))
    ensures HashesAt(Container(P, s, chunks), |chunks|) == Ok(HashesOf(P, chunks))
    ensures forall i: u32 | i < |chunks| :: ReadChunk(P, s.key, Container(P, s, chunks), i) == Ok(chunks[i])
    ensures ExportAt(P, s.key, s.uuid, Container(P, s, chunks), |chunks|) == Ok(Concat(chunks))
  {
    var data := Container(P, s, chunks);
    TruncatedHeader(P, s, chunks, data);
    if |chunks| > 0 {
      RecordInPlace(P, s, chunks, |chunks| - 1);
      assert |Record(P, s, |chunks| - 1, chunks[|chunks| - 1])| >= RECORD_HEAD;
    }
    TruncatedListing(P, s, chunks, data);
    forall i: u32 | i < |chunks|
      ensures ReadChunk(P, s.key, data, i) == ChunkAt(P, s.key, s.uuid, data, i) == Ok(chunks[i])
    {
      RecordInPlace(P, s, chunks, i);
      TruncatedChunkAt(P, s, chunks, data, i);
    }
    ExportConcatenates(P, s.key, s.uuid, data, chunks);
  }
}
