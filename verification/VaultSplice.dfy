/**
  Containers that are not what was written: truncated, with records left out, repeated, permuted
  or taken from other containers under the same key, and with any header. Which chunks such a
  file yields, and how much of a file its export delivers.
 */
module VaultSplice {
  import opened Basics
  import opened Crypto
  import opened Paths
  import opened VaultFormat
  import opened VaultIo

  // ── What has been written under one vault key ───────────────────────────

  /** One container: the nonces drawn for it and its chunks. */
  datatype AtRest = AtRest(nonces: nat -> Bytes12, chunks: seq<Bytes>)

  /** The containers by their ids. */
  type Store = map<Bytes16, AtRest>

  /** One record of one container. */
  datatype Pick = Pick(uuid: Bytes16, index: u32)

  predicate Held(store: Store, q: Pick) {
    q.uuid in store && q.index < |store[q.uuid].chunks|
  }

  function SealOf(key: Bytes32, u: Bytes16, v: AtRest): Seal {
    Seal(key, u, v.nonces)
  }

  ghost predicate AllFit(P: Primitives, key: Bytes32, store: Store) {
    forall u | u in store :: Fits(P, SealOf(key, u, store[u]), store[u].chunks)
  }

  function ChunkOf(store: Store, q: Pick): Bytes
    requires Held(store, q)
  {
    store[q.uuid].chunks[q.index]
  }

  function BlockOf(P: Primitives, key: Bytes32, store: Store, q: Pick): Bytes
    requires Held(store, q)
  {
    Block(P, SealOf(key, q.uuid, store[q.uuid]), q.index, ChunkOf(store, q))
  }

  function RecordOf(P: Primitives, key: Bytes32, store: Store, q: Pick): Bytes
    requires Held(store, q)
  {
    Record(P, SealOf(key, q.uuid, store[q.uuid]), q.index, ChunkOf(store, q))
  }

  /** No block that was written opens as chunk of file `u`, except as the chunk it is. */
  ghost predicate Binds(P: Primitives, key: Bytes32, store: Store, u: Bytes16) {
    forall q: Pick, i: u32 ::
      Held(store, q) && Decrypt(P, key, BlockOf(P, key, store, q), VaultAad(u, i)).Ok? ==> q == Pick(u, i)
  }

  // ── Any bytes ───────────────────────────────────────────────────────────

  /** The whole block that a walk over `data` reaches at record `i`. */
  predicate Reaches(data: Bytes, i: u32, block: Bytes) {
    && HeadReadable(data, i)
    && var o := Walk(data, i).value;
    && o + RECORD_HEAD + BlockLen(data, o) <= |data|
    && block == data[o + RECORD_HEAD..o + RECORD_HEAD + BlockLen(data, o)]
  }

  /** Of the blocks in `data`, only those open that were written. */
  ghost predicate Unforged(P: Primitives, key: Bytes32, store: Store, u: Bytes16, data: Bytes) {
    forall i: u32, block: Bytes | Reaches(data, i, block) && Decrypt(P, key, block, VaultAad(u, i)).Ok? ::
      exists q :: Held(store, q) && block == BlockOf(P, key, store, q)
  }

  /** Whatever the bytes are, a chunk that reads is that chunk of the file the header names. */
  lemma DamagedChunkIsGenuine(P: Primitives, key: Bytes32, store: Store, data: Bytes, i: u32)
    requires SealsCorrectly(P) && ReadChunk(P, key, data, i).Ok?
    requires Binds(P, key, store, ReadHeader(data).value.uuid) && Unforged(P, key, store, ReadHeader(data).value.uuid,
        data)
    ensures var q := Pick(ReadHeader(data).value.uuid, i);
      Held(store, q) && ReadChunk(P, key, data, i) == Ok(ChunkOf(store, q))
  {
    var uuid, o := ReadHeader(data).value.uuid, Walk(data, i).value;
    var block := data[o + RECORD_HEAD..o + RECORD_HEAD + BlockLen(data, o)];
    assert Reaches(data, i, block);
    assert Decrypt(P, key, block, VaultAad(uuid, i)).Ok?;
    var q :| Held(store, q) && block == BlockOf(P, key, store, q);
    assert q == Pick(uuid, i);
    DecryptEncrypt(P, key, store[uuid].nonces(i), ChunkOf(store, q), VaultAad(uuid, i));
  }

  /**
    Whatever the bytes are, a successful export delivers a whole number of leading chunks of the
    named file. How many, the unauthenticated header decides; it is the whole file exactly when
    nothing but empty chunks is left.
   */
  lemma DamagedExportIsPrefix(P: Primitives, key: Bytes32, store: Store, data: Bytes)
    requires SealsCorrectly(P) && ReadHeader(data).Ok?
    requires var h := ReadHeader(data).value;
      && Binds(P, key, store, h.uuid) && Unforged(P, key, store, h.uuid, data)
      && ExportAt(P, key, h.uuid, data, h.count).Ok?
    ensures var h := ReadHeader(data).value;
      && (h.uuid !in store ==> h.count == 0)
      && (h.uuid in store ==>
            var chunks := store[h.uuid].chunks;
            && h.count <= |chunks|
            && ExportAt(P, key, h.uuid, data, h.count) == Ok(Concat(chunks[..h.count]))
            && (ExportAt(P, key, h.uuid, data, h.count) == Ok(Concat(chunks))
                <==> forall i | h.count <= i < |chunks| :: chunks[i] == []))
  {
    var h := ReadHeader(data).value;
    ExportNeedsEachChunk(P, key, h.uuid, data, h.count);
    forall i: u32 | i < h.count
      ensures Held(store, Pick(h.uuid, i)) && ChunkAt(P, key, h.uuid, data, i) == Ok(store[h.uuid].chunks[i])
    {
      assert ReadChunk(P, key, data, i).Ok?;
      DamagedChunkIsGenuine(P, key, store, data, i);
    }
    if h.count > 0 {
      var last: u32 := h.count - 1;
      assert Held(store, Pick(h.uuid, last));
    }
    if h.uuid in store {
      ExportConcatenates(P, key, h.uuid, data, store[h.uuid].chunks[..h.count]);
      WholeExactly(store[h.uuid].chunks, h.count);
    }
  }

  /** The first `n` chunks are all there is exactly when the others are empty. */
  lemma {:induction false} WholeExactly(chunks: seq<Bytes>, n: nat)
    requires n <= |chunks|
    ensures |Concat(chunks[..n])| <= |Concat(chunks)|
    ensures Concat(chunks[..n]) == Concat(chunks) <==> forall i | n <= i < |chunks| :: chunks[i] == []
  {
    if n == |chunks| {
      assert chunks[..n] == chunks;
    } else {
      var front, last := chunks[..|chunks| - 1], chunks[|chunks| - 1];
      WholeExactly(front, n);
      assert front[..n] == chunks[..n];
      assert Concat(chunks) == Concat(front) + last;
      assert forall i | n <= i < |front| :: front[i] == chunks[i];
      if last == [] {
        assert Concat(front) + last == Concat(front);
      } else {
        assert |Concat(chunks)| > |Concat(chunks[..n])|;
      }
    }
  }

  // ── Records put together ────────────────────────────────────────────────

  /** The records picked, in this order. */
  function Gathered(P: Primitives, key: Bytes32, store: Store, picks: seq<Pick>): (recs: seq<Bytes>)
    requires forall q | q in picks :: Held(store, q)
    ensures |recs| == |picks|
  {
    seq(|picks|, i requires 0 <= i < |picks| => RecordOf(P, key, store, picks[i]))
  }

  /** Any header, and then the records picked. */
  function Spliced(P: Primitives, key: Bytes32, store: Store, h: Header, picks: seq<Pick>): Bytes
    requires forall q | q in picks :: Held(store, q)
  {
    HeaderBytes(h.uuid, h.count, h.size) + Concat(Gathered(P, key, store, picks))
  }

  /** Where the `n`-th record ends. */
  function End(P: Primitives, key: Bytes32, store: Store, picks: seq<Pick>, n: nat): nat
    requires n <= |picks| && forall q | q in picks :: Held(store, q)
  {
    HEADER + TotalSize(Gathered(P, key, store, picks)[..n])
  }

  lemma {:induction false} ConcatOfTake(cs: seq<Bytes>, n: nat)
    requires n <= |cs|
    ensures Concat(cs[..n]) <= Concat(cs)
  {
    if n == |cs| {
      assert cs[..n] == cs;
    } else {
      ConcatOfTake(cs[..|cs| - 1], n);
      assert cs[..|cs| - 1][..n] == cs[..n];
    }
  }

  /** Record `i` stands between the end of the one before and its own end. */
  lemma PickInPlace(P: Primitives, key: Bytes32, store: Store, h: Header, picks: seq<Pick>, i: nat)
    requires (forall q | q in picks :: Held(store, q)) && i < |picks|
    ensures var rec, o := RecordOf(P, key, store, picks[i]), End(P, key, store, picks, i);
      && End(P, key, store, picks, i + 1) == o + |rec| <= |Spliced(P, key, store, h, picks)|
      && Spliced(P, key, store, h, picks)[o..o + |rec|] == rec
  {
    hide RecordOf, HeaderBytes;
    var recs, whole := Gathered(P, key, store, picks), Spliced(P, key, store, h, picks);
    assert picks[i] in picks && recs[i] == RecordOf(P, key, store, picks[i]);
    ConcatTake(recs, i);
    ConcatOfTake(recs, i + 1);
    var front := HeaderBytes(h.uuid, h.count, h.size) + Concat(recs[..i + 1]);
    assert front == HeaderBytes(h.uuid, h.count, h.size) + Concat(recs[..i]) + recs[i];
    assert whole[..|front|] == front;
    SliceOfPrefix(front, whole, |front| - |recs[i]|, |front|);
  }

  /** What is left of record `i` shows the length of its block, and if it is whole, its block. */
  lemma PickReadable(P: Primitives, key: Bytes32, store: Store, h: Header, picks: seq<Pick>, data: Bytes, i: nat)
    requires AllFit(P, key, store) && (forall q | q in picks :: Held(store, q)) && i < |picks|
    requires data <= Spliced(P, key, store, h, picks)
    ensures var o, next := End(P, key, store, picks, i), End(P, key, store, picks, i + 1);
      && o + RECORD_HEAD <= next
      && (o + RECORD_HEAD <= |data| ==> o + RECORD_HEAD + BlockLen(data, o) == next)
      && (next <= |data| ==> data[o + RECORD_HEAD..next] == BlockOf(P, key, store, picks[i]))
  {
    hide BlockOf, RecordOf, End, Spliced, AllFit, BlockLen;
    var q, o := picks[i], End(P, key, store, picks, i);
    assert q in picks;
    PickInPlace(P, key, store, h, picks, i);
    BlockFits(P, key, store, q);
    RecordParts(P, key, store, q);
    RecordRead(data, Spliced(P, key, store, h, picks), o, RecordOf(P, key, store, q), BlockOf(P, key, store, q));
  }

  lemma RecordRead(data: Bytes, whole: Bytes, o: nat, rec: Bytes, block: Bytes)
    requires data <= whole && o + |rec| <= |whole| && whole[o..o + |rec|] == rec
    requires |rec| == RECORD_HEAD + |block| && rec[32..36] == Le(|block|, 4) && rec[36..] == block && |block| < U32
    ensures o + RECORD_HEAD <= |data| ==> BlockLen(data, o) == |block|
    ensures o + |rec| <= |data| ==> data[o + RECORD_HEAD..o + |rec|] == block
  {
    if o + RECORD_HEAD <= |data| {
      SubSlice(data, whole, o, rec, 32, 36);
      FieldReads(data, o, |block|);
    }
    if o + |rec| <= |data| {
      SubSlice(data, whole, o, rec, 36, |rec|);
    }
    hide BlockLen, Le;
  }

  lemma FieldReads(data: Bytes, o: nat, n: u32)
    requires o + RECORD_HEAD <= |data| && data[o + 32..o + 36] == Le(n, 4)
    ensures BlockLen(data, o) == n
  {
    LeExact(n);
    hide Le, FromLe;
  }

  lemma BlockFits(P: Primitives, key: Bytes32, store: Store, q: Pick)
    requires AllFit(P, key, store) && Held(store, q)
    ensures |BlockOf(P, key, store, q)| < U32
  {
    hide Block;
    assert Fits(P, SealOf(key, q.uuid, store[q.uuid]), store[q.uuid].chunks);
  }

  lemma RecordParts(P: Primitives, key: Bytes32, store: Store, q: Pick)
    requires Held(store, q)
    ensures var rec, block := RecordOf(P, key, store, q), BlockOf(P, key, store, q);
      |rec| == RECORD_HEAD + |block| && rec[32..36] == Le(|block|, 4) && rec[36..] == block
  {
    hide Block;
  }

  lemma SplicedWalk(P: Primitives, key: Bytes32, store: Store, h: Header, picks: seq<Pick>, data: Bytes, i: nat)
    requires AllFit(P, key, store) && (forall q | q in picks :: Held(store, q)) && i <= |picks|
    requires data <= Spliced(P, key, store, h, picks)
    ensures Walk(data, i) ==
            if i == 0 || End(P, key, store, picks, i - 1) + RECORD_HEAD <= |data|
                then Some(End(P, key, store, picks, i)) else None
  {
    var offs := seq<nat>(|picks| + 1, j requires 0 <= j <= |picks| => End(P, key, store, picks, j));
    assert offs[0] == HEADER by { assert Gathered(P, key, store, picks)[..0] == []; }
    hide End, BlockOf, AllFit, Spliced;
    forall j | 0 <= j < |picks|
      ensures offs[j] + RECORD_HEAD <= offs[j + 1]
      ensures offs[j] + RECORD_HEAD <= |data| ==> offs[j] + RECORD_HEAD + BlockLen(data, offs[j]) == offs[j + 1]
    {
      PickReadable(P, key, store, h, picks, data, j);
    }
    WalkOfLayout(data, offs, i);
  }

  /** Past the last record there is nothing to read. */
  lemma {:induction false} NothingBehind(data: Bytes, n: nat, i: nat)
    requires !HeadReadable(data, n) && n <= i
    ensures !HeadReadable(data, i)
  {
    if n < i {
      NothingBehind(data, n, i - 1);
    }
  }

  /** Random access hands record `i`, if it survived whole, to the cipher as chunk `i` of the named file. */
  lemma SplicedChunkAt(P: Primitives, key: Bytes32, store: Store, h: Header, picks: seq<Pick>, data: Bytes, i: u32)
    requires AllFit(P, key, store) && (forall q | q in picks :: Held(store, q))
    requires data <= Spliced(P, key, store, h, picks)
    ensures ChunkAt(P, key, h.uuid, data, i) ==
            if i < |picks| && End(P, key, store, picks, i + 1) <= |data|
            then Decrypt(P, key, BlockOf(P, key, store, picks[i]), VaultAad(h.uuid, i))
            else Err(ShortRead)
  {
    hide End, BlockOf, AllFit, Decrypt, VaultAad, BlockLen;
    if i < |picks| {
      SplicedWalk(P, key, store, h, picks, data, i);
      PickReadable(P, key, store, h, picks, data, i);
      if i > 0 { PickReadable(P, key, store, h, picks, data, i - 1); }
      var o, next := End(P, key, store, picks, i), End(P, key, store, picks, i + 1);
      if Walk(data, i).Some? && o + RECORD_HEAD <= |data| {
        ChunkAtCursor(P, key, h.uuid, data, i, o, next);
      }
    } else {
      SplicedWalk(P, key, store, h, picks, data, |picks|);
      EndIsEnd(P, key, store, h, picks);
      NothingBehind(data, |picks|, i);
    }
  }

  lemma EndIsEnd(P: Primitives, key: Bytes32, store: Store, h: Header, picks: seq<Pick>)
    requires forall q | q in picks :: Held(store, q)
    ensures End(P, key, store, picks, |picks|) == |Spliced(P, key, store, h, picks)|
  {
    var recs := Gathered(P, key, store, picks);
    assert recs[..|picks|] == recs;
  }

  /**
    Any prefix of any splice: chunk `i` reads exactly when the header allows it, record `i`
    survived whole and it is record `i` of the file the header names. Then it is that chunk.
   */
  lemma SplicedChunk(P: Primitives, key: Bytes32, store: Store, h: Header, picks: seq<Pick>, data: Bytes, i: u32)
    requires SealsCorrectly(P) && AllFit(P, key, store) && Binds(P, key, store, h.uuid) && h.size < U64
    requires forall q | q in picks :: Held(store, q)
    requires data <= Spliced(P, key, store, h, picks) && HEADER <= |data|
    ensures ReadHeader(data) == Ok(h)
    ensures ReadChunk(P, key, data, i).Ok? <==>
            i < h.count && i < |picks| && End(P, key, store, picks, i + 1) <= |data| && picks[i] == Pick(h.uuid, i)
    ensures ReadChunk(P, key, data, i).Ok? ==> ReadChunk(P, key, data, i) == Ok(ChunkOf(store, picks[i]))
  {
    SplicedHeader(P, key, store, h, picks, data);
    SplicedChunkAt(P, key, store, h, picks, data, i);
    if i < |picks| {
      assert picks[i] in picks;
      if picks[i] == Pick(h.uuid, i) { OwnBlockOpens(P, key, store, picks[i]); }
    }
    hide BlockOf, End, Spliced, ReadHeader, ChunkAt, AllFit, Decrypt, VaultAad, SealsCorrectly;
  }

  lemma SplicedHeader(P: Primitives, key: Bytes32, store: Store, h: Header, picks: seq<Pick>, data: Bytes)
    requires h.size < U64 && forall q | q in picks :: Held(store, q)
    requires data <= Spliced(P, key, store, h, picks) && HEADER <= |data|
    ensures ReadHeader(data) == Ok(h)
  {
    hide HeaderBytes, RecordOf, ReadHeader, Concat;
    PrefixSplits(HeaderBytes(h.uuid, h.count, h.size), Concat(Gathered(P, key, store, picks)), data);
    HeaderRoundTrip(h.uuid, h.count, h.size, data[HEADER..]);
  }

  lemma OwnBlockOpens(P: Primitives, key: Bytes32, store: Store, q: Pick)
    requires SealsCorrectly(P) && Held(store, q)
    ensures Decrypt(P, key, BlockOf(P, key, store, q), VaultAad(q.uuid, q.index)) == Ok(ChunkOf(store, q))
  {
    DecryptEncrypt(P, key, store[q.uuid].nonces(q.index), ChunkOf(store, q), VaultAad(q.uuid, q.index));
  }

  /** A splice contains no block that was not written, so what holds of all unforged bytes holds of it. */
  lemma SplicedIsUnforged(P: Primitives, key: Bytes32, store: Store, h: Header, picks: seq<Pick>, data: Bytes)
    requires AllFit(P, key, store) && forall q | q in picks :: Held(store, q)
    requires data <= Spliced(P, key, store, h, picks)
    ensures Unforged(P, key, store, h.uuid, data)
  {
    hide BlockOf, End, Spliced, AllFit, Decrypt, VaultAad;
    forall i: u32, block: Bytes | Reaches(data, i, block) && Decrypt(P, key, block, VaultAad(h.uuid, i)).Ok?
      ensures exists q :: Held(store, q) && block == BlockOf(P, key, store, q)
    {
      if i < |picks| {
        SplicedWalk(P, key, store, h, picks, data, i);
        PickReadable(P, key, store, h, picks, data, i);
        assert picks[i] in picks;
        assert Held(store, picks[i]) && block == BlockOf(P, key, store, picks[i]);
      } else {
        SplicedWalk(P, key, store, h, picks, data, |picks|);
        EndIsEnd(P, key, store, h, picks);
        NothingBehind(data, |picks|, i);
        assert false;
      }
    }
  }

  /** The records of the named file, first to last. */
  predicate InOrder(u: Bytes16, picks: seq<Pick>, n: nat) {
    n <= |picks| && forall i | 0 <= i < n :: picks[i].uuid == u && picks[i].index == i
  }

  /**
    A splice exports exactly when it starts with as many records of the named file, in order
    and whole, as its header counts.
   */
  lemma SplicedExport(P: Primitives, key: Bytes32, store: Store, h: Header, picks: seq<Pick>, data: Bytes)
    requires SealsCorrectly(P) && AllFit(P, key, store) && Binds(P, key, store, h.uuid) && h.size < U64
    requires forall q | q in picks :: Held(store, q)
    requires data <= Spliced(P, key, store, h, picks) && HEADER <= |data|
    ensures ExportAt(P, key, h.uuid, data, h.count).Ok? <==>
            InOrder(h.uuid, picks, h.count) && End(P, key, store, picks, h.count) <= |data|
  {
    hide BlockOf, End, Spliced, ReadChunk, ChunkAt, AllFit, Decrypt, VaultAad, SealsCorrectly, Binds, ExportAt;
    SplicedHeader(P, key, store, h, picks, data);
    ExportNeedsEachChunk(P, key, h.uuid, data, h.count);
    forall i: u32 | i < h.count
      ensures ChunkAt(P, key, h.uuid, data, i).Ok? <==>
              i < |picks| && End(P, key, store, picks, i + 1) <= |data| && picks[i] == Pick(h.uuid, i)
    {
      ReadsAsChunk(P, key, data, i);
      SplicedChunk(P, key, store, h, picks, data, i);
    }
    if InOrder(h.uuid, picks, h.count) && End(P, key, store, picks, h.count) <= |data| {
      forall i: u32 | i < h.count ensures ChunkAt(P, key, h.uuid, data, i).Ok? {
        EndsGrow(P, key, store, picks, i + 1, h.count);
      }
    } else if forall i: u32 | i < h.count :: ChunkAt(P, key, h.uuid, data, i).Ok? {
      if h.count == 0 {
        EndOfNone(P, key, store, picks);
      } else {
        var last: u32 := h.count - 1;
        assert ChunkAt(P, key, h.uuid, data, last).Ok?;
        forall i: u32 | i < h.count ensures picks[i] == Pick(h.uuid, i) {
          assert ChunkAt(P, key, h.uuid, data, i).Ok?;
        }
      }
    }
  }

  lemma ReadsAsChunk(P: Primitives, key: Bytes32, data: Bytes, i: u32)
    requires ReadHeader(data).Ok? && i < ReadHeader(data).value.count
    ensures ReadChunk(P, key, data, i) == ChunkAt(P, key, ReadHeader(data).value.uuid, data, i)
  {
    hide ReadHeader, ChunkAt;
  }

  lemma EndOfNone(P: Primitives, key: Bytes32, store: Store, picks: seq<Pick>)
    requires forall q | q in picks :: Held(store, q)
    ensures End(P, key, store, picks, 0) == HEADER
  {
    assert Gathered(P, key, store, picks)[..0] == [];
  }

  lemma EndsGrow(P: Primitives, key: Bytes32, store: Store, picks: seq<Pick>, m: nat, n: nat)
    requires m <= n <= |picks| && forall q | q in picks :: Held(store, q)
    ensures End(P, key, store, picks, m) <= End(P, key, store, picks, n)
  {
    var recs := Gathered(P, key, store, picks);
    ConcatOfTake(recs[..n], m);
    assert recs[..n][..m] == recs[..m];
  }

  // ── A header that counts too little ─────────────────────────────────────

  /** All records of one container, in order. */
  function AllOf(u: Bytes16, n: nat): (picks: seq<Pick>)
    requires n < U32
    ensures |picks| == n
  {
    seq(n, i requires 0 <= i < n => Pick(u, i))
  }

  lemma {:induction false} GatheredIsWritten(P: Primitives, s: Seal, chunks: seq<Bytes>, n: nat)
    requires n <= |chunks| < U32
    ensures var store := map[s.uuid := AtRest(s.nonces, chunks)];
      Concat(Gathered(P, s.key, store, AllOf(s.uuid, n))) == Records(P, s, chunks, n)
  {
    var store := map[s.uuid := AtRest(s.nonces, chunks)];
    if n == 0 {
    } else {
      GatheredIsWritten(P, s, chunks, n - 1);
      var recs := Gathered(P, s.key, store, AllOf(s.uuid, n));
      assert recs[..n - 1] == Gathered(P, s.key, store, AllOf(s.uuid, n - 1));
      assert recs[n - 1] == Record(P, s, n - 1, chunks[n - 1]);
    }
  }

  /** Our own container with the count in its header lowered to `n`, and nothing else changed. */
  function Lowered(P: Primitives, s: Seal, chunks: seq<Bytes>, n: nat): Bytes
    requires |chunks| < U32
  {
    HeaderBytes(s.uuid, n, TotalSize(chunks)) + Records(P, s, chunks, |chunks|)
  }

  /**
    Such a container is exported without complaint: the size of the whole file is reported and
    the first `n` chunks are delivered.
   */
  lemma LoweredCountExports(P: Primitives, s: Seal, chunks: seq<Bytes>, n: nat, files: map<string, Bytes>, src: string,
      dest: string)
    requires SealsCorrectly(P) && Fits(P, s, chunks) && n <= |chunks|
    requires src in files && files[src] == Lowered(P, s, chunks, n) && TmpName(dest) != src
    ensures ExportOutcome(P, files, src, s.key, dest) ==
            (Ok(|Concat(chunks)|), (files - {TmpName(dest)})[dest := Concat(chunks[..n])])
    ensures Concat(chunks[..n]) == Concat(chunks) <==> forall i | n <= i < |chunks| :: chunks[i] == []
  {
    WholeExactly(chunks, n);
    var store, h, picks, data := map[s.uuid := AtRest(s.nonces, chunks)], Header(s.uuid, n, TotalSize(chunks)),
        AllOf(s.uuid, |chunks|), files[src];
    GatheredIsWritten(P, s, chunks, |chunks|);
    hide HeaderBytes, ReadHeader, RecordOf, Fits, Concat, ExportAt, ChunkAt, SealsCorrectly, Records, Decrypt, BlockOf,
        VaultAad;
    assert AllFit(P, s.key, store) by { assert SealOf(s.key, s.uuid, store[s.uuid]) == s; }
    assert data == Spliced(P, s.key, store, h, picks);
    SplicedHeader(P, s.key, store, h, picks, data);
    forall i: u32 | i < n ensures ChunkAt(P, s.key, s.uuid, data, i) == Ok(chunks[..n][i]) {
      SplicedChunkAt(P, s.key, store, h, picks, data, i);
      PickInPlace(P, s.key, store, h, picks, i);
      OwnBlockOpens(P, s.key, store, picks[i]);
    }
    ExportConcatenates(P, s.key, s.uuid, data, chunks[..n]);
  }

  // ── The assumptions can be met ──────────────────────────────────────────

  /** The end of the id, and the position: enough to tell containers apart whose ids end differently. */
  function ToyTag(aad: Bytes): Bytes16 {
    if |aad| == 36 then aad[20..] else Zeros(16)
  }

  /** A cipher that hides nothing but binds its tag. */
  function Toy(): Primitives {
    Primitives(_ => Zeros(32), (_, _) => Zeros(32), _ => [],
               (_, _, aad, m) => m + ToyTag(aad),
               (_, _, aad, c) => if |c| >= 16 && c[|c| - 16..] == ToyTag(aad) then Some(c[..|c| - 16]) else None,
               k => k, (_, _) => Zeros(32))
  }

  lemma ToyTagBinds(u: Bytes16, i: u32, u': Bytes16, i': u32)
    requires ToyTag(VaultAad(u, i)) == ToyTag(VaultAad(u', i'))
    ensures u[4..] == u'[4..] && i == i'
  {
    var x, y := VaultAad(u, i), VaultAad(u', i');
    assert x[20..][..12] == u[4..] && x[20..][12..] == Le(i, 4);
    assert y[20..][..12] == u'[4..] && y[20..][12..] == Le(i', 4);
    LeExact(i);
    LeExact(i');
  }

  /**
    All that is required of the cipher above holds together, for every store and name whose ids
    do not end alike; whatever is spliced from such a store satisfies it.
   */
  lemma AssumptionsCanBeMet(key: Bytes32, store: Store, h: Header, picks: seq<Pick>)
    requires AllFit(Toy(), key, store)
    requires forall u | u in store && u != h.uuid :: u[4..] != h.uuid[4..]
    requires forall q | q in picks :: Held(store, q)
    ensures SealsCorrectly(Toy()) && Binds(Toy(), key, store, h.uuid)
    ensures Unforged(Toy(), key, store, h.uuid, Spliced(Toy(), key, store, h, picks))
  {
    forall k: Bytes32, n: Bytes12, aad: Bytes, m: Bytes
      ensures |Toy().aeadSeal(k, n, aad, m)| == |m| + 16 && Toy().aeadOpen(k, n, aad, Toy().aeadSeal(k, n, aad, m))
          == Some(m)
    {
      hide ToyTag;
      var c := m + ToyTag(aad);
      assert c[..|c| - 16] == m && c[|c| - 16..] == ToyTag(aad);
    }
    forall q: Pick, i: u32 | Held(store, q) && Decrypt(Toy(), key, BlockOf(Toy(), key, store, q),
        VaultAad(h.uuid, i)).Ok?
      ensures q == Pick(h.uuid, i)
    {
      ToyBlockOpens(key, store, q, VaultAad(h.uuid, i));
      ToyTagBinds(q.uuid, q.index, h.uuid, i);
    }
    SplicedIsUnforged(Toy(), key, store, h, picks, Spliced(Toy(), key, store, h, picks));
  }

  lemma ToyBlockOpens(key: Bytes32, store: Store, q: Pick, aad: Bytes)
    requires Held(store, q) && Decrypt(Toy(), key, BlockOf(Toy(), key, store, q), aad).Ok?
    ensures ToyTag(VaultAad(q.uuid, q.index)) == ToyTag(aad)
  {
    hide ToyTag, VaultAad;
    var nonce, m, tag := store[q.uuid].nonces(q.index), ChunkOf(store, q), ToyTag(VaultAad(q.uuid, q.index));
    var block := BlockOf(Toy(), key, store, q);
    assert block == nonce + (m + tag);
    assert block[12..] == m + tag;
    assert block[12..][|m|..] == tag;
  }
}
