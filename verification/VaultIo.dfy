/**
  The container's writer and readers as they run: loops over a file cursor and a folder that
  is updated in place (src/storage.rs:208-401).
 */
module VaultIo {
  import opened Basics
  import opened Crypto
  import opened Paths
  import opened VaultFormat

  /** An open file. Seeking may leave the file; only reading there fails. */
  class FileCursor {
    var data: Bytes
    var pos: nat

    constructor (data: Bytes)
      ensures this.data == data && pos == 0
    {
      this.data, pos := data, 0;
    }

    method Seek(to: nat)
      modifies `pos
      ensures pos == to
    {
      pos := to;
    }

    method ReadExact(n: nat) returns (r: Result<Bytes>)
      modifies `pos
      ensures r.Ok? <==> n == 0 || old(pos) + n <= |data|
      ensures r.Ok? ==> |r.value| == n && pos == old(pos) + n
      ensures r.Ok? && n > 0 ==> r.value == data[old(pos)..old(pos) + n]
      ensures r.Err? ==> r.error == ShortRead
    {
      if n == 0 {
        r := Ok([]);
      } else if pos + n <= |data| {
        r := Ok(data[pos..pos + n]);
        pos := pos + n;
      } else {
        r := Err(ShortRead);
      }
    }

    /** `File::read`: fills the buffer except at the end of the file. */
    method Read(max: nat) returns (b: Bytes)
      modifies `pos
      ensures old(pos) <= |data| ==>
                && pos == (if old(pos) + max <= |data| then old(pos) + max else |data|)
                && b == data[old(pos)..pos]
      ensures old(pos) > |data| ==> b == [] && pos == old(pos)
    {
      if pos > |data| {
        b := [];
      } else {
        var end := if pos + max <= |data| then pos + max else |data|;
        b := data[pos..end];
        pos := end;
      }
    }
  }

  // ── Readers ─────────────────────────────────────────────────────────────

  method ReadVaultHeader(f: FileCursor) returns (r: Result<Header>)
    modifies f`pos
    ensures r == ReadHeader(f.data)
  {
    f.Seek(0);
    var hdr := f.ReadExact(HEADER);
    if hdr.Err? {
      return Err(hdr.error);
    }
    var h := hdr.value;
    if h[0..8] != MAGIC {
      return Err(BadMagic);
    }
    assert h == f.data[..HEADER];
    assert h[8..24] == f.data[8..24] && h[24..28] == f.data[24..28] && h[28..36] == f.data[28..36];
    return Ok(Header(h[8..24], FieldU32(h[24..28]), FromLe(h[28..36])));
  }

  /** One record head: the hash and the announced block length. */
  method ReadRecordHead(f: FileCursor, ghost i: nat) returns (r: Result<(Bytes32, u32)>)
    requires Walk(f.data, i) == Some(f.pos)
    modifies f`pos
    ensures r.Ok? <==> HeadReadable(f.data, i)
    ensures r.Ok? ==>
              && r.value == (HeadHash(f.data, i), BlockLen(f.data, old(f.pos)))
              && f.pos == old(f.pos) + RECORD_HEAD
              && Walk(f.data, i + 1) == Some(f.pos + r.value.1)
    ensures r.Err? ==> r.error == ShortRead && Walk(f.data, i + 1) == None
  {
    var hash := f.ReadExact(32);
    if hash.Err? {
      return Err(hash.error);
    }
    var len := f.ReadExact(4);
    if len.Err? {
      return Err(len.error);
    }
    return Ok((hash.value, FieldU32(len.value)));
  }

  lemma {:induction false} WalkStaysLost(data: Bytes, i: nat, n: nat)
    requires i <= n && Walk(data, i) == None
    ensures Walk(data, n) == None
  {
    if i < n {
      WalkStaysLost(data, i, n - 1);
    }
  }

  lemma {:induction false} HashesStayLost(data: Bytes, i: nat, n: nat)
    requires i < n && !HeadReadable(data, i)
    ensures HashesAt(data, n) == Err(ShortRead)
  {
    if HashesAt(data, n - 1).Err? {
      FailingListingIsShort(data, n - 1);
    } else {
      ListingNeedsHeadsOnly(data, n - 1);
      assert i == n - 1;
    }
  }

  lemma {:induction false} FailingListingIsShort(data: Bytes, n: nat)
    ensures HashesAt(data, n).Err? ==> HashesAt(data, n) == Err(ShortRead)
  {
    if n > 0 {
      FailingListingIsShort(data, n - 1);
    }
  }

  method ReadVaultChunkHashes(f: FileCursor, total: u32) returns (r: Result<seq<Bytes32>>)
    modifies f`pos
    ensures r == HashesAt(f.data, total)
  {
    f.Seek(HEADER);
    var out: seq<Bytes32> := [];
    for i := 0 to total
      invariant Walk(f.data, i) == Some(f.pos)
      invariant HashesAt(f.data, i) == Ok(out)
    {
      var head := ReadRecordHead(f, i);
      if head.Err? {
        HashesStayLost(f.data, i, total);
        return Err(head.error);
      }
      out := out + [head.value.0];
      f.Seek(f.pos + head.value.1);
    }
    return Ok(out);
  }

  /** Reads the record under the cursor and decrypts it as chunk `i`. */
  method ReadNextChunk(P: Primitives, f: FileCursor, uuid: Bytes16, i: u32, key: Bytes32) returns (r: Result<Bytes>)
    requires Walk(f.data, i) == Some(f.pos)
    modifies f`pos
    ensures r == ChunkAt(P, key, uuid, f.data, i)
    ensures r.Ok? ==> Walk(f.data, i + 1) == Some(f.pos)
  {
    var head := ReadRecordHead(f, i);
    if head.Err? {
      return Err(head.error);
    }
    var block := f.ReadExact(head.value.1);
    if block.Err? {
      return Err(block.error);
    }
    r := Decrypt(P, key, block.value, VaultAad(uuid, i));
  }

  /** `vault_read_chunk` on an opened file. */
  method ReadVaultChunk(P: Primitives, f: FileCursor, index: u32, key: Bytes32) returns (r: Result<Bytes>)
    modifies f`pos
    ensures r == ReadChunk(P, key, f.data, index)
  {
    var hdr := ReadVaultHeader(f);
    if hdr.Err? {
      return Err(hdr.error);
    }
    var h := hdr.value;
    if index >= h.count {
      return Err(OutOfRange);
    }
    f.Seek(HEADER);
    var i: nat := 0;
    while i < h.count
      invariant i <= index
      invariant Walk(f.data, i) == Some(f.pos)
    {
      if i == index {
        r := ReadNextChunk(P, f, h.uuid, index, key);
        return;
      }
      var head := ReadRecordHead(f, i);
      if head.Err? {
        WalkStaysLost(f.data, i + 1, index);
        return Err(head.error);
      }
      f.Seek(f.pos + head.value.1);
      i := i + 1;
    }
    assert false;
  }

  // ── Writing and exporting change the folder ─────────────────────────────

  /** The first chunk whose sealed block does not fit its length field, or the number of chunks. */
  function FirstTooBig(P: Primitives, s: Seal, chunks: seq<Bytes>, i: nat): (k: nat)
    requires i <= |chunks| < U32
    ensures i <= k <= |chunks|
    ensures forall j | i <= j < k :: |Block(P, s, j, chunks[j])| < U32
    ensures k < |chunks| ==> |Block(P, s, k, chunks[k])| >= U32
    decreases |chunks| - i
  {
    if i == |chunks| || |Block(P, s, i, chunks[i])| >= U32 then i else FirstTooBig(P, s, chunks, i + 1)
  }

  /** Result and folder after writing a container; an oversized chunk leaves the file cut short. */
  function WriteOutcome(P: Primitives, files: map<string, Bytes>, rel: string, chunks: seq<Bytes>,
          s: Seal): (Result<string>, map<string, Bytes>)
  {
    if Unsafe(rel) then (Err(UnsafePath), files)
    else if |chunks| >= U32 then (Err(TooManyChunks), files)
    else
      var k := FirstTooBig(P, s, chunks, 0);
      if k < |chunks| then (Err(ChunkTooBig), files[Vit(rel) := Written(P, s, chunks, k)])
      else (Ok(Vit(rel)), files[Vit(rel) := Container(P, s, chunks)])
  }

  /**
    Result and folder after an export. The staging file is created before the first record is
    read, so when it is the source itself there is nothing left to read.
   */
  function ExportOutcome(P: Primitives, files: map<string, Bytes>, src: string, key: Bytes32,
          dest: string): (Result<nat>, map<string, Bytes>)
  {
    if src !in files then (Err(NotFound), files) else
    match ReadHeader(files[src])
    case Err(e) => (Err(e), files)
    case Ok(h) =>
      var tmp := TmpName(dest);
      match ExportAt(P, key, h.uuid, if tmp == src then [] else files[src], h.count)
      case Err(e) => (Err(e), files - {tmp})
      case Ok(out) => (Ok(h.size), (files - {tmp})[dest := out])
  }

  class Folder {
    var files: map<string, Bytes>

    constructor (files: map<string, Bytes>)
      ensures this.files == files
    {
      this.files := files;
    }

    method VaultReadChunk(P: Primitives, path: string, index: u32, key: Bytes32) returns (r: Result<Bytes>)
      ensures r == if path in files then ReadChunk(P, key, files[path], index) else Err(NotFound)
    {
      if path !in files {
        return Err(NotFound);
      }
      var f := new FileCursor(files[path]);
      r := ReadVaultChunk(P, f, index, key);
    }

    method VaultWrite(P: Primitives, rel: string, chunks: seq<Bytes>, s: Seal) returns (r: Result<string>)
      modifies this
      ensures (r, files) == WriteOutcome(P, old(files), rel, chunks, s)
    {
      if Unsafe(rel) {
        return Err(UnsafePath);
      }
      var target := Vit(rel);
      if |chunks| >= U32 {
        return Err(TooManyChunks);
      }
      files := files[target := []];
      var out := HeaderBytes(s.uuid, |chunks|, TotalSize(chunks));
      files := files[target := out];
      assert Written(P, s, chunks, 0) == out;
      var k := AppendRecords(P, target, chunks, s);
      assert files == old(files)[target := Written(P, s, chunks, k)];
      if k < |chunks| {
        return Err(ChunkTooBig);
      }
      return Ok(target);
    }

    /** The writer's chunk loop, which stops before the first block that is too big. */
    method AppendRecords(P: Primitives, target: string, chunks: seq<Bytes>, s: Seal) returns (k: nat)
      requires |chunks| < U32 && target in files && files[target] == Written(P, s, chunks, 0)
      modifies this
      ensures k == FirstTooBig(P, s, chunks, 0)
      ensures files == old(files)[target := Written(P, s, chunks, k)]
    {
      var out := files[target];
      k := 0;
      while k < |chunks|
        invariant k <= FirstTooBig(P, s, chunks, 0)
        invariant out == Written(P, s, chunks, k)
        invariant files == old(files)[target := out]
      {
        var block := Block(P, s, k, chunks[k]);
        if |block| >= U32 {
          return;
        }
        WrittenStep(P, s, chunks, k);
        out := out + (P.hash(chunks[k]) + Le(|block|, 4) + block);
        files := files[target := out];
        k := k + 1;
      }
    }

    method Export(P: Primitives, src: string, key: Bytes32, dest: string) returns (r: Result<nat>)
      modifies this
      ensures (r, files) == ExportOutcome(P, old(files), src, key, dest)
    {
      if src !in files {
        return Err(NotFound);
      }
      var f := new FileCursor(files[src]);
      var hdr := ReadVaultHeader(f);
      if hdr.Err? {
        return Err(hdr.error);
      }
      var h := hdr.value;
      var tmp := TmpName(dest);
      files := files[tmp := []];
      if tmp == src {
        f.data := [];   // the open handle sees its own file truncated
      }
      var copied := CopyChunks(P, f, h, key, tmp);
      assert files - {tmp} == old(files) - {tmp};
      match copied {
        case Ok(_) =>
          var out := files[tmp];
          files := (files - {tmp})[dest := out];
          return Ok(h.size);
        case Err(e) =>
          files := files - {tmp};
          return Err(e);
      }
    }

    /** The streaming loop of the export, appending each decrypted chunk to `tmp`. */
    method CopyChunks(P: Primitives, f: FileCursor, h: Header, key: Bytes32, tmp: string) returns (r: Result<()>)
      requires tmp in files && files[tmp] == []
      modifies this, f`pos
      ensures tmp in files && files == old(files)[tmp := files[tmp]]
      ensures ExportAt(P, key, h.uuid, f.data, h.count) ==
              match r case Ok(_) => Ok(files[tmp]) case Err(e) => Err(e)
    {
      f.Seek(HEADER);
      var out: Bytes := [];
      for i := 0 to h.count
        invariant files == old(files)[tmp := out]
        invariant Walk(f.data, i) == Some(f.pos)
        invariant ExportAt(P, key, h.uuid, f.data, i) == Ok(out)
      {
        ExportStep(P, key, h.uuid, f.data, i, h.count);
        var plain := ReadNextChunk(P, f, h.uuid, i, key);
        if plain.Err? {
          return Err(plain.error);
        }
        out := out + plain.value;
        files := files[tmp := out];
      }
      return Ok(());
    }
  }

  lemma WrittenStep(P: Primitives, s: Seal, chunks: seq<Bytes>, i: nat)
    requires i < |chunks| < U32
    ensures Written(P, s, chunks, i + 1)
         == Written(P, s, chunks, i) + (P.hash(chunks[i]) + Le(|Block(P, s, i, chunks[i])|, 4)
             + Block(P, s, i, chunks[i]))
  {
  }

  /** After `i` chunks, either chunk `i` reads and the export goes on, or it fails for good. */
  lemma ExportStep(P: Primitives, key: Bytes32, uuid: Bytes16, data: Bytes, i: nat, n: nat)
    requires i < n < U32 && ExportAt(P, key, uuid, data, i).Ok?
    ensures ChunkAt(P, key, uuid, data, i).Ok? ==>
              ExportAt(P, key, uuid, data, i + 1) ==
              Ok(ExportAt(P, key, uuid, data, i).value + ChunkAt(P, key, uuid, data, i).value)
    ensures ChunkAt(P, key, uuid, data, i).Err? ==>
              ExportAt(P, key, uuid, data, n) == Err(ChunkAt(P, key, uuid, data, i).error)
  {
    var rs := ChunksAt(P, key, uuid, data, n);
    assert rs[..i] == ChunksAt(P, key, uuid, data, i);
    assert rs[..i + 1] == ChunksAt(P, key, uuid, data, i + 1);
    assert rs[..i + 1][..i] == rs[..i];
    if rs[i].Err? {
      CollectStaysFailed(rs, i + 1, n);
      assert rs[..n] == rs;
    }
  }

  lemma {:induction false} CollectStaysFailed(rs: seq<Result<Bytes>>, i: nat, n: nat)
    requires i <= n <= |rs| && Collect(rs[..i]).Err?
    ensures Collect(rs[..n]) == Collect(rs[..i])
  {
    if i < n {
      CollectStaysFailed(rs, i, n - 1);
      assert rs[..n][..n - 1] == rs[..n - 1];
    }
  }

  // ── What writing and exporting promise ──────────────────────────────────

  /** A container within the format's limits is written whole and touches no other file. */
  lemma WriteThenRead(P: Primitives, files: map<string, Bytes>, rel: string, chunks: seq<Bytes>, s: Seal)
    requires SealsCorrectly(P) && TotalSize(chunks) < U64
    ensures var (r, after) := WriteOutcome(P, files, rel, chunks, s);
      && (r.Ok? <==> !Unsafe(rel) && |chunks| < U32 && forall i | 0 <= i < |chunks| :: |chunks[i]| + 28 < U32)
      && after - {Vit(rel)} == files - {Vit(rel)}
      && (r.Ok? ==>
            && Fits(P, s, chunks) && r.value == Vit(rel)
            && Vit(rel) in after && after[Vit(rel)] == Container(P, s, chunks))
  {
    if |chunks| < U32 {
      forall i | 0 <= i < |chunks|
        ensures |Block(P, s, i, chunks[i])| == |chunks[i]| + 28
      {
        DecryptEncrypt(P, s.key, s.nonces(i), chunks[i], VaultAad(s.uuid, i));
      }
    }
  }

  /** A chunk too big for the format fails the write and leaves the container cut off before its record. */
  lemma TooBigIsCutShort(P: Primitives, files: map<string, Bytes>, rel: string, chunks: seq<Bytes>, s: Seal, k: nat)
    requires SealsCorrectly(P) && !Unsafe(rel) && k < |chunks| < U32
    requires |chunks[k]| + 28 >= U32 && forall i | 0 <= i < k :: |chunks[i]| + 28 < U32
    ensures var (r, after) := WriteOutcome(P, files, rel, chunks, s);
      && r == Err(ChunkTooBig)
      && Offset(P, s, chunks, k) <= |Container(P, s, chunks)|
      && after == files[Vit(rel) := Container(P, s, chunks)[..Offset(P, s, chunks, k)]]
  {
    hide Unsafe, HeaderBytes;
    forall i | 0 <= i <= k ensures |Block(P, s, i, chunks[i])| == |chunks[i]| + 28 {
      DecryptEncrypt(P, s.key, s.nonces(i), chunks[i], VaultAad(s.uuid, i));
    }
    assert FirstTooBig(P, s, chunks, 0) == k;
    RecordsGrow(P, s, chunks, k, |chunks|);
    assert Container(P, s, chunks)[..Offset(P, s, chunks, k)] == Written(P, s, chunks, k);
  }

  /** Exporting an intact container delivers the original bytes and reports their number. */
  lemma ExportDelivers(P: Primitives, files: map<string, Bytes>, src: string, dest: string, s: Seal, chunks: seq<Bytes>)
    requires SealsCorrectly(P) && Fits(P, s, chunks)
    requires src in files && files[src] == Container(P, s, chunks)
    requires TmpName(dest) != src
    ensures var (r, after) := ExportOutcome(P, files, src, s.key, dest);
      && r == Ok(|Concat(chunks)|)
      && dest in after && after[dest] == Concat(chunks)
      && after - {dest, TmpName(dest)} == files - {dest, TmpName(dest)}
  {
    RoundTrip(P, s, chunks);
  }

  /**
    An export succeeds exactly when the header reads, random access does for every chunk it counts,
    and the staging file is not the source (or there is nothing to copy). It reports the header's size.
   */
  lemma ExportSucceedsExactly(P: Primitives, files: map<string, Bytes>, src: string, key: Bytes32, dest: string)
    ensures var r := ExportOutcome(P, files, src, key, dest).0;
      && (r.Ok? <==>
          && src in files && ReadHeader(files[src]).Ok?
          && (forall i: u32 | i < ReadHeader(files[src]).value.count :: ReadChunk(P, key, files[src], i).Ok?)
          && (TmpName(dest) != src || ReadHeader(files[src]).value.count == 0))
      && (r.Ok? ==> r == Ok(ReadHeader(files[src]).value.size))
  {
    hide TmpName, ExportAt, ReadHeader, ChunkAt;
    if src in files && ReadHeader(files[src]).Ok? {
      var h := ReadHeader(files[src]).value;
      var data := if TmpName(dest) == src then [] else files[src];
      ExportNeedsEachChunk(P, key, h.uuid, data, h.count);
      if TmpName(dest) == src && h.count > 0 {
        var first: u32 := 0;
        NothingInEmpty(P, key, h.uuid);
        assert first < h.count && ChunkAt(P, key, h.uuid, data, first).Err?;
      } else {
        assert forall i: u32 | i < h.count :: ReadChunk(P, key, files[src], i) == ChunkAt(P, key, h.uuid, data, i);
      }
    }
  }

  lemma NothingInEmpty(P: Primitives, key: Bytes32, uuid: Bytes16)
    ensures ChunkAt(P, key, uuid, [], 0) == Err(ShortRead)
  {
  }

  /**
    A failed export leaves destination and source alone exactly when the staging file is
    neither of them: for the destination that means its extension is not `tmp`. A container
    whose header does not even read is refused before anything is touched.
   */
  lemma FailedExport(P: Primitives, files: map<string, Bytes>, src: string, key: Bytes32, dest: string)
    requires ExportOutcome(P, files, src, key, dest).0.Err?
    ensures var after := ExportOutcome(P, files, src, key, dest).1;
      var started := src in files && ReadHeader(files[src]).Ok?;
      && (!started ==> after == files)
      && (started ==> after == files - {TmpName(dest)})
      && (dest in files ==> (dest in after && after[dest] == files[dest]
                             <==> !(started && Extension(FileName(dest)) == Some("tmp"))))
      && (src in files ==> (src in after && after[src] == files[src] <==> !(started && TmpName(dest) == src)))
  {
    TmpNameIsItselfExactlyForTmp(dest);
  }

  /** A file standing where the export is staged is lost whether or not the export succeeds. */
  lemma StagingFileIsLost(P: Primitives, files: map<string, Bytes>, src: string, key: Bytes32, dest: string)
    requires src in files && ReadHeader(files[src]).Ok?
    ensures var (r, after) := ExportOutcome(P, files, src, key, dest);
      TmpName(dest) in after <==> r.Ok? && Extension(FileName(dest)) == Some("tmp")
  {
    TmpNameIsItselfExactlyForTmp(dest);
  }
}
