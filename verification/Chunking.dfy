/**
  How a file falls into chunks: the hashing loop of the listing, the seek-based chunk read
  and the import loop (src/storage.rs:158-182, 575-602, 890-903), and that they agree.
 */
module Chunking {
  import opened Basics
  import opened Crypto
  import opened Paths
  import opened VaultFormat
  import opened VaultIo

  const CHUNK_SIZE: nat := 512 * 1024

  datatype FileMetadata = FileMetadata(
    fileName: string,
    totalChunks: nat,
    fileSize: nat,
    chunkHashes: seq<Bytes32>,
    isVault: bool
  )

  function Min(a: nat, b: nat): nat {
    if a <= b then a else b
  }

  /** ceil(size / CHUNK_SIZE) */
  function ChunkCount(size: nat): nat {
    (size + CHUNK_SIZE - 1) / CHUNK_SIZE
  }

  /** The bytes from `i * CHUNK_SIZE` on, at most one chunk of them. */
  function Piece(data: Bytes, i: nat): Bytes {
    if i * CHUNK_SIZE > |data| then []
    else data[i * CHUNK_SIZE..Min((i + 1) * CHUNK_SIZE, |data|)]
  }

  function Chunks(data: Bytes): (cs: seq<Bytes>)
    ensures |cs| == ChunkCount(|data|)
  {
    seq(ChunkCount(|data|), i requires 0 <= i => Piece(data, i))
  }

  lemma PieceBounds(data: Bytes, i: nat)
    ensures i < ChunkCount(|data|) <==> i * CHUNK_SIZE < |data|
    ensures i < ChunkCount(|data|) <==> Piece(data, i) != []
    ensures |Piece(data, i)| <= CHUNK_SIZE
    ensures i + 1 < ChunkCount(|data|) ==> |Piece(data, i)| == CHUNK_SIZE
  {
  }

  /** The first `k` chunks are the first `k * CHUNK_SIZE` bytes. */
  lemma {:induction false} LeadingChunks(data: Bytes, k: nat)
    requires k <= ChunkCount(|data|)
    ensures Concat(Chunks(data)[..k]) == data[..Min(k * CHUNK_SIZE, |data|)]
  {
    if k == 0 {
    } else {
      var cs, i := Chunks(data), k - 1;
      LeadingChunks(data, i);
      OneMorePiece(data, i);
      calc {
        Concat(cs[..k]);
        { ConcatTake(cs, i); }
        Concat(cs[..i]) + cs[i];
        data[..Min(i * CHUNK_SIZE, |data|)] + Piece(data, i);
        data[..Min(k * CHUNK_SIZE, |data|)];
      }
    }
  }

  lemma OneMorePiece(data: Bytes, i: nat)
    requires i < ChunkCount(|data|)
    ensures data[..Min(i * CHUNK_SIZE, |data|)] + Piece(data, i) == data[..Min((i + 1) * CHUNK_SIZE, |data|)]
  {
    var a, b := i * CHUNK_SIZE, Min((i + 1) * CHUNK_SIZE, |data|);
    assert data[..a] + data[a..b] == data[..b];
  }

  /** Chunking loses nothing. */
  lemma ChunksConcatenate(data: Bytes)
    ensures Concat(Chunks(data)) == data
  {
    var n := ChunkCount(|data|);
    LeadingChunks(data, n);
    assert Chunks(data)[..n] == Chunks(data);
    PieceBounds(data, n);
  }

  // ── Listing ─────────────────────────────────────────────────────────────

  function Announced(size: nat): nat {
    if ChunkCount(size) > 1 then ChunkCount(size) else 1
  }

  /** What a plaintext file is listed as. An empty file announces one chunk but has no hash. */
  function ListPlain(P: Primitives, name: string, data: Bytes): FileMetadata {
    FileMetadata(name, Announced(|data|), |data|, HashesOf(P, Chunks(data)), false)
  }

  /** `compute_file_metadata_plain`: sequential reads, hashing what each returned. */
  method ComputeFileMetadataPlain(P: Primitives, name: string, f: FileCursor) returns (m: FileMetadata)
    requires f.pos == 0
    modifies f`pos
    ensures m == ListPlain(P, name, f.data)
  {
    var size := |f.data|;
    var total := Announced(size);
    var hashes: seq<Bytes32> := [];
    var i := 0;
    while i < total
      invariant i <= Min(total, ChunkCount(size))
      invariant f.pos == Min(i * CHUNK_SIZE, size)
      invariant hashes == HashesOf(P, Chunks(f.data)[..i])
    {
      PieceBounds(f.data, i);
      var buf := f.Read(CHUNK_SIZE);
      if buf == [] {
        break;
      }
      assert buf == Piece(f.data, i) == Chunks(f.data)[i];
      HashesOfTake(P, Chunks(f.data), i);
      hashes := hashes + [P.hash(buf)];
      i := i + 1;
    }
    assert i == ChunkCount(size) by { PieceBounds(f.data, i); }
    assert Chunks(f.data)[..i] == Chunks(f.data);
    m := FileMetadata(name, total, size, hashes, false);
  }

  function ListVault(name: string, data: Bytes): Result<FileMetadata> {
    match ReadHeader(data)
    case Err(e) => Err(e)
    case Ok(h) =>
      match HashesAt(data, h.count)
      case Err(e) => Err(e)
      case Ok(hashes) => Ok(FileMetadata(name, h.count, h.size, hashes, true))
  }

  /** Any bytes are listed exactly when the header and every record head read, and then with what they say. */
  lemma ListVaultExactly(name: string, data: Bytes)
    ensures ListVault(name, data).Ok? <==>
              ReadHeader(data).Ok? && forall i | 0 <= i < ReadHeader(data).value.count :: HeadReadable(data, i)
    ensures ListVault(name, data).Ok? ==>
              var m, h := ListVault(name, data).value, ReadHeader(data).value;
              && m.fileName == name && m.totalChunks == |m.chunkHashes| == h.count && m.fileSize == h.size
              && forall i | 0 <= i < h.count :: m.chunkHashes[i] == HeadHash(data, i)
  {
    hide ReadHeader, HeadReadable, HeadHash;
    if ReadHeader(data).Ok? {
      ListingNeedsHeadsOnly(data, ReadHeader(data).value.count);
      if ListVault(name, data).Ok? { ListedHashes(data, ReadHeader(data).value.count); }
    }
  }

  lemma {:induction false} ListedHashes(data: Bytes, n: nat)
    requires HashesAt(data, n).Ok?
    ensures forall i | 0 <= i < n :: HeadReadable(data, i)
    ensures |HashesAt(data, n).value| == n && forall i | 0 <= i < n :: HashesAt(data, n).value[i] == HeadHash(data, i)
  {
    hide HeadReadable, HeadHash;
    if n > 0 { ListedHashes(data, n - 1); }
  }

  method ComputeFileMetadataVault(name: string, f: FileCursor) returns (r: Result<FileMetadata>)
    modifies f`pos
    ensures r == ListVault(name, f.data)
  {
    var hdr := ReadVaultHeader(f);
    if hdr.Err? {
      return Err(hdr.error);
    }
    var hashes := ReadVaultChunkHashes(f, hdr.value.count);
    if hashes.Err? {
      return Err(hashes.error);
    }
    return Ok(FileMetadata(name, hdr.value.count, hdr.value.size, hashes.value, true));
  }

  // ── Random access ───────────────────────────────────────────────────────

  /** Chunk `i` of a plaintext file. */
  function PlainChunk(data: Bytes, i: nat): Result<Bytes> {
    if i < ChunkCount(|data|) then Ok(Chunks(data)[i]) else Err(PastEnd)
  }

  /** Seek to `i * CHUNK_SIZE` and read once; reading nothing is an error. */
  method ReadPlainChunk(f: FileCursor, i: nat) returns (r: Result<Bytes>)
    modifies f`pos
    ensures r == PlainChunk(f.data, i)
  {
    PieceBounds(f.data, i);
    f.Seek(i * CHUNK_SIZE);
    var buf := f.Read(CHUNK_SIZE);
    if buf == [] {
      return Err(PastEnd);
    }
    assert buf == Piece(f.data, i);
    return Ok(buf);
  }

  /** The vault settings of a node. */
  datatype Vault = Vault(on: bool, key: Option<Bytes32>)

  /** `read_local_chunk_plain`: one chunk of a listed file, from the layout in use. */
  function LocalChunk(P: Primitives, files: map<string, Bytes>, rel: string, i: nat, vault: Vault): Result<Bytes> {
    if Unsafe(rel) then Err(UnsafePath)
    else if vault.on then
      match vault.key
      case None => Err(NoVaultKey)
      case Some(key) => if Vit(rel) in files then ReadChunk(P, key, files[Vit(rel)], i % U32) else Err(NotFound)
    else if rel in files then PlainChunk(files[rel], i) else Err(NotFound)
  }

  /**
    In the plaintext layout a chunk is read exactly for a harmless name, from a file that is there
    and goes on behind the place, and is the next bytes of it. In vault mode it takes a key and a
    container.
   */
  lemma LocalChunkExactly(P: Primitives, files: map<string, Bytes>, rel: string, i: nat, vault: Vault)
    ensures !vault.on ==>
              && (LocalChunk(P, files, rel, i, vault).Ok? <==>
                  Harmless(rel) && rel in files && i * CHUNK_SIZE < |files[rel]|)
              && (LocalChunk(P, files, rel, i, vault).Ok? ==>
                    LocalChunk(P, files, rel, i, vault).value
                    == files[rel][i * CHUNK_SIZE..][..Min(CHUNK_SIZE, |files[rel]| - i * CHUNK_SIZE)])
    ensures vault.on ==>
              && (LocalChunk(P, files, rel, i, vault).Ok? <==>
                  Harmless(rel) && vault.key.Some? && Vit(rel) in files
                  && ReadChunk(P, vault.key.value, files[Vit(rel)], i % U32).Ok?)
              && (LocalChunk(P, files, rel, i, vault).Ok? ==>
                    LocalChunk(P, files, rel, i, vault) == ReadChunk(P, vault.key.value, files[Vit(rel)], i % U32))
  {
    hide Unsafe, Harmless, ReadChunk;
    UnsafeExactly(rel);
    if rel in files { PieceBounds(files[rel], i); }
  }

  method ReadLocalChunk(P: Primitives, folder: Folder, rel: string, i: nat, vault: Vault) returns (r: Result<Bytes>)
    ensures r == LocalChunk(P, folder.files, rel, i, vault)
  {
    if Unsafe(rel) {
      return Err(UnsafePath);
    }
    if vault.on {
      if vault.key.None? {
        return Err(NoVaultKey);
      }
      r := folder.VaultReadChunk(P, Vit(rel), i % U32, vault.key.value);
    } else {
      if rel !in folder.files {
        return Err(NotFound);
      }
      var f := new FileCursor(folder.files[rel]);
      r := ReadPlainChunk(f, i);
    }
  }

  // ── Import ──────────────────────────────────────────────────────────────

  /** An empty file is imported as one empty chunk. */
  function Imported(data: Bytes): seq<Bytes> {
    if data == [] then [[]] else Chunks(data)
  }

  /** The read loop of `import_plaintext_dir_into_vault`. */
  method ImportChunks(f: FileCursor) returns (chunks: seq<Bytes>)
    requires f.pos == 0
    modifies f`pos
    ensures chunks == Imported(f.data)
  {
    chunks := [];
    var size := |f.data|;
    while true
      invariant |chunks| <= ChunkCount(size)
      invariant f.pos == Min(|chunks| * CHUNK_SIZE, size)
      invariant chunks == Chunks(f.data)[..|chunks|]
      decreases ChunkCount(size) - |chunks|
    {
      PieceBounds(f.data, |chunks|);
      var buf := f.Read(CHUNK_SIZE);
      if buf == [] {
        break;
      }
      assert buf == Piece(f.data, |chunks|) == Chunks(f.data)[|chunks|];
      chunks := chunks + [buf];
    }
    if chunks == [] {
      chunks := [[]];
    }
  }

  lemma ImportedFits(P: Primitives, s: Seal, data: Bytes)
    requires SealsCorrectly(P) && ChunkCount(|data|) < U32
    ensures Fits(P, s, Imported(data)) && Concat(Imported(data)) == data
  {
    var chunks := Imported(data);
    assert Concat(chunks) == data by {
      if data == [] {
        assert chunks[..0] == [];
      } else {
        ChunksConcatenate(data);
      }
    }
    forall i | 0 <= i < |chunks|
      ensures |Block(P, s, i, chunks[i])| < U32
    {
      ImportedChunkSize(data, i);
      DecryptEncrypt(P, s.key, s.nonces(i), chunks[i], VaultAad(s.uuid, i));
    }
  }

  lemma ImportedChunkSize(data: Bytes, i: nat)
    requires i < |Imported(data)|
    ensures |Imported(data)[i]| <= CHUNK_SIZE
  {
    if data != [] { PieceBounds(data, i); }
  }

  /**
    Importing a file and listing the container gives the count and size of listing the
    plaintext, and the same hashes exactly when the file is not empty.
   */
  lemma ImportKeepsListing(P: Primitives, s: Seal, name: string, data: Bytes) returns (vault: FileMetadata)
    requires SealsCorrectly(P) && ChunkCount(|data|) < U32
    ensures Fits(P, s, Imported(data)) && ListVault(name, Container(P, s, Imported(data))) == Ok(vault)
    ensures vault.fileName == ListPlain(P, name, data).fileName == name
    ensures vault.isVault && !ListPlain(P, name, data).isVault
    ensures vault.totalChunks == ListPlain(P, name, data).totalChunks
    ensures vault.fileSize == ListPlain(P, name, data).fileSize
    ensures vault.chunkHashes == ListPlain(P, name, data).chunkHashes <==> data != []
  {
    hide ListVault, Container, Fits, HashesOf, ChunkCount;
    var chunks := Imported(data);
    ImportedFits(P, s, data);
    ListContainer(P, s, name, chunks);
    vault := FileMetadata(name, |chunks|, TotalSize(chunks), HashesOf(P, chunks), true);
    ImportedCount(data);
  }

  lemma ImportedCount(data: Bytes)
    ensures |Imported(data)| == Announced(|data|)
    ensures data == [] <==> |Chunks(data)| == 0
  {
  }

  lemma ListContainer(P: Primitives, s: Seal, name: string, chunks: seq<Bytes>)
    requires SealsCorrectly(P) && Fits(P, s, chunks)
    ensures ListVault(name, Container(P, s, chunks))
         == Ok(FileMetadata(name, |chunks|, TotalSize(chunks), HashesOf(P, chunks), true))
  {
    RoundTrip(P, s, chunks);
  }
}
