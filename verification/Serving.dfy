/**
  The sending half: the encrypted manifest, the id table behind it, and the chunks served for
  it (src/storage.rs:514-554, 607-685), and what an honest sender and a receiver achieve together.
 */
module Serving {
  import opened Basics
  import opened Crypto
  import opened Paths
  import opened VaultFormat
  import opened Chunking
  import opened Listing
  import opened Reassembly
  import opened Download
  import opened TransferSafety

  // ── The encrypted manifest ──────────────────────────────────────────────

  function Blinded(P: Primitives, key: Bytes32, hashes: seq<Bytes32>): (bs: seq<Bytes32>)
    ensures |bs| == |hashes|
  {
    seq<Bytes32>(|hashes|, i requires 0 <= i < |hashes| => BlindHash(P, key, hashes[i]))
  }

  function EntryFor(P: Primitives, key: Bytes32, m: FileMetadata): EncryptedEntry {
    EncryptedEntry(m.fileName, BlindName(P, key, m.fileName), m.fileSize, m.totalChunks % U32,
        Blinded(P, key, m.chunkHashes))
  }

  function Entries(P: Primitives, key: Bytes32, listing: seq<FileMetadata>): (es: seq<EncryptedEntry>)
    ensures |es| == |listing|
  {
    seq(|listing|, k requires 0 <= k < |listing| => EntryFor(P, key, listing[k]))
  }

  /** Which file an id stands for; a later file with the same id takes it over. */
  function IdTable(P: Primitives, key: Bytes32, listing: seq<FileMetadata>): map<Bytes16, string> {
    if listing == [] then map[] else
    var m := listing[|listing| - 1];
    IdTable(P, key, listing[..|listing| - 1])[BlindName(P, key, m.fileName) := m.fileName]
  }

  /** The loop of `get_encrypted_manifest`. */
  method BuildManifest(P: Primitives, key: Bytes32, listing: seq<FileMetadata>)
    returns (entries: seq<EncryptedEntry>, ids: map<Bytes16, string>)
    ensures entries == Entries(P, key, listing) && ids == IdTable(P, key, listing)
  {
    entries, ids := [], map[];
    for k := 0 to |listing|
      invariant entries == Entries(P, key, listing[..k])
      invariant ids == IdTable(P, key, listing[..k])
    {
      assert listing[..k + 1][..k] == listing[..k];
      var m := listing[k];
      entries := entries + [EntryFor(P, key, m)];
      ids := ids[BlindName(P, key, m.fileName) := m.fileName];
    }
    assert listing[..|listing|] == listing;
  }

  ghost predicate DistinctIds(P: Primitives, key: Bytes32, listing: seq<FileMetadata>) {
    forall j, k | 0 <= j < k < |listing| && listing[j].fileName != listing[k].fileName ::
      BlindName(P, key, listing[j].fileName) != BlindName(P, key, listing[k].fileName)
  }

  /** Every id leads back to its own file exactly when no two listed names share an id. */
  lemma {:induction false} IdsResolve(P: Primitives, key: Bytes32, listing: seq<FileMetadata>)
    ensures (forall k | 0 <= k < |listing| ::
               var name := listing[k].fileName;
               BlindName(P, key, name) in IdTable(P, key, listing)
               && IdTable(P, key, listing)[BlindName(P, key, name)] == name)
            <==> DistinctIds(P, key, listing)
  {
    IdTableDomain(P, key, listing);
    var ids := IdTable(P, key, listing);
    if DistinctIds(P, key, listing) {
      forall k | 0 <= k < |listing|
        ensures BlindName(P, key, listing[k].fileName) in ids && ids[BlindName(P, key, listing[k].fileName)]
            == listing[k].fileName
      {
        var id := BlindName(P, key, listing[k].fileName);
        var j :| 0 <= j < |listing| && BlindName(P, key, listing[j].fileName) == id && ids[id] == listing[j].fileName;
      }
    }
  }

  /**
    Which they never do exactly when the derivation of ids, cut to 16 bytes, tells the names of
    the listing apart under the key.
   */
  lemma IdsAreDistinct(P: Primitives, key: Bytes32, listing: seq<FileMetadata>)
    requires EncodesApart(P)
    ensures DistinctIds(P, key, listing) <==>
              forall j, k | 0 <= j < |listing| && 0 <= k < |listing| ::
                ApartAsIds(P, key + [0] + P.utf8(listing[j].fileName), key + [0] + P.utf8(listing[k].fileName))
  {
    hide ApartAsIds;
    forall j, k | 0 <= j < |listing| && 0 <= k < |listing|
      ensures var m, n := listing[j].fileName, listing[k].fileName;
        ApartAsIds(P, key + [0] + P.utf8(m), key + [0] + P.utf8(n)) <==>
        (BlindName(P, key, m) == BlindName(P, key, n) ==> m == n)
    {
      IdApart(P, key, listing[j].fileName, listing[k].fileName);
    }
    hide BlindName;
  }

  lemma IdApart(P: Primitives, key: Bytes32, m: string, n: string)
    requires EncodesApart(P)
    ensures ApartAsIds(P, key + [0] + P.utf8(m), key + [0] + P.utf8(n)) <==>
              (BlindName(P, key, m) == BlindName(P, key, n) ==> m == n)
  {
    if ApartAsIds(P, key + [0] + P.utf8(m), key + [0] + P.utf8(n)) { IdsTellNamesApart(P, key, m, key, n); }
  }

  /** Then every id of the manifest leads back to its file. */
  lemma EveryIdResolves(P: Primitives, key: Bytes32, listing: seq<FileMetadata>, k: nat)
    requires EncodesApart(P) && k < |listing|
    requires forall i, j | 0 <= i < |listing| && 0 <= j < |listing| ::
               ApartAsIds(P, key + [0] + P.utf8(listing[i].fileName), key + [0] + P.utf8(listing[j].fileName))
    ensures Get(IdTable(P, key, listing), Entries(P, key, listing)[k].id) == Some(listing[k].fileName)
    ensures Entries(P, key, listing)[k].name == listing[k].fileName
  {
    hide ApartAsIds, IdTable;
    IdsAreDistinct(P, key, listing);
    IdsResolve(P, key, listing);
    hide BlindName, Blinded;
    assert var name := listing[k].fileName;
      BlindName(P, key, name) in IdTable(P, key, listing) && IdTable(P, key, listing)[BlindName(P, key, name)] == name;
  }

  lemma {:induction false} IdTableDomain(P: Primitives, key: Bytes32, listing: seq<FileMetadata>)
    ensures forall k | 0 <= k < |listing| :: BlindName(P, key, listing[k].fileName) in IdTable(P, key, listing)
    ensures forall id | id in IdTable(P, key, listing) :: exists j | 0 <= j < |listing| ::
              BlindName(P, key, listing[j].fileName) == id && IdTable(P, key, listing)[id] == listing[j].fileName
  {
    hide BlindName;
    if listing != [] {
      var rest, last := listing[..|listing| - 1], |listing| - 1;
      IdTableDomain(P, key, rest);
      var ids := IdTable(P, key, listing);
      forall id | id in ids
        ensures exists j | 0 <= j < |listing| ::
                  BlindName(P, key, listing[j].fileName) == id && ids[id] == listing[j].fileName
      {
        if id == BlindName(P, key, listing[last].fileName) {
          assert ids[id] == listing[last].fileName;
        } else {
          var j :| 0 <= j < |rest| && BlindName(P, key, rest[j].fileName) == id
              && IdTable(P, key, rest)[id] == rest[j].fileName;
          assert listing[j] == rest[j];
        }
      }
    }
  }

  // ── Serving chunks ──────────────────────────────────────────────────────

  /** A sender's folder and settings, and the nonce it draws for one reply. */
  datatype Sender = Sender(P: Primitives, files: map<string, Bytes>, vault: Vault, key: Bytes32)

  /** `get_encrypted_chunk` for an id of the table. */
  function ServeEncrypted(o: Sender, ids: map<Bytes16, string>, id: Bytes16, index: u32,
          nonce: Bytes12): Result<Bytes> {
    if id !in ids then Err(NotFound) else
    match LocalChunk(o.P, o.files, ids[id], index, o.vault)
    case Err(e) => Err(e)
    case Ok(plain) => Ok(Encrypt(o.P, o.key, nonce, plain, ChunkAad(id, index)))
  }

  /** `get_chunk`, which always reads the plaintext layout. */
  function ServePlain(P: Primitives, files: map<string, Bytes>, key: Option<Bytes32>, name: string, index: nat,
          nonce: Bytes12): Result<Bytes> {
    match LocalChunk(P, files, name, index, NO_VAULT)
    case Err(e) => Err(e)
    case Ok(plain) =>
      match key
      case Some(k) => Ok(Encrypt(P, k, nonce, plain, []))
      case None => Ok(plain)
  }

  /** The file as the sender lists it, from whichever layout is in use. */
  ghost predicate ListedBy(o: Sender, m: FileMetadata) {
    if o.vault.on then
      Vit(m.fileName) in o.files && ListVault(m.fileName, o.files[Vit(m.fileName)]) == Ok(m)
    else
      m.fileName in o.files && m == ListPlain(o.P, m.fileName, o.files[m.fileName])
  }

  /** In vault mode: the container is one that our writer made under our vault key. */
  ghost predicate OwnContainer(o: Sender, m: FileMetadata, s: Seal, chunks: seq<Bytes>) {
    && o.vault.key == Some(s.key) && Fits(o.P, s, chunks)
    && Vit(m.fileName) in o.files && o.files[Vit(m.fileName)] == Container(o.P, s, chunks)
  }

  /** Chunk `i` of a listed plaintext file is read exactly when its name is safe and a hash is listed for it. */
  lemma PlainChunkReads(o: Sender, m: FileMetadata, i: u32)
    requires !o.vault.on && ListedBy(o, m)
    ensures LocalChunk(o.P, o.files, m.fileName, i, o.vault).Ok? <==> !Unsafe(m.fileName) && i < |m.chunkHashes|
    ensures LocalChunk(o.P, o.files, m.fileName, i, o.vault).Ok? ==>
              o.P.hash(LocalChunk(o.P, o.files, m.fileName, i, o.vault).value) == m.chunkHashes[i]
  {
  }

  lemma VaultChunkReads(o: Sender, m: FileMetadata, i: u32, s: Seal, chunks: seq<Bytes>)
    requires o.vault.on && ListedBy(o, m) && SealsCorrectly(o.P) && OwnContainer(o, m, s, chunks)
    ensures LocalChunk(o.P, o.files, m.fileName, i, o.vault).Ok? <==> !Unsafe(m.fileName) && i < |m.chunkHashes|
    ensures LocalChunk(o.P, o.files, m.fileName, i, o.vault).Ok? ==>
              o.P.hash(LocalChunk(o.P, o.files, m.fileName, i, o.vault).value) == m.chunkHashes[i]
  {
    FieldKeeps(i);
    ListContainer(o.P, s, m.fileName, chunks);
    assert m.chunkHashes == HashesOf(o.P, chunks);
    var data := Container(o.P, s, chunks);
    assert data <= data;
    RoundTrip(o.P, s, chunks);
    TruncatedChunk(o.P, s, chunks, data, i);
    if i < |chunks| { RecordInPlace(o.P, s, chunks, i); }
    hide Container, ListVault, Fits, ReadChunk;
  }

  /** What a receiver holding the same key makes of a served chunk. */
  ghost predicate VerifiesAt(P: Primitives, key: Bytes32, id: Bytes16, i: u32, data: Bytes, blinded: Bytes32) {
    var plain := Decrypt(P, key, data, ChunkAad(id, i));
    plain.Ok? && BlindHash(P, key, P.hash(plain.value)) == blinded
  }

  /**
    Every chunk served for a listed id and index decrypts under its associated data and has
    the blinded hash of the manifest entry: honest chunks verify the first time, in both modes.
   */
  lemma HonestChunkVerifies(o: Sender, listing: seq<FileMetadata>, k: nat, i: u32, nonce: Bytes12, s: Seal,
          chunks: seq<Bytes>)
    requires SealsCorrectly(o.P) && DistinctIds(o.P, o.key, listing)
    requires k < |listing| && ListedBy(o, listing[k]) && !Unsafe(listing[k].fileName)
    requires i < |listing[k].chunkHashes|
    requires o.vault.on ==> OwnContainer(o, listing[k], s, chunks)
    ensures var id := Entries(o.P, o.key, listing)[k].id;
      var served := ServeEncrypted(o, IdTable(o.P, o.key, listing), id, i, nonce);
      served.Ok? && VerifiesAt(o.P, o.key, id, i, served.value, Entries(o.P, o.key, listing)[k].hashes[i])
  {
    var m := listing[k];
    var id := BlindName(o.P, o.key, m.fileName);
    IdsResolve(o.P, o.key, listing);
    assert IdTable(o.P, o.key, listing)[id] == m.fileName;
    if o.vault.on { VaultChunkReads(o, m, i, s, chunks); } else { PlainChunkReads(o, m, i); }
    DecryptEncrypt(o.P, o.key, nonce, LocalChunk(o.P, o.files, m.fileName, i, o.vault).value, ChunkAad(id, i));
    hide LocalChunk, ListedBy, OwnContainer, ChunkAad, IdTable, BlindName;
  }

  /**
    In the plaintext protocol, too: a chunk is served exactly when its name is safe and a hash
    is listed for it, and a receiver with the same key, or none on both sides, gets that hash.
   */
  lemma HonestPlainChunkVerifies(cfg: Config, s: State, files: map<string, Bytes>, name: string, i: nat, nonce: Bytes12)
    requires SealsCorrectly(cfg.P) && name in files && name in s.active
    ensures var m, served := ListPlain(cfg.P, name, files[name]), ServePlain(cfg.P, files, cfg.key, name, i, nonce);
      && (served.Ok? <==> !Unsafe(name) && i < |m.chunkHashes|)
      && (served.Ok? ==> var a := OpenChunk(cfg, s, name, served.value);
            a.Arrived? && a.name == name && a.digest == m.chunkHashes[i])
  {
    var plain := LocalChunk(cfg.P, files, name, i, NO_VAULT);
    if plain.Ok? && cfg.key.Some? {
      DecryptEncrypt(cfg.P, cfg.key.value, nonce, plain.value, []);
    }
    hide Encrypt, Decrypt, ChunkCount;
  }

  // ── What a reply opens as ───────────────────────────────────────────────

  /** The associated data with which a response of this label is opened. */
  function LabelAad(ref: FileRef, i: u32): Bytes {
    match ref
    case ById(id) => ChunkAad(id, i)
    case ByName(_) => []
  }

  /**
    A chunk served for an id and an index opens under the shared key as nothing else, if the
    cipher tells the associated data apart; and it is sealed with the nonce drawn for it.
   */
  lemma RepliesOpenAsThemselves(o: Sender, ids: map<Bytes16, string>, id: Bytes16, index: u32, nonce: Bytes12,
                                cfg: Config, ref: FileRef, i: u32)
    requires SealsCorrectly(o.P) && cfg.P == o.P && cfg.key == Some(o.key)
    requires ServeEncrypted(o, ids, id, index, nonce).Ok?
    requires TellsApart(o.P, o.key, ChunkAad(id, index), LabelAad(ref, i))
    ensures var data := ServeEncrypted(o, ids, id, index, nonce).value;
      && data[..12] == nonce
      && (Opened(cfg, ref, i, data).Some? <==> ref == ById(id) && i == index)
  {
    FieldKeeps(i);
    var plain := LocalChunk(o.P, o.files, ids[id], index, o.vault).value;
    DecryptEncrypt(o.P, o.key, nonce, plain, ChunkAad(id, index));
    DecryptChecksAad(o.P, o.key, nonce, plain, ChunkAad(id, index), LabelAad(ref, i));
    match ref {
      case ById(id') => AadsAreInjective(id, index, id', i);
      case ByName(_) =>
    }
    hide Decrypt, Encrypt, LocalChunk;
  }

  /** In the plaintext protocol a sealed chunk opens under every name and index: only its hash ties it down. */
  lemma PlainRepliesOpenAsAnything(cfg: Config, files: map<string, Bytes>, key: Bytes32, name: string, index: nat,
                                   nonce: Bytes12, other: string, i: nat)
    requires SealsCorrectly(cfg.P) && cfg.key == Some(key)
    requires ServePlain(cfg.P, files, Some(key), name, index, nonce).Ok?
    ensures var data := ServePlain(cfg.P, files, Some(key), name, index, nonce).value;
      data[..12] == nonce && Opened(cfg, ByName(other), i, data).Some?
  {
    DecryptEncrypt(cfg.P, key, nonce, LocalChunk(cfg.P, files, name, index, NO_VAULT).value, []);
  }

  // ── What can never arrive ───────────────────────────────────────────────

  /** Only an entry that lists a hash for every chunk it announces is ever finished, in any run. */
  lemma FinishedEntriesListAllHashes(cfg: Config, files: map<string, Bytes>, events: seq<Event>, file: PendingFile,
          content: Bytes)
    requires Finished(file, content) in Run(cfg, Fresh(files), events).log
    ensures file.total <= |file.hashes|
  {
    RunStaysGenuine(cfg, files, events);
    assert OutcomeOk(cfg, Finished(file, content));
    var cs :| Certified(cfg, file, content, cs);
    if cs != [] {
      var last := |cs| - 1;
      assert last < |file.hashes|;
    }
  }

  /** For a plaintext file that is so exactly when it is not empty: an empty file never arrives. */
  lemma EmptyFilesAreNotTransferable(P: Primitives, name: string, data: Bytes)
    ensures ListPlain(P, name, data).totalChunks == |ListPlain(P, name, data).chunkHashes| <==> data != []
    ensures data == [] ==> PlainChunk(data, 0) == Err(PastEnd) && ListPlain(P, name, data).totalChunks == 1
  {
    ImportedCount(data);
  }

  /**
    A manifest that arrives while an encrypted file is downloading cuts the file off from its
    answers exactly when it does not carry the file's id again.
   */
  lemma ManifestMustRepeatIds(cfg: Config, s: State, id: Bytes16, n: string, entries: seq<EncryptedEntry>,
                              index: u32, plain: Bytes, nonce: Bytes12)
    requires SealsCorrectly(cfg.P) && cfg.key.Some? && n in s.active
    requires id in InboundIds(entries) ==> InboundIds(entries)[id] == n
    ensures var s1 := s.(inbound := InboundIds(entries));
      var data := Encrypt(cfg.P, cfg.key.value, nonce, plain, ChunkAad(id, index));
      OpenResponse(cfg, s1, ById(id), index, data) ==
      if id in InboundIds(entries)
      then Arrived(n, plain, BlindHash(cfg.P, cfg.key.value, cfg.P.hash(plain)))
      else Ignored
  {
    FieldKeeps(index);
    DecryptEncrypt(cfg.P, cfg.key.value, nonce, plain, ChunkAad(id, index));
  }
}
