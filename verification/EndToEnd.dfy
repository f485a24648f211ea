/**
  Sender and receiver together: a sender that serves what it lists, a receiver with the same
  key, and a network that loses nothing bring every listed file across, byte for byte.
 */
module EndToEnd {
  import opened Basics
  import opened Crypto
  import opened Paths
  import opened VaultFormat
  import opened Chunking
  import opened Listing
  import opened Reassembly
  import opened Download
  import opened TransferSafety
  import opened Network
  import opened Writing
  import opened Liveness
  import opened Outcomes
  import opened Recovery
  import opened Serving

  // ── A sender that serves what it lists ──────────────────────────────────

  /** The listed file can be read chunk by chunk, and these are its chunks. */
  ghost predicate Serves(o: Sender, m: FileMetadata, chunks: seq<Bytes>) {
    && |chunks| == |m.chunkHashes| == m.totalChunks < U32
    && forall i | 0 <= i < |chunks| ::
         && LocalChunk(o.P, o.files, m.fileName, i, o.vault) == Ok(chunks[i])
         && m.chunkHashes[i] == o.P.hash(chunks[i])
  }

  /** A plaintext file does exactly when it is not empty and its name may be read. */
  lemma PlainFileServes(o: Sender, m: FileMetadata)
    requires !o.vault.on && ListedBy(o, m) && m.totalChunks < U32
    ensures Serves(o, m, Chunks(o.files[m.fileName])) <==> o.files[m.fileName] != [] && !Unsafe(m.fileName)
    ensures Concat(Chunks(o.files[m.fileName])) == o.files[m.fileName]
  {
    var data := o.files[m.fileName];
    ChunksConcatenate(data);
    ImportedCount(data);
    if Unsafe(m.fileName) && data != [] {
      assert LocalChunk(o.P, o.files, m.fileName, 0, o.vault).Err?;
    }
  }

  /** A container of our own does with the chunks it was written from. */
  lemma VaultFileServes(o: Sender, m: FileMetadata, s: Seal, chunks: seq<Bytes>)
    requires o.vault.on && ListedBy(o, m) && !Unsafe(m.fileName)
    requires SealsCorrectly(o.P) && OwnContainer(o, m, s, chunks)
    ensures Serves(o, m, chunks)
  {
    ListContainer(o.P, s, m.fileName, chunks);
    RoundTrip(o.P, s, chunks);
    forall i | 0 <= i < |chunks|
      ensures LocalChunk(o.P, o.files, m.fileName, i, o.vault) == Ok(chunks[i])
    {
      FieldKeeps(i);
    }
  }

  // ── Its listing, as the receiver queues it ──────────────────────────────

  function Source(P: Primitives, key: Bytes32, listing: seq<FileMetadata>): map<string, PendingFile> {
    if listing == [] then map[] else
    var m := listing[|listing| - 1];
    Source(P, key, listing[..|listing| - 1])[m.fileName := Sealed(EntryFor(P, key, m))]
  }

  ghost predicate DistinctNames(listing: seq<FileMetadata>) {
    forall j, k | 0 <= j < k < |listing| :: listing[j].fileName != listing[k].fileName
  }

  /** What is queued under a name is the entry of the listed file with that name. */
  lemma {:induction false} SourceOf(P: Primitives, key: Bytes32, listing: seq<FileMetadata>, n: string) returns (k: nat)
    requires DistinctNames(listing) && n in Source(P, key, listing)
    ensures k < |listing| && listing[k].fileName == n
    ensures Source(P, key, listing)[n] == Sealed(EntryFor(P, key, listing[k]))
    decreases |listing|
  {
    var last := |listing| - 1;
    hide EntryFor;
    k := last;
    if listing[last].fileName != n {
      k := SourceOf(P, key, listing[..last], n);
    }
  }

  /** Every listed file is served, with the chunks recorded for it. */
  ghost predicate ServesAll(o: Sender, listing: seq<FileMetadata>, contents: map<string, seq<Bytes>>) {
    && DistinctNames(listing) && DistinctIds(o.P, o.key, listing)
    && forall k | 0 <= k < |listing| ::
         listing[k].fileName in contents && Serves(o, listing[k], contents[listing[k].fileName])
  }

  lemma SourceEntry(o: Sender, listing: seq<FileMetadata>, contents: map<string, seq<Bytes>>,
          n: string) returns (k: nat)
    requires ServesAll(o, listing, contents) && n in Source(o.P, o.key, listing)
    ensures k < |listing| && listing[k].fileName == n && n in contents && Serves(o, listing[k], contents[n])
    ensures Source(o.P, o.key, listing)[n]
         == PendingFile(n, listing[k].totalChunks, listing[k].fileSize, Blinded(o.P, o.key, listing[k].chunkHashes),
                        Some(BlindName(o.P, o.key, n)))
  {
    k := SourceOf(o.P, o.key, listing, n);
    assert Serves(o, listing[k], contents[n]);
    FieldKeeps(listing[k].totalChunks);
    hide Source, Blinded, BlindName;
  }

  lemma IdsApart(o: Sender, listing: seq<FileMetadata>, contents: map<string, seq<Bytes>>, m: string, n: string)
    requires ServesAll(o, listing, contents)
    requires m in Source(o.P, o.key, listing) && n in Source(o.P, o.key, listing)
    requires Source(o.P, o.key, listing)[m].fileId == Source(o.P, o.key, listing)[n].fileId
    ensures m == n
  {
    var j := SourceEntry(o, listing, contents, m);
    var k := SourceEntry(o, listing, contents, n);
    hide Source, BlindName, Serves, Blinded;
  }

  lemma SourceIsWellFormed(o: Sender, listing: seq<FileMetadata>, contents: map<string, seq<Bytes>>)
    requires ServesAll(o, listing, contents)
    ensures WellFormed(Source(o.P, o.key, listing))
    ensures forall n | n in Source(o.P, o.key, listing) :: Source(o.P, o.key, listing)[n].fileId.Some?
  {
    var src := Source(o.P, o.key, listing);
    hide Source, ServesAll;
    forall n | n in src ensures src[n].name == n && |src[n].hashes| == src[n].total < U32 && src[n].fileId.Some? {
      var k := SourceEntry(o, listing, contents, n);
    }
    forall m, n | m in src && n in src && src[m].fileId == src[n].fileId ensures m == n {
      IdsApart(o, listing, contents, m, n);
    }
  }

  // ── Honest answers ──────────────────────────────────────────────────────

  /** The answer is what the sender serves for the request. */
  ghost predicate Honest(o: Sender, listing: seq<FileMetadata>, q: Request, data: Bytes) {
    q.ref.ById? && q.index < U32
    && exists nonce: Bytes12 :: ServeEncrypted(o, IdTable(o.P, o.key, listing), q.ref.id, q.index, nonce) == Ok(data)
  }

  lemma HonestAnswerDecrypts(o: Sender, listing: seq<FileMetadata>, contents: map<string, seq<Bytes>>, q: Request,
          data: Bytes, n: string)
    requires SealsCorrectly(o.P) && ServesAll(o, listing, contents) && Honest(o, listing, q, data)
    requires n in Source(o.P, o.key, listing) && Ref(Source(o.P, o.key, listing)[n]) == q.ref
    requires q.index < Source(o.P, o.key, listing)[n].total
    ensures var file := Source(o.P, o.key, listing)[n];
      && q.index < |file.hashes|
      && VerifiesAt(o.P, o.key, q.ref.id, q.index, data, file.hashes[q.index])
  {
    var nonce: Bytes12 :| ServeEncrypted(o, IdTable(o.P, o.key, listing), q.ref.id, q.index, nonce) == Ok(data);
    var k := SourceEntry(o, listing, contents, n);
    IdsResolve(o.P, o.key, listing);
    assert IdTable(o.P, o.key, listing)[BlindName(o.P, o.key, n)] == n;
    var plain := contents[n][q.index];
    assert LocalChunk(o.P, o.files, n, q.index, o.vault) == Ok(plain);
    DecryptEncrypt(o.P, o.key, nonce, plain, ChunkAad(q.ref.id, q.index));
    hide LocalChunk, IdTable, BlindName, ChunkAad, Decrypt, Encrypt;
    assert data == Encrypt(o.P, o.key, nonce, plain, ChunkAad(q.ref.id, q.index));
  }

  /** To a receiver with the same key an honest answer is never a reason to ask again. */
  lemma HonestAnswerIsUseful(o: Sender, listing: seq<FileMetadata>, contents: map<string, seq<Bytes>>,
                             cfg: Config, s: State, q: Request, data: Bytes)
    requires SealsCorrectly(o.P) && ServesAll(o, listing, contents) && cfg.P == o.P && cfg.key == Some(o.key)
    requires Known(cfg, Source(o.P, o.key, listing), s) && KnownRequest(Source(o.P, o.key, listing), q)
    requires Honest(o, listing, q, data)
    ensures Useful(cfg, s, q, data)
  {
    var src := Source(o.P, o.key, listing);
    SourceIsWellFormed(o, listing, contents);
    var n :| n in src && Ref(src[n]) == q.ref && q.index < src[n].total;
    HonestAnswerDecrypts(o, listing, contents, q, data, n);
    AnswerResolves(cfg, src, s, n, q.index, data);
    FieldKeeps(q.index);
    hide Known, Source, Honest, ServesAll, WellFormed, Decrypt, ChunkAad, BlindHash;
  }

  /** So it makes a good round of recovery as well, in the encrypted protocol. */
  lemma HonestAnswerAnswers(o: Sender, listing: seq<FileMetadata>, contents: map<string, seq<Bytes>>,
                            cfg: Config, s: State, n: string, index: nat, data: Bytes)
    requires SealsCorrectly(o.P) && ServesAll(o, listing, contents) && cfg.P == o.P && cfg.key == Some(o.key)
    requires Known(cfg, Source(o.P, o.key, listing), s) && n in s.active && index < s.active[n].file.total
    requires Honest(o, listing, Request(Ref(s.active[n].file), index), data)
    ensures Answers(cfg, s, s.active[n].file, index, data)
  {
    var src := Source(o.P, o.key, listing);
    var q := Request(Ref(s.active[n].file), index);
    SourceIsWellFormed(o, listing, contents);
    ActiveIsKnown(cfg, src, s, n);
    AskIsPlain(src, n, index);
    HonestAnswerIsUseful(o, listing, contents, cfg, s, q, data);
    AnswerResolves(cfg, src, s, n, index, data);
    hide Known, Source, Honest, ServesAll, WellFormed, OpenResponse;
  }

  // ── Whole runs ──────────────────────────────────────────────────────────

  ghost predicate HonestRun(o: Sender, listing: seq<FileMetadata>, events: seq<NetEvent>) {
    forall k | 0 <= k < |events| && events[k].Answer? :: Honest(o, listing, events[k].req, events[k].data)
  }

  /**
    With an honest sender every single answer brings the end closer: between manifests there
    are at most as many answers as the measure says, and then no request is left.
   */
  lemma {:induction false} HonestAnswersAreCounted(o: Sender, listing: seq<FileMetadata>,
          contents: map<string, seq<Bytes>>,
                                                   cfg: Config, sys: Sys, events: seq<NetEvent>)
    requires SealsCorrectly(o.P) && ServesAll(o, listing, contents) && cfg.P == o.P && cfg.key == Some(o.key)
    requires Healthy(cfg, Source(o.P, o.key, listing), sys) && Writable(cfg, Source(o.P, o.key, listing))
    requires Lossless(cfg, Source(o.P, o.key, listing), sys, events)
    requires OnlyAnswers(events) && HonestRun(o, listing, events)
    ensures |events| + Measure(NetRun(cfg, sys, events)) <= Measure(sys)
  {
    hide Measure, NetStep, Source, ServesAll, Honest, Healthy, Static, Writable, Obliging, SealsCorrectly;
    if events != [] {
      var src, rest, e := Source(o.P, o.key, listing), events[..|events| - 1], events[|events| - 1];
      HonestAnswersAreCounted(o, listing, contents, cfg, sys, rest);
      LosslessRunsStayHealthy(cfg, src, sys, rest);
      HonestAnswerLowersMeasure(o, listing, contents, cfg, NetRun(cfg, sys, rest), e);
    }
  }

  lemma HonestAnswerLowersMeasure(o: Sender, listing: seq<FileMetadata>, contents: map<string, seq<Bytes>>,
                                  cfg: Config, sys: Sys, e: NetEvent)
    requires SealsCorrectly(o.P) && ServesAll(o, listing, contents) && cfg.P == o.P && cfg.key == Some(o.key)
    requires Healthy(cfg, Source(o.P, o.key, listing), sys)
    requires e.Answer? && AsRequested(e) && Enabled(sys, e) && Honest(o, listing, e.req, e.data)
    ensures Measure(NetStep(cfg, sys, e)) < Measure(sys)
  {
    assert e.req in sys.net;
    hide NetStep, Measure, Honest, ServesAll, Source, Known, Useful;
    HonestAnswerIsUseful(o, listing, contents, cfg, sys.s, e.req, e.data);
    AnswerRetriesOrProgresses(cfg, Source(o.P, o.key, listing), sys, e);
  }

  lemma {:induction false} NetRunIsGenuine(cfg: Config, files: map<string, Bytes>, events: seq<NetEvent>)
    ensures Genuine(cfg, NetRun(cfg, Sys(Fresh(files), multiset{}), events).s)
  {
    if events != [] {
      var before, e := NetRun(cfg, Sys(Fresh(files), multiset{}), events[..|events| - 1]), events[|events| - 1];
      NetRunIsGenuine(cfg, files, events[..|events| - 1]);
      if !e.Lose? { StepIsGenuine(cfg, before.s, ToEvent(e)); }
    }
  }

  /** The sender's own manifest repeats its listing. */
  lemma ManifestIsStatic(o: Sender, listing: seq<FileMetadata>, contents: map<string, seq<Bytes>>, env: Env)
    requires ServesAll(o, listing, contents)
    ensures Static(Source(o.P, o.key, listing), ListedSealed(Entries(o.P, o.key, listing), env))
  {
    hide Source, Entries, EntryFor, Sealed, Serves, DistinctIds, FromListing;
    var src, entries := Source(o.P, o.key, listing), Entries(o.P, o.key, listing);
    forall k | 0 <= k < |entries| ensures FromListing(src, Sealed(entries[k])) {
      EntryIsListed(o.P, o.key, listing, k);
    }
    forall n | n in src && src[n].fileId.Some? ensures exists k | 0 <= k < |entries| :: entries[k].name == n {
      var k := SourceOf(o.P, o.key, listing, n);
      EntryIsListed(o.P, o.key, listing, k);
    }
  }

  lemma EntryIsListed(P: Primitives, key: Bytes32, listing: seq<FileMetadata>, k: nat)
    requires DistinctNames(listing) && k < |listing|
    ensures Entries(P, key, listing)[k].name == listing[k].fileName
    ensures FromListing(Source(P, key, listing), Sealed(Entries(P, key, listing)[k]))
  {
    hide Source;
    SourceHas(P, key, listing, k);
    var j := SourceOf(P, key, listing, listing[k].fileName);
  }

  lemma {:induction false} SourceHas(P: Primitives, key: Bytes32, listing: seq<FileMetadata>, k: nat)
    requires k < |listing|
    ensures listing[k].fileName in Source(P, key, listing)
    decreases |listing|
  {
    hide EntryFor;
    if k < |listing| - 1 { SourceHas(P, key, listing[..|listing| - 1], k); }
  }

  /**
    The whole transfer. Once a lossless run that begins with the sender's manifest has come to
    rest, every listed file that was absent has been finished, is in the folder, and holds
    exactly the sender's bytes - or is a counterfeit, pieced together from clashing chunks.
   */
  lemma TransferDelivers(o: Sender, listing: seq<FileMetadata>, contents: map<string, seq<Bytes>>,
                         cfg: Config, files: map<string, Bytes>, env: Env, rest: seq<NetEvent>, k: nat)
    requires ServesAll(o, listing, contents) && cfg.P == o.P && cfg.key == Some(o.key)
    requires Writable(cfg, Source(o.P, o.key, listing)) && Apart(cfg, Source(o.P, o.key, listing))
    requires k < |listing| && Free(cfg, files, listing[k].fileName)
    requires var events := [ListedSealed(Entries(o.P, o.key, listing), env)] + rest;
      && Lossless(cfg, Source(o.P, o.key, listing), Sys(Fresh(files), multiset{}), events)
      && AlwaysElsewhere(cfg, Source(o.P, o.key, listing), Sys(Fresh(files), multiset{}), events)
      && NetRun(cfg, Sys(Fresh(files), multiset{}), events).net == multiset{}
    ensures var events := [ListedSealed(Entries(o.P, o.key, listing), env)] + rest;
      var end, n := NetRun(cfg, Sys(Fresh(files), multiset{}), events).s, listing[k].fileName;
      n in Source(o.P, o.key, listing) && n in contents && exists content ::
        && Finished(Source(o.P, o.key, listing)[n], content) in end.log
        && OnDisk(cfg, end.files, Source(o.P, o.key, listing)[n], content)
        && (content == Concat(contents[n]) || exists pieces :: Counterfeit(cfg, content, contents[n], pieces))
  {
    hide NetRun, Lossless, AlwaysElsewhere, AlwaysNew, Source, Writable, Apart, ServesAll, OnDisk, Counterfeit, Free,
        ListedFrom, EntryFor;
    var src, first, n := Source(o.P, o.key, listing), ListedSealed(Entries(o.P, o.key, listing), env),
        listing[k].fileName;
    NamesInOrder(o.P, o.key, listing, env, k);
    SourceIsWellFormed(o, listing, contents);
    EncryptedIsNew(cfg, src, Sys(Fresh(files), multiset{}), [first] + rest);
    AbsentFilesArrive(cfg, src, files, first, rest, k);
    var end := NetRun(cfg, Sys(Fresh(files), multiset{}), [first] + rest).s;
    var content :| Finished(src[n], content) in end.log && OnDisk(cfg, end.files, src[n], content);
    ListedContents(o, listing, contents, cfg, n);
    GenuineOutcome(cfg, files, [first] + rest, src[n], content);
    CertifiedIsListed(cfg, src[n], content, contents[n]);
  }

  lemma NamesInOrder(P: Primitives, key: Bytes32, listing: seq<FileMetadata>, env: Env, k: nat)
    requires k < |listing|
    ensures var files := FilesIn(ListedSealed(Entries(P, key, listing), env));
      k < |files| && files[k].name == listing[k].fileName
  {
  }

  lemma GenuineOutcome(cfg: Config, files: map<string, Bytes>, events: seq<NetEvent>, file: PendingFile, content: Bytes)
    requires Finished(file, content) in NetRun(cfg, Sys(Fresh(files), multiset{}), events).s.log
    ensures OutcomeOk(cfg, Finished(file, content))
  {
    NetRunIsGenuine(cfg, files, events);
  }

  lemma ListedContents(o: Sender, listing: seq<FileMetadata>, contents: map<string, seq<Bytes>>, cfg: Config, n: string)
    requires ServesAll(o, listing, contents) && cfg.P == o.P && cfg.key == Some(o.key)
    requires n in Source(o.P, o.key, listing)
    ensures n in contents && ListedFrom(cfg, Source(o.P, o.key, listing)[n], contents[n])
  {
    var k := SourceEntry(o, listing, contents, n);
    hide LocalChunk, Source, ServesAll;
  }

  // ── A whole folder ──────────────────────────────────────────────────────

  /** The chunks of the files that the plaintext listing shows. */
  function ContentsOf(files: map<string, Bytes>): map<string, seq<Bytes>> {
    map n | n in files && !IsVit(n) :: Chunks(files[n])
  }

  /** Plaintext layout; every file that is no container has something in it, a harmless name, and a size that fits. */
  ghost predicate Servable(o: Sender) {
    && !o.vault.on
    && forall n | n in o.files && !IsVit(n) :: o.files[n] != [] && Harmless(n) && ChunkCount(|o.files[n]|) < U32
  }

  /** The derivation of ids, cut to 16 bytes, tells these names apart. */
  ghost predicate NamesApart(o: Sender, names: set<string>) {
    EncodesApart(o.P) && forall m, n | m in names && n in names ::
      ApartAsIds(o.P, o.key + [0] + o.P.utf8(m), o.key + [0] + o.P.utf8(n))
  }

  /** The sender's own listing of such a folder is served completely: nothing more is asked of it. */
  lemma FolderServesAll(o: Sender)
    requires Servable(o) && NamesApart(o, PlainNames(o.files))
    ensures ServesAll(o, PlainListing(o.P, o.files), ContentsOf(o.files))
  {
    var listing := PlainListing(o.P, o.files);
    hide PlainListing, IsVit, Harmless, ListPlain, ChunkCount, Serves, ApartAsIds;
    forall k | 0 <= k < |listing|
      ensures listing[k].fileName in ContentsOf(o.files)
      ensures Serves(o, listing[k], ContentsOf(o.files)[listing[k].fileName])
    {
      ListedExactly(o.P, o.files, listing[k].fileName);
      ListedFileServes(o, listing[k]);
    }
    forall j, k | 0 <= j < k < |listing| ensures listing[j].fileName != listing[k].fileName {
      ListedExactly(o.P, o.files, listing[j].fileName);
      BeforeIsTotal(listing[j].fileName, listing[k].fileName);
    }
    IdsAreDistinct(o.P, o.key, listing);
  }

  lemma ListedFileServes(o: Sender, m: FileMetadata)
    requires Servable(o) && m.fileName in o.files && !IsVit(m.fileName)
    requires m == ListPlain(o.P, m.fileName, o.files[m.fileName])
    ensures Serves(o, m, ContentsOf(o.files)[m.fileName])
  {
    UnsafeExactly(m.fileName);
    ImportedCount(o.files[m.fileName]);
    PlainFileServes(o, m);
    hide Harmless, IsVit, Serves, ListPlain;
  }

  /**
    So the whole folder comes across: after a lossless run that begins with the sender's manifest
    and has come to rest, each of its files that was absent is in the receiver's folder with the
    very bytes it has at the sender's, or is a counterfeit.
   */
  lemma FolderIsDelivered(o: Sender, cfg: Config, files: map<string, Bytes>, env: Env, rest: seq<NetEvent>, n: string)
    requires Servable(o) && NamesApart(o, PlainNames(o.files)) && cfg.P == o.P && cfg.key == Some(o.key)
    requires n in o.files && !IsVit(n) && Free(cfg, files, n)
    requires var listing := PlainListing(o.P, o.files);
      var src, start := Source(o.P, o.key, listing), Sys(Fresh(files), multiset{});
      var events := [ListedSealed(Entries(o.P, o.key, listing), env)] + rest;
      && Writable(cfg, src) && Apart(cfg, src)
      && Lossless(cfg, src, start, events) && AlwaysElsewhere(cfg, src, start, events)
      && NetRun(cfg, start, events).net == multiset{}
    ensures var listing := PlainListing(o.P, o.files);
      var src := Source(o.P, o.key, listing);
      var end := NetRun(cfg, Sys(Fresh(files), multiset{}),
                        [ListedSealed(Entries(o.P, o.key, listing), env)] + rest).s;
      n in src && exists content ::
        && OnDisk(cfg, end.files, src[n], content)
        && (content == o.files[n] || exists pieces :: Counterfeit(cfg, content, Chunks(o.files[n]), pieces))
  {
    hide PlainListing, IsVit, Source, Entries, NetRun, Lossless, AlwaysElsewhere, Writable, Apart, Free, OnDisk,
        Counterfeit, Chunks, Servable, NamesApart, ServesAll;
    var listing := PlainListing(o.P, o.files);
    FolderServesAll(o);
    ListedExactly(o.P, o.files, n);
    var k :| 0 <= k < |listing| && listing[k].fileName == n;
    TransferDelivers(o, listing, ContentsOf(o.files), cfg, files, env, rest, k);
    ChunksConcatenate(o.files[n]);
  }
}
