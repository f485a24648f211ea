/**
  Sender and receiver in the plaintext protocol: the manifest is the sender's own listing, chunks
  are asked for by name and sealed under the connection's key if there is one. What is listed comes
  across, byte for byte.
 */
module PlainTransfer {
  import opened Basics
  import opened Crypto
  import opened Paths
  import opened VaultFormat
  import opened Chunking
  import opened Listing
  import opened Reassembly
  import opened Download
  import opened TransferSafety
  import opened Network
  import opened Writing
  import opened Liveness
  import opened Outcomes
  import opened Serving
  import opened EndToEnd

  /** `get_manifest`: the plaintext listing, entry by entry. */
  function PlainEntries(listing: seq<FileMetadata>): (entries: seq<FileEntry>)
    ensures |entries| == |listing|
  {
    seq(|listing|, k requires 0 <= k < |listing| =>
      FileEntry(listing[k].fileName, listing[k].fileSize, listing[k].totalChunks, listing[k].chunkHashes))
  }

  /** What a receiver should make of each file of the sender's folder. */
  function Offered(P: Primitives, name: string, data: Bytes): PendingFile {
    PendingFile(name, ChunkCount(|data|), |data|, HashesOf(P, Chunks(data)), None)
  }

  function FolderSource(P: Primitives, files: map<string, Bytes>): map<string, PendingFile> {
    map n | n in files && !IsVit(n) :: Offered(P, n, files[n])
  }

  /** No file of the folder is empty, and every name may be read. */
  ghost predicate Sendable(files: map<string, Bytes>) {
    forall n | n in files && !IsVit(n) :: files[n] != [] && Harmless(n)
  }

  lemma OfferedIsListed(P: Primitives, n: string, data: Bytes)
    requires data != []
    ensures var m := ListPlain(P, n, data);
      Plain(FileEntry(m.fileName, m.fileSize, m.totalChunks, m.chunkHashes)) == Offered(P, n, data)
  {
    ImportedCount(data);
    assert ListPlain(P, n, data).chunkHashes == HashesOf(P, Chunks(data));
  }

  /** The manifest offers each file of the folder under its name, with its count, size and hashes. */
  lemma PlainManifestIsStatic(P: Primitives, files: map<string, Bytes>, env: Env)
    requires Sendable(files)
    ensures WellFormed(FolderSource(P, files))
    ensures var entries := PlainEntries(PlainListing(P, files));
      && Static(FolderSource(P, files), Listed(entries, env))
      && forall n | n in files && !IsVit(n) :: exists k | 0 <= k < |entries| :: entries[k].name == n
  {
    hide PlainListing, ListPlain, IsVit, Harmless, HashesOf, Plain, ChunkCount;
    var listing := PlainListing(P, files);
    var entries := PlainEntries(listing);
    forall k | 0 <= k < |entries| ensures FromListing(FolderSource(P, files), Plain(entries[k])) {
      var n := listing[k].fileName;
      ListedExactly(P, files, n);
      OfferedIsListed(P, n, files[n]);
    }
    forall n | n in files && !IsVit(n) ensures exists k | 0 <= k < |entries| :: entries[k].name == n {
      ListedExactly(P, files, n);
      var k :| 0 <= k < |listing| && listing[k].fileName == n;
      assert entries[k].name == n;
    }
  }

  /** The answer is what the sender serves for the request, under the same key or with none on both sides. */
  ghost predicate HonestByName(cfg: Config, files: map<string, Bytes>, q: Request, data: Bytes) {
    q.ref.ByName?
    && exists nonce: Bytes12 :: ServePlain(cfg.P, files, cfg.key, q.ref.name, q.index, nonce) == Ok(data)
  }

  /** It is never a reason to ask again. */
  lemma HonestByNameIsUseful(cfg: Config, files: map<string, Bytes>, s: State, q: Request, data: Bytes)
    requires SealsCorrectly(cfg.P) && Sendable(files) && Known(cfg, FolderSource(cfg.P, files), s)
    requires KnownRequest(FolderSource(cfg.P, files), q) && HonestByName(cfg, files, q, data)
    ensures Useful(cfg, s, q, data)
  {
    hide Harmless, IsVit, ServePlain, OpenChunk, HashesOf, ListPlain;
    var src := FolderSource(cfg.P, files);
    var n :| n in src && Ref(src[n]) == q.ref && q.index < src[n].total;
    var nonce: Bytes12 :| ServePlain(cfg.P, files, cfg.key, n, q.index, nonce) == Ok(data);
    if n in s.active {
      HonestPlainChunkVerifies(cfg, s, files, n, q.index, nonce);
      OfferedIsListed(cfg.P, n, files[n]);
      assert TransferKnown(cfg, src, s.inbound, s.active[n]);
    } else {
      NotActiveIsIgnored(cfg, files, s, n, q.index, nonce);
    }
  }

  lemma NotActiveIsIgnored(cfg: Config, files: map<string, Bytes>, s: State, n: string, i: nat, nonce: Bytes12)
    requires SealsCorrectly(cfg.P) && n !in s.active && ServePlain(cfg.P, files, cfg.key, n, i, nonce).Ok?
    ensures OpenChunk(cfg, s, n, ServePlain(cfg.P, files, cfg.key, n, i, nonce).value) == Ignored
  {
    if cfg.key.Some? {
      DecryptEncrypt(cfg.P, cfg.key.value, nonce, LocalChunk(cfg.P, files, n, i, NO_VAULT).value, []);
    }
    hide LocalChunk, Encrypt, Decrypt;
  }

  ghost predicate HonestByNameRun(cfg: Config, files: map<string, Bytes>, events: seq<NetEvent>) {
    forall k | 0 <= k < |events| && events[k].Answer? :: HonestByName(cfg, files, events[k].req, events[k].data)
  }

  /** So each honest answer brings the end closer: there are at most as many as the measure says. */
  lemma {:induction false} HonestByNameCounts(cfg: Config, files: map<string, Bytes>, sys: Sys, events: seq<NetEvent>)
    requires SealsCorrectly(cfg.P) && Sendable(files)
    requires Healthy(cfg, FolderSource(cfg.P, files), sys) && Writable(cfg, FolderSource(cfg.P, files))
    requires Lossless(cfg, FolderSource(cfg.P, files), sys, events)
    requires OnlyAnswers(events) && HonestByNameRun(cfg, files, events)
    ensures |events| + Measure(NetRun(cfg, sys, events)) <= Measure(sys)
  {
    hide Measure, NetStep, FolderSource, HonestByName, Healthy, Static, Writable, Obliging, SealsCorrectly, Sendable;
    if events != [] {
      var src, rest, e := FolderSource(cfg.P, files), events[..|events| - 1], events[|events| - 1];
      HonestByNameCounts(cfg, files, sys, rest);
      LosslessRunsStayHealthy(cfg, src, sys, rest);
      HonestByNameLowersMeasure(cfg, files, NetRun(cfg, sys, rest), e);
    }
  }

  lemma HonestByNameLowersMeasure(cfg: Config, files: map<string, Bytes>, sys: Sys, e: NetEvent)
    requires SealsCorrectly(cfg.P) && Sendable(files) && Healthy(cfg, FolderSource(cfg.P, files), sys)
    requires e.Answer? && AsRequested(e) && Enabled(sys, e) && HonestByName(cfg, files, e.req, e.data)
    ensures Measure(NetStep(cfg, sys, e)) < Measure(sys)
  {
    assert e.req in sys.net;
    hide NetStep, Measure, HonestByName, Sendable, FolderSource, Known, Useful;
    HonestByNameIsUseful(cfg, files, sys.s, e.req, e.data);
    AnswerRetriesOrProgresses(cfg, FolderSource(cfg.P, files), sys, e);
  }

  /**
    Once a lossless run that begins with the folder's manifest has come to rest, each of its files
    that was absent is in the receiver's folder with the very bytes it has at the sender's, or is a
    counterfeit - as long as, in vault mode, no manifest lists what is stored already.
   */
  lemma PlainFolderIsDelivered(cfg: Config, sent: map<string, Bytes>, files: map<string, Bytes>, env: Env,
                               rest: seq<NetEvent>, n: string)
    requires Sendable(sent) && n in sent && !IsVit(n) && Free(cfg, files, n)
    requires Writable(cfg, FolderSource(cfg.P, sent)) && Apart(cfg, FolderSource(cfg.P, sent))
    requires var src, start := FolderSource(cfg.P, sent), Sys(Fresh(files), multiset{});
      var events := [Listed(PlainEntries(PlainListing(cfg.P, sent)), env)] + rest;
      && Lossless(cfg, src, start, events) && AlwaysElsewhere(cfg, src, start, events)
      && AlwaysNew(cfg, start, events) && NetRun(cfg, start, events).net == multiset{}
    ensures var events := [Listed(PlainEntries(PlainListing(cfg.P, sent)), env)] + rest;
      var end := NetRun(cfg, Sys(Fresh(files), multiset{}), events).s;
      exists content ::
        && OnDisk(cfg, end.files, Offered(cfg.P, n, sent[n]), content)
        && (content == sent[n] || exists pieces :: Counterfeit(cfg, content, Chunks(sent[n]), pieces))
  {
    hide PlainListing, IsVit, NetRun, Lossless, AlwaysElsewhere, AlwaysNew, Writable, Apart, Free, OnDisk, Counterfeit,
        Harmless, Chunks, HashesOf, WellFormed, Static, ListedFrom;
    var src, first := FolderSource(cfg.P, sent), Listed(PlainEntries(PlainListing(cfg.P, sent)), env);
    PlainManifestIsStatic(cfg.P, sent, env);
    var k :| 0 <= k < |first.entries| && first.entries[k].name == n;
    NameInOrder(first, k);
    AbsentFilesArrive(cfg, src, files, first, rest, k);
    var end := NetRun(cfg, Sys(Fresh(files), multiset{}), [first] + rest).s;
    assert src[n] == Offered(cfg.P, n, sent[n]);
    var content :| Finished(src[n], content) in end.log && OnDisk(cfg, end.files, src[n], content);
    GenuineOutcome(cfg, files, [first] + rest, src[n], content);
    OfferedFrom(cfg, n, sent[n]);
    CertifiedIsListed(cfg, src[n], content, Chunks(sent[n]));
    ChunksConcatenate(sent[n]);
  }

  lemma NameInOrder(e: NetEvent, k: nat)
    requires e.Listed? && k < |e.entries|
    ensures k < |FilesIn(e)| && FilesIn(e)[k].name == e.entries[k].name
  {
  }

  lemma OfferedFrom(cfg: Config, n: string, data: Bytes)
    ensures ListedFrom(cfg, Offered(cfg.P, n, data), Chunks(data))
  {
  }
}
