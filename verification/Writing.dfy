/**
  When a completed download can be written: what vault mode needs of names, totals and chunk
  sizes, and that no file is left complete but unwritten while the surroundings do their part.
 */
module Writing {
  import opened Basics
  import opened Crypto
  import opened Paths
  import opened VaultFormat
  import opened VaultIo
  import opened Chunking
  import opened Listing
  import opened Reassembly
  import opened Download
  import opened TransferSafety
  import opened Network

  // ── What writing needs ──────────────────────────────────────────────────

  /** Vault mode needs a key, and can only store safe names and 32-bit totals; plaintext mode needs nothing. */
  ghost predicate Writable(cfg: Config, src: map<string, PendingFile>) {
    cfg.vault.on ==>
      && cfg.vault.key.Some? && SealsCorrectly(cfg.P)
      && forall n | n in src :: !Unsafe(n) && src[n].total < U32
  }

  /** A sealed chunk has to fit the length field of its record. */
  predicate FitsRecord(cfg: Config, chunk: Bytes) {
    cfg.vault.on ==> |chunk| + 28 < U32
  }

  ghost predicate Storable(cfg: Config, t: Transfer) {
    forall i | i in t.received :: FitsRecord(cfg, t.received[i])
  }

  ghost predicate AllStorable(cfg: Config, s: State) {
    forall n | n in s.active :: Storable(cfg, s.active[n])
  }

  /** No write fails, and no chunk that opens is too big to be stored. */
  predicate Obliging(cfg: Config, e: NetEvent) {
    match e
    case Listed(_, env) => env.failing == {}
    case ListedSealed(_, env) => env.failing == {}
    case Answer(_, ref, index, data, env) =>
      && env.failing == {}
      && (match Opened(cfg, ref, index, data) case Some(chunk) => FitsRecord(cfg, chunk) case None => true)
    case _ => true
  }

  lemma WriteSucceeds(cfg: Config, files: map<string, Bytes>, t: Transfer, d: Draw)
    requires cfg.vault.on ==> cfg.vault.key.Some? && SealsCorrectly(cfg.P) && !Unsafe(t.file.name) && t.file.total < U32
    requires Storable(cfg, t) && Missing(t.received, t.file.total) == []
    ensures ReassembleOutcome(cfg.P, files, cfg.vault, t.file.name, t.file.total, t.received, d).0.Ok?
  {
    if cfg.vault.on {
      NoneMissing(t.received, t.file.total);
      BlocksFit(cfg.P, Seal(cfg.vault.key.value, d.uuid, d.nonces), ChunkList(t.received, t.file.total));
    }
  }

  lemma BlocksFit(P: Primitives, s: Seal, chunks: seq<Bytes>)
    requires SealsCorrectly(P) && |chunks| < U32 && forall i | 0 <= i < |chunks| :: |chunks[i]| + 28 < U32
    ensures FirstTooBig(P, s, chunks, 0) == |chunks|
  {
    forall i | 0 <= i < |chunks| ensures |Block(P, s, i, chunks[i])| < U32 {
      DecryptEncrypt(P, s.key, s.nonces(i), chunks[i], VaultAad(s.uuid, i));
    }
  }

  // ── Every active file still lacks a chunk ───────────────────────────────

  ghost predicate Pending(s: State) {
    forall n | n in s.active :: Missing(s.active[n].received, s.active[n].file.total) != []
  }

  /** A complete file is written, and the scheduler runs. */
  lemma CompleteRetires(cfg: Config, src: map<string, PendingFile>, s: State, n: string, env: Env)
    returns (files: map<string, Bytes>)
    requires Writable(cfg, src) && n in s.active && FromListing(src, s.active[n].file) && s.active[n].file.name == n
    requires Storable(cfg, s.active[n]) && env.failing == {}
    requires Missing(s.active[n].received, s.active[n].file.total) == []
    ensures Complete(cfg, s, n, env) == StartQueued(cfg, Retired(s, n, files), env)
  {
    var t := s.active[n];
    WriteSucceeds(cfg, s.files, t, env.draw);
    hide StartQueued, ReassembleOutcome, Missing;
    files := ReassembleOutcome(cfg.P, s.files, cfg.vault, t.file.name, t.file.total, t.received, env.draw).1;
  }

  lemma {:induction false} ReusedChunksFit(P: Primitives, files: map<string, Bytes>, hashes: seq<Bytes32>, n: nat)
    requires n <= |hashes|
    ensures forall i | i in ReusableUpTo(P, files, hashes, n) :: |ReusableUpTo(P, files, hashes, n)[i]| <= CHUNK_SIZE
  {
    hide DedupSource;
    if n > 0 {
      ReusedChunksFit(P, files, hashes, n - 1);
      LocalChunkFits(P, files, hashes[n - 1]);
    }
  }

  lemma LocalChunkFits(P: Primitives, files: map<string, Bytes>, h: Bytes32)
    ensures DedupSource(P, files, h).Some? ==> |DedupSource(P, files, h).value| <= CHUNK_SIZE
  {
    hide FirstWith, PlainListing;
    if DedupSource(P, files, h).Some? {
      var loc := FirstWith(PlainListing(P, files), h).value;
      PieceBounds(files[loc.0], loc.1);
    }
  }

  lemma BegunStorable(cfg: Config, files: map<string, Bytes>, file: PendingFile)
    ensures Storable(cfg, Begun(file, Reusable(cfg.P, files, file)))
  {
    hide Missing;
    ReusedChunksFit(cfg.P, files, file.hashes, |file.hashes|);
  }

  lemma {:induction false} StartQueuedPends(cfg: Config, s: State, env: Env)
    requires Pending(s) && AllStorable(cfg, s)
    ensures var s' := StartQueued(cfg, s, env).state; Pending(s') && AllStorable(cfg, s')
    decreases |s.queue|
  {
    if |s.active| < MAX_CONCURRENT_FILES && s.queue != [] {
      var file := s.queue[0];
      StartOneCases(cfg, s, env);
      BegunStorable(cfg, s.files, file);
      assert Pending(StartOne(cfg, s, env).state) && AllStorable(cfg, StartOne(cfg, s, env).state) by {
        hide StartOne, Reusable, Storable, Missing;
      }
      StartQueuedPends(cfg, StartOne(cfg, s, env).state, env);
    }
  }

  lemma AcceptPends(cfg: Config, src: map<string, PendingFile>, s: State, n: string, via: FileRef, index: nat,
                    chunk: Bytes, digest: Bytes32, env: Env)
    requires WellFormed(src) && Known(cfg, src, s) && Writable(cfg, src) && n in s.active
    requires Pending(s) && AllStorable(cfg, s) && FitsRecord(cfg, chunk) && env.failing == {}
    ensures var s' := Accept(cfg, s, n, via, index, chunk, digest, env).state; Pending(s') && AllStorable(cfg, s')
  {
    var t := s.active[n];
    assert TransferKnown(cfg, src, s.inbound, t);
    hide Complete, Missing, StartQueued, Advance;
    if index < |t.file.hashes| && t.file.hashes[index] == digest {
      var t1 := Stored(t, index, chunk);
      var s1 := s.(active := s.active[n := t1]);
      assert Storable(cfg, t1) by { assert Storable(cfg, t); }
      CountingWithinRange(t1.received, t.file.total);
      if Missing(t1.received, t.file.total) == [] {
        var files := CompleteRetires(cfg, src, s1, n, env);
        StartQueuedPends(cfg, Retired(s1, n, files), env);
      }
    }
  }

  lemma {:induction false} TickPends(cfg: Config, s: State, silent: seq<string>)
    requires Pending(s) && AllStorable(cfg, s)
    ensures var s' := OnTick(s, silent).state; Pending(s') && AllStorable(cfg, s')
  {
    TickKeepsLog(s, silent);
    hide OnTick, Missing;
  }

  lemma AnswerPends(cfg: Config, src: map<string, PendingFile>, s: State, e: NetEvent)
    requires WellFormed(src) && Known(cfg, src, s) && Writable(cfg, src) && e.Answer? && Obliging(cfg, e)
    requires Pending(s) && AllStorable(cfg, s)
    ensures var s' := Step(cfg, s, ToEvent(e)).state; Pending(s') && AllStorable(cfg, s')
  {
    hide OpenResponse, Accept, Opened, Pending, AllStorable, Known, Writable, FitsRecord;
    var a := OpenResponse(cfg, s, e.ref, e.index, e.data);
    if a.Arrived? {
      AcceptPends(cfg, src, s, a.name, e.ref, Ask(e.ref, e.index).index, a.chunk, a.digest, e.env);
    }
  }

  /** So it stays in every event, as long as no write fails. */
  lemma StepPends(cfg: Config, src: map<string, PendingFile>, s: State, e: NetEvent)
    requires WellFormed(src) && Known(cfg, src, s) && Writable(cfg, src) && Obliging(cfg, e) && !e.Lose?
    requires Pending(s) && AllStorable(cfg, s)
    ensures var s' := Step(cfg, s, ToEvent(e)).state; Pending(s') && AllStorable(cfg, s')
  {
    match e
    case Answer(_, _, _, _, _) =>
      AnswerPends(cfg, src, s, e);
    case Silence(silent) => TickPends(cfg, s, silent);
    case Listed(entries, env) =>
      hide StartQueued, Missing;
      EnqueueKeeps(cfg, s, PlainFiles(entries));
      StartQueuedPends(cfg, Enqueue(cfg, s, PlainFiles(entries)), env);
    case ListedSealed(entries, env) =>
      hide StartQueued, Missing;
      var s1 := s.(inbound := InboundIds(entries));
      EnqueueKeeps(cfg, s1, SealedFiles(entries));
      StartQueuedPends(cfg, Enqueue(cfg, s1, SealedFiles(entries)), env);
    case FolderChange(_) =>
  }
}
