/**
  The downloads from one peer as src/sync/handler.rs keeps them: a table, a queue and an id map
  updated in place, with requests appended to an outbox. Every handler is proved to do what
  Download says it does.
 */
module Downloader {
  import opened Basics
  import opened Crypto
  import opened Paths
  import opened VaultIo
  import opened Chunking
  import opened Listing
  import opened Reassembly
  import opened Download

  class PeerDownload {
    const cfg: Config
    const folder: Folder
    var active: map<string, Transfer>
    var queue: seq<PendingFile>
    var inbound: map<Bytes16, string>
    var outbox: seq<Request>
    ghost var queued: seq<PendingFile>
    ghost var popped: seq<PendingFile>
    ghost var log: seq<Outcome>

    constructor (cfg: Config, folder: Folder)
      ensures this.cfg == cfg && this.folder == folder && outbox == []
      ensures View() == Fresh(folder.files)
    {
      this.cfg, this.folder := cfg, folder;
      active, queue, inbound, outbox := map[], [], map[], [];
      queued, popped, log := [], [], [];
    }

    ghost function View(): State
      reads this, folder
    {
      State(active, queue, folder.files, inbound, queued, popped, log)
    }

    // ── Scheduler ─────────────────────────────────────────────────────────

    /** One lookup in the local index, followed by reading the chunk it points to. */
    method FindLocalChunk(index: map<Bytes32, (string, nat)>, h: Bytes32) returns (found: Option<Bytes>)
      requires IndexAgrees(index, PlainListing(cfg.P, folder.files))
      ensures found == DedupSource(cfg.P, folder.files, h)
    {
      assert FirstWith(PlainListing(cfg.P, folder.files), h) == if h in index then Some(index[h]) else None;
      if h !in index {
        return None;
      }
      var data := ReadLocalChunk(cfg.P, folder, index[h].0, index[h].1, NO_VAULT);
      found := match data case Ok(bytes) => Some(bytes) case Err(_) => None;
    }

    /** The dedup loop: chunks whose listed hash is found in the local index. */
    method ReuseLocalChunks(file: PendingFile) returns (received: map<nat, Bytes>)
      ensures received == Reusable(cfg.P, folder.files, file)
    {
      if file.fileId.Some? {
        return map[];
      }
      received := FindLocalChunks(file.hashes);
    }

    method FindLocalChunks(hashes: seq<Bytes32>) returns (received: map<nat, Bytes>)
      ensures received == ReusableUpTo(cfg.P, folder.files, hashes, |hashes|)
    {
      hide DedupSource, IndexAgrees, PlainListing;
      var index := BuildChunkIndex(cfg.P, folder);
      received := map[];
      for k := 0 to |hashes|
        invariant received == ReusableUpTo(cfg.P, folder.files, hashes, k)
      {
        var found := FindLocalChunk(index, hashes[k]);
        received := Added(received, k, found);
      }
    }

    method StartNextFile(env: Env)
      requires queue != []
      modifies this, folder
      ensures View() == StartOne(cfg, old(View()), env).state
      ensures outbox == old(outbox) + StartOne(cfg, old(View()), env).sent
    {
      var file := queue[0];
      queue, popped := queue[1..], popped + [file];
      if file.name in folder.files {
        log := log + [Skipped(file)];
        return;
      }
      var received := ReuseLocalChunks(file);
      var needed := Missing(received, file.total);
      if needed == [] {
        if file.name in env.failing {
          log := log + [Failed(file)];
        } else {
          var _ := ReassembleModal(cfg.P, folder, NO_VAULT, file.name, file.total, received, env.draw);
          log := log + [Finished(file, Gather(received, file.total))];
        }
        return;
      }
      outbox := outbox + AskAll(Ref(file), FirstWindow(needed));
      active := active[file.name := Begun(file, received)];
    }

    /** `start_queued_files` */
    method StartQueuedFiles(env: Env)
      modifies this, folder
      ensures View() == StartQueued(cfg, old(View()), env).state
      ensures outbox == old(outbox) + StartQueued(cfg, old(View()), env).sent
    {
      ghost var was, sent := View(), outbox;
      while |active| < MAX_CONCURRENT_FILES
        invariant StartQueued(cfg, View(), env).state == StartQueued(cfg, was, env).state
        invariant outbox + StartQueued(cfg, View(), env).sent == sent + StartQueued(cfg, was, env).sent
        decreases |queue|
      {
        if queue == [] {
          break;
        }
        ghost var before, out := View(), outbox;
        StartNextFile(env);
        LoopTurn(cfg, before, env, out);
      }
      assert StartQueued(cfg, View(), env) == Out(View(), []);
    }

    // ── Manifests ─────────────────────────────────────────────────────────

    /** The loop over the entries of a manifest. */
    method EnqueueWanted(entries: seq<PendingFile>)
      modifies this`queue, this`queued
      ensures View() == Enqueue(cfg, old(View()), entries)
    {
      ghost var was := View();
      for k := 0 to |entries|
        invariant View() == Enqueue(cfg, was, entries[..k])
      {
        var file := entries[k];
        assert entries[..k + 1][..k] == entries[..k];
        if file.name in folder.files {
          continue;
        }
        if file.fileId.Some? && cfg.vault.on && Vit(file.name) in folder.files {
          continue;
        }
        if file.name in active {
          continue;
        }
        if exists j | 0 <= j < |queue| :: queue[j].name == file.name {
          continue;
        }
        queue, queued := queue + [file], queued + [file];
      }
      assert entries[..|entries|] == entries;
    }

    /** The `Manifest` arm of `on_response`. */
    method OnManifest(entries: seq<FileEntry>, env: Env)
      modifies this, folder
      ensures View() == Step(cfg, old(View()), Manifest(entries, env)).state
      ensures outbox == old(outbox) + Step(cfg, old(View()), Manifest(entries, env)).sent
    {
      if entries == [] {
        return;
      }
      EnqueueWanted(PlainFiles(entries));
      if |active| + |queue| == 0 {
        assert StartQueued(cfg, View(), env) == Out(View(), []);
        return;
      }
      StartQueuedFiles(env);
    }

    /** The `EncryptedManifest` arm, after decryption. */
    method OnEncryptedManifest(entries: seq<EncryptedEntry>, env: Env)
      modifies this, folder
      ensures View() == Step(cfg, old(View()), EncryptedManifest(entries, env)).state
      ensures outbox == old(outbox) + Step(cfg, old(View()), EncryptedManifest(entries, env)).sent
    {
      if cfg.key.None? || entries == [] {
        return;
      }
      var ids: map<Bytes16, string> := map[];
      for k := 0 to |entries|
        invariant ids == InboundIds(entries[..k])
      {
        assert entries[..k + 1][..k] == entries[..k];
        ids := ids[entries[k].id := entries[k].name];
      }
      assert entries[..|entries|] == entries;
      inbound := ids;
      EnqueueWanted(SealedFiles(entries));
      if |active| + |queue| == 0 {
        assert StartQueued(cfg, View(), env) == Out(View(), []);
        return;
      }
      StartQueuedFiles(env);
    }

    // ── Chunks ────────────────────────────────────────────────────────────

    /** Verification, storage, the next request and completion, as both chunk arms do them. */
    method AcceptChunk(name: string, via: FileRef, index: nat, chunk: Bytes, digest: Bytes32, env: Env)
      requires name in active
      modifies this, folder
      ensures View() == Accept(cfg, old(View()), name, via, index, chunk, digest, env).state
      ensures outbox == old(outbox) + Accept(cfg, old(View()), name, via, index, chunk, digest, env).sent
    {
      hide Complete, StartQueued;
      var t := active[name];
      if !(index < |t.file.hashes| && t.file.hashes[index] == digest) {
        outbox := outbox + [Ask(via, index)];
        return;
      }
      var total := t.file.total;
      var received, next := t.received[index := chunk], t.next;
      if next < total {
        outbox := outbox + [Ask(via, next)];
        next := next + 1;
      }
      active := active[name := Transfer(t.file, received, next)];
      assert active[name] == Stored(t, index, chunk);
      if |received| < total {
        return;
      }
      CompleteFile(name, env);
    }

    method CompleteFile(name: string, env: Env)
      requires name in active
      modifies this, folder
      ensures View() == Complete(cfg, old(View()), name, env).state
      ensures outbox == old(outbox) + Complete(cfg, old(View()), name, env).sent
    {
      if name in env.failing {
        return;
      }
      var t := active[name];
      var written := ReassembleModal(cfg.P, folder, cfg.vault, t.file.name, t.file.total, t.received, env.draw);
      if written.Err? {
        return;
      }
      active := active - {name};
      log := log + [Finished(t.file, Gather(t.received, t.file.total))];
      StartQueuedFiles(env);
    }

    /** The `ChunkResponse` arm. */
    method OnChunkResponse(name: string, index: nat, data: Bytes, env: Env)
      modifies this, folder
      ensures View() == Step(cfg, old(View()), Response(ByName(name), index, data, env)).state
      ensures outbox == old(outbox) + Step(cfg, old(View()), Response(ByName(name), index, data, env)).sent
    {
      var plain: Bytes := data;
      if cfg.key.Some? {
        var opening := Decrypt(cfg.P, cfg.key.value, data, []);
        if opening.Err? {
          outbox := outbox + [Ask(ByName(name), index)];
          return;
        }
        plain := opening.value;
      }
      if name !in active {
        return;
      }
      AcceptChunk(name, ByName(name), index, plain, cfg.P.hash(plain), env);
    }

    /** The `EncryptedChunkResponse` arm. */
    method OnEncryptedChunkResponse(id: Bytes16, index: u32, data: Bytes, env: Env)
      modifies this, folder
      ensures View() == Step(cfg, old(View()), Response(ById(id), index, data, env)).state
      ensures outbox == old(outbox) + Step(cfg, old(View()), Response(ById(id), index, data, env)).sent
    {
      hide Accept, ChunkAad, BlindHash;
      FieldKeeps(index);
      if cfg.key.None? || id !in inbound {
        return;
      }
      var name := inbound[id];
      var opening := Decrypt(cfg.P, cfg.key.value, data, ChunkAad(id, index));
      if opening.Err? {
        outbox := outbox + [Ask(ById(id), index)];
        return;
      }
      if name !in active {
        return;
      }
      AcceptChunk(name, ById(id), index, opening.value, BlindHash(cfg.P, cfg.key.value, cfg.P.hash(opening.value)),
          env);
    }

    // ── Stalls and disconnection ──────────────────────────────────────────

    /** The re-request for one silent file. */
    method AskAgain(name: string)
      modifies this`active, this`outbox
      ensures View() == Stalled(old(View()), name).state
      ensures outbox == old(outbox) + Stalled(old(View()), name).sent
    {
      if name !in active {
        return;
      }
      var t := active[name];
      var missing := Missing(t.received, t.file.total);
      if missing == [] {
        return;
      }
      var again := missing[..Min(|missing|, WINDOW)];
      outbox := outbox + AskAll(Ref(t.file), again);
      var last := again[|again| - 1];
      active := active[name := t.(next := if t.next < last + 1 then last + 1 else t.next)];
    }

    /** `check_stalls` for this peer; `silent` are the expired files in the order of the table. */
    method CheckStalls(silent: seq<string>)
      modifies this`active, this`outbox
      ensures View() == Step(cfg, old(View()), Tick(silent)).state
      ensures outbox == old(outbox) + Step(cfg, old(View()), Tick(silent)).sent
    {
      hide Stalled;
      ghost var was, sent := View(), outbox;
      for k := 0 to |silent|
        invariant View() == OnTick(was, silent[..k]).state
        invariant outbox == sent + OnTick(was, silent[..k]).sent
      {
        assert silent[..k + 1][..k] == silent[..k];
        AskAgain(silent[k]);
      }
      assert silent[..|silent|] == silent;
    }

    /** `ConnectionClosed` drops everything that was going on with the peer. */
    method OnConnectionClosed()
      modifies this
      ensures View() == Step(cfg, old(View()), Closed).state && outbox == old(outbox)
    {
      active, queue := map[], [];
      queued, popped, log := [], [], [];
    }
  }

  lemma LoopTurn(cfg: Config, s: State, env: Env, out: seq<Request>)
    requires |s.active| < MAX_CONCURRENT_FILES && s.queue != []
    ensures var first, all := StartOne(cfg, s, env), StartQueued(cfg, s, env);
      var rest := StartQueued(cfg, first.state, env);
      all.state == rest.state && (out + first.sent) + rest.sent == out + all.sent
  {
    hide StartOne;
  }
}
