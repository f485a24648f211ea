/**
  The receiving half of src/sync/handler.rs as a function from state and event to state and
  requests: manifest arms, chunk arms, stall check, scheduler. The handlers themselves, which
  update a `PeerDownload` in place, are in Downloader.
 */
module Download {
  import opened Basics
  import opened Crypto
  import opened Paths
  import opened Chunking
  import opened Listing
  import opened Reassembly

  const WINDOW: nat := 4
  const MAX_CONCURRENT_FILES: nat := 3

  // ── Messages ────────────────────────────────────────────────────────────

  /** How a request names its file: `ChunkRequest` or `EncryptedChunkRequest`. */
  datatype FileRef = ByName(name: string) | ById(id: Bytes16)

  datatype Request = Request(ref: FileRef, index: nat)

  datatype FileEntry = FileEntry(name: string, size: nat, total: nat, hashes: seq<Bytes32>)

  datatype EncryptedEntry = EncryptedEntry(name: string, id: Bytes16, size: nat, total: u32, hashes: seq<Bytes32>)

  function Plain(e: FileEntry): PendingFile {
    PendingFile(e.name, e.total, e.size, e.hashes, None)
  }

  function Sealed(e: EncryptedEntry): PendingFile {
    PendingFile(e.name, e.total, e.size, e.hashes, Some(e.id))
  }

  function Ref(file: PendingFile): FileRef {
    match file.fileId
    case Some(id) => ById(id)
    case None => ByName(file.name)
  }

  /** The encrypted request carries the chunk number in 32 bits. */
  function Ask(ref: FileRef, i: nat): Request {
    Request(ref, if ref.ById? then i % U32 else i)
  }

  /** So a request by id always fits its field, and is for the chunk meant if the number does. */
  lemma AskFits(ref: FileRef, i: nat)
    ensures ref.ById? ==> Ask(ref, i).index < U32
    ensures ref.ByName? || i < U32 ==> Ask(ref, i) == Request(ref, i)
  {
  }

  function AskAll(ref: FileRef, idx: seq<nat>): (rs: seq<Request>)
    ensures |rs| == |idx|
  {
    seq(|idx|, k requires 0 <= k < |idx| => Ask(ref, idx[k]))
  }

  // ── State ───────────────────────────────────────────────────────────────

  datatype Config = Config(P: Primitives, key: Option<Bytes32>, vault: Vault)

  /** What became of a file that left the queue. */
  datatype Outcome =
    | Finished(file: PendingFile, content: Bytes)
    | Skipped(file: PendingFile)
    | Failed(file: PendingFile)

  /**
    The downloads from one peer, the sync folder and the id table. `queued`, `popped` and
    `log` are history: everything ever queued, everything taken off the queue in order, and
    what became of it.
   */
  datatype State = State(
    active: map<string, Transfer>,
    queue: seq<PendingFile>,
    files: map<string, Bytes>,
    inbound: map<Bytes16, string>,
    queued: seq<PendingFile>,
    popped: seq<PendingFile>,
    log: seq<Outcome>
  )

  datatype Out = Out(state: State, sent: seq<Request>)

  /** What the surroundings decide during one event: draws, and which writes fail. */
  datatype Env = Env(draw: Draw, failing: set<string>)

  // ── Scheduler ───────────────────────────────────────────────────────────

  /** Chunks of a plaintext-protocol file that the folder already holds. */
  ghost function Reusable(P: Primitives, files: map<string, Bytes>, file: PendingFile): map<nat, Bytes> {
    if file.fileId.Some? then map[] else ReusableUpTo(P, files, file.hashes, |file.hashes|)
  }

  ghost function ReusableUpTo(P: Primitives, files: map<string, Bytes>, hashes: seq<Bytes32>, n: nat): map<nat, Bytes>
    requires n <= |hashes|
  {
    if n == 0 then map[] else
    var rest := ReusableUpTo(P, files, hashes, n - 1);
    Added(rest, n - 1, DedupSource(P, files, hashes[n - 1]))
  }

  function Added(received: map<nat, Bytes>, k: nat, found: Option<Bytes>): map<nat, Bytes> {
    match found
    case Some(bytes) => received[k := bytes]
    case None => received
  }

  /** Every chunk has the hash listed for its position. */
  ghost predicate HashesMatch(P: Primitives, received: map<nat, Bytes>, hashes: seq<Bytes32>) {
    forall i | i in received :: i < |hashes| && P.hash(received[i]) == hashes[i]
  }

  lemma {:induction false} ReusableIsGenuine(P: Primitives, files: map<string, Bytes>, hashes: seq<Bytes32>, n: nat)
    requires n <= |hashes|
    ensures HashesMatch(P, ReusableUpTo(P, files, hashes, n), hashes)
  {
    if n == 0 {
    } else {
      hide DedupSource, Added, HashesMatch;
      ReusableIsGenuine(P, files, hashes, n - 1);
      OneMoreReusable(P, files, hashes, n - 1, ReusableUpTo(P, files, hashes, n - 1));
    }
  }

  lemma OneMoreReusable(P: Primitives, files: map<string, Bytes>, hashes: seq<Bytes32>, k: nat, rest: map<nat, Bytes>)
    requires k < |hashes| && HashesMatch(P, rest, hashes)
    ensures HashesMatch(P, Added(rest, k, DedupSource(P, files, hashes[k])), hashes)
  {
    DedupSourceIsGenuine(P, files, hashes[k]);
  }

  /** Exactly the listed hashes that are held locally are reused, and nothing in the encrypted protocol. */
  lemma ReusableExactly(P: Primitives, files: map<string, Bytes>, file: PendingFile, i: nat)
    ensures i in Reusable(P, files, file) <==>
              file.fileId.None? && i < |file.hashes| && HeldLocally(P, files, file.hashes[i])
    ensures i in Reusable(P, files, file) ==> P.hash(Reusable(P, files, file)[i]) == file.hashes[i]
  {
    hide HeldLocally, ReusableUpTo;
    if file.fileId.None? {
      ReusableUpToExactly(P, files, file.hashes, |file.hashes|, i);
      ReusableIsGenuine(P, files, file.hashes, |file.hashes|);
    }
  }

  lemma {:induction false} ReusableUpToExactly(P: Primitives, files: map<string, Bytes>, hashes: seq<Bytes32>, n: nat,
          i: nat)
    requires n <= |hashes|
    ensures i in ReusableUpTo(P, files, hashes, n) <==> i < n && HeldLocally(P, files, hashes[i])
  {
    hide DedupSource, HeldLocally;
    if n > 0 {
      ReusableUpToExactly(P, files, hashes, n - 1, i);
      DedupSourceExactly(P, files, hashes[n - 1]);
    }
  }

  /** The first window of requests, and where the window then stands. */
  function FirstWindow(needed: seq<nat>): seq<nat> {
    needed[..Min(|needed|, WINDOW)]
  }

  function Begun(file: PendingFile, received: map<nat, Bytes>): Transfer {
    var needed := Missing(received, file.total);
    Transfer(file, received, if |needed| > WINDOW then needed[WINDOW] else file.total)
  }

  /** The head of the queue has just been taken off. */
  function Popped(s: State): State
    requires s.queue != []
  {
    s.(queue := s.queue[1..], popped := s.popped + [s.queue[0]])
  }

  /** All chunks were found locally: the file is written at once, in the plaintext layout. */
  function WrittenLocally(cfg: Config, s: State, file: PendingFile, received: map<nat, Bytes>, env: Env): State {
    if file.name in env.failing then s.(log := s.log + [Failed(file)])
    else
      var (_, files) := ReassembleOutcome(cfg.P, s.files, NO_VAULT, file.name, file.total, received, env.draw);
      s.(files := files, log := s.log + [Finished(file, Gather(received, file.total))])
  }

  /** One turn of the scheduler's loop: the file at the head of the queue. */
  ghost function StartOne(cfg: Config, s: State, env: Env): (o: Out)
    requires s.queue != []
    ensures o.state.queue == s.queue[1..]
  {
    var file, s1 := s.queue[0], Popped(s);
    if file.name in s.files then Out(s1.(log := s.log + [Skipped(file)]), []) else
    var received := Reusable(cfg.P, s.files, file);
    var needed := Missing(received, file.total);
    if needed == [] then Out(WrittenLocally(cfg, s1, file, received, env), [])
    else Out(s1.(active := s.active[file.name := Begun(file, received)]), AskAll(Ref(file), FirstWindow(needed)))
  }

  /** The file at the head is skipped, fails, is finished from local chunks, or becomes active. */
  lemma StartOneOutcomes(cfg: Config, s: State, env: Env)
    requires s.queue != []
    ensures var file, o := s.queue[0], StartOne(cfg, s, env).state;
      var received := Reusable(cfg.P, s.files, file);
      && o.queue == s.queue[1..] && o.queued == s.queued && o.popped == s.popped + [file]
      && (|| (o.active == s.active && file.name in s.files && o.files == s.files && o.log == s.log + [Skipped(file)])
          || (o.active == s.active && file.name in env.failing && o.files == s.files && o.log == s.log + [Failed(file)])
          || (o.active == s.active && file.name !in s.files && Missing(received, file.total) == []
              && o.files == ReassembleOutcome(cfg.P, s.files, NO_VAULT, file.name, file.total, received, env.draw).1
              && o.log == s.log + [Finished(file, Gather(received, file.total))])
          || (o.active == s.active[file.name := Begun(file, received)] && o.files == s.files && o.log == s.log))
  {
    hide Reusable, ReassembleOutcome, Begun, Gather, AskAll;
  }

  /** `start_queued_files` */
  ghost function StartQueued(cfg: Config, s: State, env: Env): Out
    decreases |s.queue|
  {
    if |s.active| >= MAX_CONCURRENT_FILES || s.queue == [] then Out(s, []) else
    var first := StartOne(cfg, s, env);
    var rest := StartQueued(cfg, first.state, env);
    Out(rest.state, first.sent + rest.sent)
  }

  // ── Manifests ───────────────────────────────────────────────────────────

  predicate InQueue(queue: seq<PendingFile>, name: string) {
    exists k | 0 <= k < |queue| :: queue[k].name == name
  }

  /** Not on disk, not already downloading, not already waiting. */
  predicate Wanted(cfg: Config, s: State, file: PendingFile) {
    && file.name !in s.files
    && !(file.fileId.Some? && cfg.vault.on && Vit(file.name) in s.files)
    && file.name !in s.active
    && !InQueue(s.queue, file.name)
  }

  function EnqueueOne(cfg: Config, s: State, file: PendingFile): State {
    if Wanted(cfg, s, file) then s.(queue := s.queue + [file], queued := s.queued + [file]) else s
  }

  function Enqueue(cfg: Config, s: State, entries: seq<PendingFile>): State {
    if entries == [] then s
    else EnqueueOne(cfg, Enqueue(cfg, s, entries[..|entries| - 1]), entries[|entries| - 1])
  }

  function PlainFiles(entries: seq<FileEntry>): (files: seq<PendingFile>)
    ensures |files| == |entries|
  {
    seq(|entries|, k requires 0 <= k < |entries| => Plain(entries[k]))
  }

  function SealedFiles(entries: seq<EncryptedEntry>): (files: seq<PendingFile>)
    ensures |files| == |entries|
  {
    seq(|entries|, k requires 0 <= k < |entries| => Sealed(entries[k]))
  }

  /** The id table is replaced by the one of the new manifest. */
  function InboundIds(entries: seq<EncryptedEntry>): map<Bytes16, string> {
    if entries == [] then map[]
    else InboundIds(entries[..|entries| - 1])[entries[|entries| - 1].id := entries[|entries| - 1].name]
  }

  ghost function OnManifest(cfg: Config, s: State, entries: seq<FileEntry>, env: Env): Out {
    if entries == [] then Out(s, []) else StartQueued(cfg, Enqueue(cfg, s, PlainFiles(entries)), env)
  }

  ghost function OnEncryptedManifest(cfg: Config, s: State, entries: seq<EncryptedEntry>, env: Env): Out {
    if cfg.key.None? || entries == [] then Out(s, [])
    else StartQueued(cfg, Enqueue(cfg, s.(inbound := InboundIds(entries)), SealedFiles(entries)), env)
  }

  // ── Chunk responses ─────────────────────────────────────────────────────

  /** A verified chunk is stored and the window moves on by one request. */
  function Stored(t: Transfer, index: nat, chunk: Bytes): Transfer {
    t.(received := t.received[index := chunk], next := if t.next < t.file.total then t.next + 1 else t.next)
  }

  function Advance(t: Transfer, via: FileRef): seq<Request> {
    if t.next < t.file.total then [Ask(via, t.next)] else []
  }

  /** The tail both chunk arms share: verify, store, ask on, and write the file when it is complete. */
  ghost function Accept(cfg: Config, s: State, name: string, via: FileRef, index: nat, chunk: Bytes, digest: Bytes32,
          env: Env): Out
    requires name in s.active
  {
    var t := s.active[name];
    if !(index < |t.file.hashes| && t.file.hashes[index] == digest) then Out(s, [Ask(via, index)]) else
    var t1, asked := Stored(t, index, chunk), Advance(t, via);
    var s1 := s.(active := s.active[name := t1]);
    if !CountedComplete(t1.received, t1.file.total) then Out(s1, asked) else
    var rest := Complete(cfg, s1, name, env);
    Out(rest.state, asked + rest.sent)
  }

  /** The download is over: its file has been written and its slot is free. */
  function Retired(s: State, name: string, files: map<string, Bytes>): State
    requires name in s.active
  {
    var t := s.active[name];
    s.(files := files, active := s.active - {name}, log := s.log + [Finished(t.file, Gather(t.received, t.file.total))])
  }

  /** All chunks are in: reassemble, and on success make room for the next file. */
  ghost function Complete(cfg: Config, s: State, name: string, env: Env): Out
    requires name in s.active
  {
    var t := s.active[name];
    if name in env.failing then Out(s, []) else
    var (r, files) := ReassembleOutcome(cfg.P, s.files, cfg.vault, t.file.name, t.file.total, t.received, env.draw);
    if r.Err? then Out(s.(files := files), []) else StartQueued(cfg, Retired(s, name, files), env)
  }

  /** A failed write leaves the download where it is; otherwise the scheduler runs. */
  lemma CompleteCases(cfg: Config, s: State, name: string, env: Env) returns (files: map<string, Bytes>)
    requires name in s.active
    ensures || Complete(cfg, s, name, env) == Out(s.(files := files), [])
            || (Complete(cfg, s, name, env) == StartQueued(cfg, Retired(s, name, files), env)
                && Missing(s.active[name].received, s.active[name].file.total) == [])
  {
    var t := s.active[name];
    files := if name in env.failing then s.files else
      ReassembleOutcome(cfg.P, s.files, cfg.vault, t.file.name, t.file.total, t.received, env.draw).1;
  }

  /** What a chunk response amounts to before its hash is checked. */
  datatype Arrival =
    | Ignored                                                  // no key, unknown id, or no such download
    | Unreadable                                               // decryption failed
    | Arrived(name: string, chunk: Bytes, digest: Bytes32)     // plaintext, and the digest to compare

  /** The `ChunkResponse` arm: decryption, when there is a key, comes before the file is looked up. */
  function OpenChunk(cfg: Config, s: State, name: string, data: Bytes): Arrival {
    var plain := match cfg.key case Some(key) => Decrypt(cfg.P, key, data, []) case None => Ok(data);
    if plain.Err? then Unreadable
    else if name !in s.active then Ignored
    else Arrived(name, plain.value, cfg.P.hash(plain.value))
  }

  /** The `EncryptedChunkResponse` arm: the id is resolved first, and the digest is the blinded hash. */
  function OpenEncryptedChunk(cfg: Config, s: State, id: Bytes16, index: u32, data: Bytes): Arrival {
    if cfg.key.None? || id !in s.inbound then Ignored else
    var key, name := cfg.key.value, s.inbound[id];
    var plain := Decrypt(cfg.P, key, data, ChunkAad(id, index));
    if plain.Err? then Unreadable
    else if name !in s.active then Ignored
    else Arrived(name, plain.value, BlindHash(cfg.P, key, cfg.P.hash(plain.value)))
  }

  /** The plaintext in a response, if it opens under our key. */
  function Opened(cfg: Config, ref: FileRef, index: nat, data: Bytes): Option<Bytes> {
    var plain :=
      match ref
      case ByName(_) => if cfg.key.None? then Ok(data) else Decrypt(cfg.P, cfg.key.value, data, [])
      case ById(id) =>
        if cfg.key.None? then Err(Forged) else Decrypt(cfg.P, cfg.key.value, data, ChunkAad(id, index % U32));
    match plain case Ok(chunk) => Some(chunk) case Err(_) => None
  }

  function OpenResponse(cfg: Config, s: State, ref: FileRef, index: nat, data: Bytes): (a: Arrival)
    ensures a.Arrived? ==> Opened(cfg, ref, index, data) == Some(a.chunk)
    ensures a.Arrived? ==> a.name in s.active
  {
    match ref
    case ByName(name) => OpenChunk(cfg, s, name, data)
    case ById(id) => OpenEncryptedChunk(cfg, s, id, index % U32, data)
  }

  ghost function OnResponse(cfg: Config, s: State, ref: FileRef, index: nat, data: Bytes, env: Env): Out {
    match OpenResponse(cfg, s, ref, index, data)
    case Ignored => Out(s, [])
    case Unreadable => Out(s, [Ask(ref, index)])
    case Arrived(name, chunk, digest) => Accept(cfg, s, name, ref, Ask(ref, index).index, chunk, digest, env)
  }

  // ── Stalls and disconnection ────────────────────────────────────────────

  /** The smallest missing chunks, one window of them. */
  function Again(t: Transfer): seq<nat> {
    FirstWindow(Missing(t.received, t.file.total))
  }

  /** The window's edge never moves back. */
  function Reopened(t: Transfer): Transfer
    requires Again(t) != []
  {
    var last := Again(t)[|Again(t)| - 1];
    t.(next := if t.next < last + 1 then last + 1 else t.next)
  }

  /** One file that has been silent for too long: its smallest missing chunks are asked for again. */
  function Stalled(s: State, name: string): Out {
    if name !in s.active || Again(s.active[name]) == [] then Out(s, []) else
    var t := s.active[name];
    Out(s.(active := s.active[name := Reopened(t)]), AskAll(Ref(t.file), Again(t)))
  }

  /** A tick over the silent files, in the order the table yields them. */
  function OnTick(s: State, silent: seq<string>): Out {
    if silent == [] then Out(s, []) else
    var before := OnTick(s, silent[..|silent| - 1]);
    var last := Stalled(before.state, silent[|silent| - 1]);
    Out(last.state, before.sent + last.sent)
  }

  function OnClosed(s: State): State {
    s.(active := map[], queue := [], queued := [], popped := [], log := [])
  }

  // ── Runs ────────────────────────────────────────────────────────────────

  datatype Event =
    | Manifest(entries: seq<FileEntry>, env: Env)
    | EncryptedManifest(sealedEntries: seq<EncryptedEntry>, env: Env)
    | Response(ref: FileRef, index: nat, data: Bytes, env: Env)
    | Tick(silent: seq<string>)
    | Closed
    | FolderChanged(files: map<string, Bytes>)   // by the user, or by another peer's downloads

  ghost function Step(cfg: Config, s: State, e: Event): Out {
    match e
    case Manifest(entries, env) => OnManifest(cfg, s, entries, env)
    case EncryptedManifest(entries, env) => OnEncryptedManifest(cfg, s, entries, env)
    case Response(ref, index, data, env) => OnResponse(cfg, s, ref, index, data, env)
    case Tick(silent) => OnTick(s, silent)
    case Closed => Out(OnClosed(s), [])
    case FolderChanged(files) => Out(s.(files := files), [])
  }

  ghost function Run(cfg: Config, s: State, events: seq<Event>): State {
    if events == [] then s
    else Step(cfg, Run(cfg, s, events[..|events| - 1]), events[|events| - 1]).state
  }

  function Fresh(files: map<string, Bytes>): State {
    State(map[], [], files, map[], [], [], [])
  }
}
