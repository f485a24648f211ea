/**
  What holds after every event of every run of the receiver, whatever arrives: chunks may be
  reordered, duplicated, lost, corrupted or forged, files may appear and vanish.
 */
module TransferSafety {
  import opened Basics
  import opened Crypto
  import opened Paths
  import opened Listing
  import opened Reassembly
  import opened Download

  // ── The scheduler's places ──────────────────────────────────────────────

  ghost predicate Placed(s: State) {
    && |s.active| <= MAX_CONCURRENT_FILES
    && (forall n | n in s.active :: s.active[n].file.name == n)
    && (forall k | 0 <= k < |s.queue| :: s.queue[k].name !in s.active)
    && (forall j, k | 0 <= j < k < |s.queue| :: s.queue[j].name != s.queue[k].name)
  }

  lemma SamePlaces(s: State, s1: State)
    requires Placed(s) && s1.active == s.active && s1.queue == s.queue
    ensures Placed(s1)
  {
  }

  /** Nothing waits while there is room. */
  ghost predicate Scheduled(s: State) {
    Placed(s) && (s.queue != [] ==> |s.active| == MAX_CONCURRENT_FILES)
  }

  /** The head of the queue leaves it, and perhaps becomes active. */
  lemma HeadPlaced(s: State, s': State, t: Transfer)
    requires Placed(s) && s.queue != [] && |s.active| < MAX_CONCURRENT_FILES && t.file == s.queue[0]
    requires s'.queue == s.queue[1..] && (s'.active == s.active || s'.active == s.active[t.file.name := t])
    ensures Placed(s')
  {
    assert forall k | 0 <= k < |s'.queue| :: s'.queue[k] == s.queue[k + 1];
    assert |s'.active| == |s'.active.Keys| && |s.active| == |s.active.Keys|;
    assert s'.active.Keys <= s.active.Keys + {t.file.name};
    SubsetSize(s'.active.Keys, s.active.Keys + {t.file.name});
  }

  lemma StartOnePlaces(cfg: Config, s: State, env: Env)
    requires Placed(s) && s.queue != [] && |s.active| < MAX_CONCURRENT_FILES
    ensures Placed(StartOne(cfg, s, env).state)
  {
    hide StartOne, Reusable, ReassembleOutcome, Gather, Placed;
    StartOneOutcomes(cfg, s, env);
    HeadPlaced(s, StartOne(cfg, s, env).state, Begun(s.queue[0], Reusable(cfg.P, s.files, s.queue[0])));
  }

  lemma {:induction false} StartQueuedSchedules(cfg: Config, s: State, env: Env)
    requires Placed(s)
    ensures Scheduled(StartQueued(cfg, s, env).state)
    decreases |s.queue|
  {
    if |s.active| < MAX_CONCURRENT_FILES && s.queue != [] {
      StartOnePlaces(cfg, s, env);
      StartQueuedSchedules(cfg, StartOne(cfg, s, env).state, env);
    }
  }

  lemma {:induction false} EnqueuePlaces(cfg: Config, s: State, entries: seq<PendingFile>)
    requires Placed(s)
    ensures Placed(Enqueue(cfg, s, entries))
  {
    if entries != [] {
      EnqueuePlaces(cfg, s, entries[..|entries| - 1]);
    }
  }

  lemma CompleteSchedules(cfg: Config, s: State, name: string, env: Env)
    requires Scheduled(s) && name in s.active
    ensures Scheduled(Complete(cfg, s, name, env).state)
  {
    var files := CompleteCases(cfg, s, name, env);
    hide Complete;
    var s1 := Retired(s, name, files);
    SubsetSize(s1.active.Keys, s.active.Keys);
    assert |s1.active| == |s1.active.Keys| && |s.active| == |s.active.Keys|;
    StartQueuedSchedules(cfg, s1, env);
  }

  lemma AcceptSchedules(cfg: Config, s: State, name: string, via: FileRef, index: nat, chunk: Bytes, digest: Bytes32,
          env: Env)
    requires Scheduled(s) && name in s.active
    ensures Scheduled(Accept(cfg, s, name, via, index, chunk, digest, env).state)
  {
    hide Complete, Advance, CountedComplete;
    var s1 := s.(active := s.active[name := Stored(s.active[name], index, chunk)]);
    assert s1.active.Keys == s.active.Keys;
    assert |s1.active| == |s1.active.Keys| && |s.active| == |s.active.Keys|;
    CompleteSchedules(cfg, s1, name, env);
  }

  lemma {:induction false} TickSchedules(s: State, silent: seq<string>)
    requires Scheduled(s)
    ensures Scheduled(OnTick(s, silent).state)
  {
    if silent != [] {
      TickSchedules(s, silent[..|silent| - 1]);
      var before := OnTick(s, silent[..|silent| - 1]).state;
      var after := Stalled(before, silent[|silent| - 1]).state;
      assert after.active.Keys == before.active.Keys;
      assert |after.active| == |after.active.Keys| && |before.active| == |before.active.Keys|;
    }
  }

  lemma StepSchedules(cfg: Config, s: State, e: Event)
    requires Scheduled(s)
    ensures Scheduled(Step(cfg, s, e).state)
  {
    match e
    case Manifest(entries, env) =>
      EnqueuePlaces(cfg, s, PlainFiles(entries));
      StartQueuedSchedules(cfg, Enqueue(cfg, s, PlainFiles(entries)), env);
    case EncryptedManifest(entries, env) =>
      var s1 := s.(inbound := InboundIds(entries));
      EnqueuePlaces(cfg, s1, SealedFiles(entries));
      StartQueuedSchedules(cfg, Enqueue(cfg, s1, SealedFiles(entries)), env);
    case Response(ref, index, data, env) =>
      match OpenResponse(cfg, s, ref, index, data) {
        case Arrived(name, chunk, digest) =>
          AcceptSchedules(cfg, s, name, ref, Ask(ref, index).index, chunk, digest, env);
        case _ =>
      }
    case Tick(silent) => TickSchedules(s, silent);
    case Closed =>
    case FolderChanged(files) =>
  }

  /**
    After every handled event: at most three files are active, every name is in one place
    only, and files wait only while all three slots are taken.
   */
  lemma {:induction false} RunStaysScheduled(cfg: Config, files: map<string, Bytes>, events: seq<Event>)
    ensures Scheduled(Run(cfg, Fresh(files), events))
  {
    if events != [] {
      RunStaysScheduled(cfg, files, events[..|events| - 1]);
      StepSchedules(cfg, Run(cfg, Fresh(files), events[..|events| - 1]), events[|events| - 1]);
    }
  }

  // ── Everything received is genuine ──────────────────────────────────────

  /** The digests under which a chunk can be listed: its hash, and its hash blinded under our key. */
  function Digests(cfg: Config, chunk: Bytes): set<Bytes32> {
    var h := cfg.P.hash(chunk);
    {h} + match cfg.key case Some(key) => {BlindHash(cfg.P, key, h)} case None => {}
  }

  ghost predicate TransferOk(cfg: Config, t: Transfer) {
    && t.next <= t.file.total
    && forall i | i in t.received :: i < |t.file.hashes| && t.file.hashes[i] in Digests(cfg, t.received[i])
  }

  /** The content is made of one chunk per position, each with a digest listed for its position. */
  ghost predicate Certified(cfg: Config, file: PendingFile, content: Bytes, cs: seq<Bytes>) {
    && |cs| == file.total && content == Concat(cs)
    && forall i | 0 <= i < |cs| :: i < |file.hashes| && file.hashes[i] in Digests(cfg, cs[i])
  }

  ghost predicate OutcomeOk(cfg: Config, o: Outcome) {
    o.Finished? ==> exists cs :: Certified(cfg, o.file, o.content, cs)
  }

  ghost predicate Genuine(cfg: Config, s: State) {
    && (forall n | n in s.active :: TransferOk(cfg, s.active[n]))
    && (forall k | 0 <= k < |s.log| :: OutcomeOk(cfg, s.log[k]))
  }

  lemma GatheredIsCertified(cfg: Config, t: Transfer)
    requires TransferOk(cfg, t) && Missing(t.received, t.file.total) == []
    ensures OutcomeOk(cfg, Finished(t.file, Gather(t.received, t.file.total)))
  {
    NoneMissing(t.received, t.file.total);
    GatherComplete(t.received, t.file.total);
    assert Certified(cfg, t.file, Gather(t.received, t.file.total), ChunkList(t.received, t.file.total));
  }

  lemma ReusableIsOk(cfg: Config, files: map<string, Bytes>, file: PendingFile)
    ensures TransferOk(cfg, Begun(file, Reusable(cfg.P, files, file)))
  {
    var received := Reusable(cfg.P, files, file);
    var needed := Missing(received, file.total);
    if file.fileId.None? { ReusableIsGenuine(cfg.P, files, file.hashes, |file.hashes|); }
    if |needed| > WINDOW { assert needed[WINDOW] in needed; }
  }

  lemma SkipsAndFailuresAreFine(cfg: Config, file: PendingFile)
    ensures OutcomeOk(cfg, Skipped(file)) && OutcomeOk(cfg, Failed(file))
  {
  }

  lemma StartOneIsGenuine(cfg: Config, s: State, env: Env)
    requires Genuine(cfg, s) && s.queue != []
    ensures Genuine(cfg, StartOne(cfg, s, env).state)
  {
    hide StartOne, Reusable, ReassembleOutcome, Gather, TransferOk, OutcomeOk;
    var file := s.queue[0];
    var received := Reusable(cfg.P, s.files, file);
    StartOneOutcomes(cfg, s, env);
    ReusableIsOk(cfg, s.files, file);
    if Missing(received, file.total) == [] {
      GatheredIsCertified(cfg, Begun(file, received));
    }
    SkipsAndFailuresAreFine(cfg, file);
  }

  lemma {:induction false} StartQueuedIsGenuine(cfg: Config, s: State, env: Env)
    requires Genuine(cfg, s)
    ensures Genuine(cfg, StartQueued(cfg, s, env).state)
    decreases |s.queue|
  {
    if |s.active| < MAX_CONCURRENT_FILES && s.queue != [] {
      StartOneIsGenuine(cfg, s, env);
      StartQueuedIsGenuine(cfg, StartOne(cfg, s, env).state, env);
    }
  }

  lemma {:induction false} EnqueueKeeps(cfg: Config, s: State, entries: seq<PendingFile>)
    ensures var s' := Enqueue(cfg, s, entries);
      s'.active == s.active && s'.log == s.log && s'.files == s.files && s'.inbound == s.inbound
          && s'.popped == s.popped
  {
    if entries != [] {
      EnqueueKeeps(cfg, s, entries[..|entries| - 1]);
    }
  }

  lemma CompleteIsGenuine(cfg: Config, s: State, name: string, env: Env)
    requires Genuine(cfg, s) && name in s.active
    ensures Genuine(cfg, Complete(cfg, s, name, env).state)
  {
    var files := CompleteCases(cfg, s, name, env);
    hide Complete;
    if Missing(s.active[name].received, s.active[name].file.total) == [] {
      GatheredIsCertified(cfg, s.active[name]);
      StartQueuedIsGenuine(cfg, Retired(s, name, files), env);
    }
  }

  lemma AcceptIsGenuine(cfg: Config, s: State, name: string, via: FileRef, index: nat, chunk: Bytes, digest: Bytes32,
          env: Env)
    requires Genuine(cfg, s) && name in s.active && digest in Digests(cfg, chunk)
    ensures Genuine(cfg, Accept(cfg, s, name, via, index, chunk, digest, env).state)
  {
    var t := s.active[name];
    if index < |t.file.hashes| && t.file.hashes[index] == digest {
      var t1 := Stored(t, index, chunk);
      assert TransferOk(cfg, t);
      assert TransferOk(cfg, t1);
      var s1 := s.(active := s.active[name := t1]);
      assert Genuine(cfg, s1);
      CompleteIsGenuine(cfg, s1, name, env);
    }
  }

  lemma {:induction false} TickIsGenuine(cfg: Config, s: State, silent: seq<string>)
    requires Genuine(cfg, s)
    ensures Genuine(cfg, OnTick(s, silent).state)
  {
    if silent != [] {
      var before := OnTick(s, silent[..|silent| - 1]).state;
      TickIsGenuine(cfg, s, silent[..|silent| - 1]);
      StalledIsGenuine(cfg, before, silent[|silent| - 1]);
    }
  }

  lemma StalledIsGenuine(cfg: Config, s: State, name: string)
    requires Genuine(cfg, s)
    ensures Genuine(cfg, Stalled(s, name).state)
  {
    if name in s.active {
      AgainIsMissing(s.active[name]);
      assert TransferOk(cfg, s.active[name]);
    }
  }

  lemma AgainIsMissing(t: Transfer)
    ensures forall i | i in Again(t) :: i < t.file.total && i !in t.received
    ensures Again(t) != [] ==> Again(t)[|Again(t)| - 1] in Again(t)
  {
    var missing := Missing(t.received, t.file.total);
    assert forall i | i in Again(t) :: i in missing;
  }

  lemma StepIsGenuine(cfg: Config, s: State, e: Event)
    requires Genuine(cfg, s)
    ensures Genuine(cfg, Step(cfg, s, e).state)
  {
    match e
    case Manifest(entries, env) =>
      EnqueueKeeps(cfg, s, PlainFiles(entries));
      StartQueuedIsGenuine(cfg, Enqueue(cfg, s, PlainFiles(entries)), env);
    case EncryptedManifest(entries, env) =>
      var s1 := s.(inbound := InboundIds(entries));
      EnqueueKeeps(cfg, s1, SealedFiles(entries));
      StartQueuedIsGenuine(cfg, Enqueue(cfg, s1, SealedFiles(entries)), env);
    case Response(ref, index, data, env) =>
      match OpenResponse(cfg, s, ref, index, data) {
        case Arrived(name, chunk, digest) =>
          assert digest in Digests(cfg, chunk);
          AcceptIsGenuine(cfg, s, name, ref, Ask(ref, index).index, chunk, digest, env);
        case _ =>
      }
    case Tick(silent) => TickIsGenuine(cfg, s, silent);
    case Closed =>
    case FolderChanged(files) =>
  }

  lemma {:induction false} RunStaysGenuine(cfg: Config, files: map<string, Bytes>, events: seq<Event>)
    ensures Genuine(cfg, Run(cfg, Fresh(files), events))
  {
    if events != [] {
      RunStaysGenuine(cfg, files, events[..|events| - 1]);
      StepIsGenuine(cfg, Run(cfg, Fresh(files), events[..|events| - 1]), events[|events| - 1]);
    }
  }

  /** Two different chunks that the receiver cannot tell apart. */
  ghost predicate Clash(cfg: Config, x: Bytes, y: Bytes) {
    x != y && Digests(cfg, x) * Digests(cfg, y) != {}
  }

  /** A clash is a collision of the hash, of the derivation behind the blinding, or between the two. */
  lemma ClashIsACollision(cfg: Config, x: Bytes, y: Bytes)
    requires Clash(cfg, x, y)
    ensures var hx, hy := cfg.P.hash(x), cfg.P.hash(y);
      || hx == hy
      || (cfg.key.Some? && (
            var key := cfg.key.value;
            || (&& BlindInput(key, hx) != BlindInput(key, hy)
                && cfg.P.derive("vitruvius v0.2 chunk-hash", BlindInput(key, hx))
                   == cfg.P.derive("vitruvius v0.2 chunk-hash", BlindInput(key, hy)))
            || hx == BlindHash(cfg.P, key, hy) || hy == BlindHash(cfg.P, key, hx)))
  {
    if cfg.key.Some? {
      BlindingAddsNoCollisions(cfg.P, cfg.key.value, cfg.P.hash(x), cfg.key.value, cfg.P.hash(y));
    }
  }

  /**
    The content is not the listed file, but falls into as many pieces, each of which is the
    listed chunk or clashes with it: its very bytes are the collision.
   */
  ghost predicate Counterfeit(cfg: Config, content: Bytes, chunks: seq<Bytes>, pieces: seq<Bytes>) {
    && |pieces| == |chunks| && content == Concat(pieces) && pieces != chunks
    && forall i | 0 <= i < |chunks| :: pieces[i] == chunks[i] || Clash(cfg, pieces[i], chunks[i])
  }

  /** The entry lists exactly these chunks, plainly or blinded under our key. */
  ghost predicate ListedFrom(cfg: Config, file: PendingFile, chunks: seq<Bytes>) {
    && |chunks| == file.total == |file.hashes|
    && forall i | 0 <= i < |chunks| :: file.hashes[i] in Digests(cfg, chunks[i])
  }

  /**
    In every run, a file that was completed has exactly the bytes of the file it was listed
    from - or was put together from pieces that clash with the listed chunks.
   */
  lemma FinishedFilesAreTheListedOnes(cfg: Config, files: map<string, Bytes>, events: seq<Event>,
                                      file: PendingFile, content: Bytes, chunks: seq<Bytes>)
    requires Finished(file, content) in Run(cfg, Fresh(files), events).log
    requires ListedFrom(cfg, file, chunks)
    ensures content == Concat(chunks) || exists pieces :: Counterfeit(cfg, content, chunks, pieces)
  {
    RunStaysGenuine(cfg, files, events);
    assert OutcomeOk(cfg, Finished(file, content));
    CertifiedIsListed(cfg, file, content, chunks);
  }

  lemma CertifiedIsListed(cfg: Config, file: PendingFile, content: Bytes, chunks: seq<Bytes>)
    requires OutcomeOk(cfg, Finished(file, content)) && ListedFrom(cfg, file, chunks)
    ensures content == Concat(chunks) || exists pieces :: Counterfeit(cfg, content, chunks, pieces)
  {
    var cs :| Certified(cfg, file, content, cs);
    if cs != chunks {
      forall i | 0 <= i < |chunks| ensures cs[i] == chunks[i] || Clash(cfg, cs[i], chunks[i]) {
        assert file.hashes[i] in Digests(cfg, cs[i]) * Digests(cfg, chunks[i]);
      }
      assert Counterfeit(cfg, content, chunks, cs);
    }
  }

  // ── What is logged as finished is in the folder ─────────────────────────

  predicate Plainly(files: map<string, Bytes>, file: PendingFile, content: Bytes) {
    file.name in files && files[file.name] == content
  }

  ghost predicate InContainer(cfg: Config, files: map<string, Bytes>, file: PendingFile, content: Bytes) {
    && cfg.vault.on && cfg.vault.key.Some? && Vit(file.name) in files && file.total < U32
    && exists uuid: Bytes16 :: HoldsExactly(cfg.P, cfg.vault.key.value, uuid, files[Vit(file.name)], file.total,
        content)
  }

  ghost predicate OnDisk(cfg: Config, files: map<string, Bytes>, file: PendingFile, content: Bytes) {
    Plainly(files, file, content) || InContainer(cfg, files, file, content)
  }

  /** The outcomes from position `k` on are on disk. */
  ghost predicate NewOnDisk(cfg: Config, s: State, k: nat) {
    forall j | k <= j < |s.log| && s.log[j].Finished? && |s.log[j].content| < U64 ::
      OnDisk(cfg, s.files, s.log[j].file, s.log[j].content)
  }

  ghost predicate Extends(files: map<string, Bytes>, more: map<string, Bytes>) {
    forall q | q in files :: q in more && more[q] == files[q]
  }

  lemma LocalFileOnDisk(cfg: Config, files: map<string, Bytes>, file: PendingFile, received: map<nat, Bytes>, d: Draw)
    requires file.name !in files && Missing(received, file.total) == []
    ensures var (_, after) := ReassembleOutcome(cfg.P, files, NO_VAULT, file.name, file.total, received, d);
      Extends(files, after) && OnDisk(cfg, after, file, Gather(received, file.total))
  {
    PlainReassembly(cfg.P, files, file.name, file.total, received, d, None);
  }

  lemma StartOneExtends(cfg: Config, s: State, env: Env, k: nat)
    requires s.queue != [] && NewOnDisk(cfg, s, k)
    ensures Extends(s.files, StartOne(cfg, s, env).state.files)
    ensures NewOnDisk(cfg, StartOne(cfg, s, env).state, k)
  {
    hide StartOne, Reusable, Begun, HoldsExactly, OnDisk;
    var file, s' := s.queue[0], StartOne(cfg, s, env).state;
    var received := Reusable(cfg.P, s.files, file);
    StartOneOutcomes(cfg, s, env);
    if file.name !in s.files && Missing(received, file.total) == [] {
      LocalFileOnDisk(cfg, s.files, file, received, env.draw);
    }
    assert Extends(s.files, s'.files);
    forall j | k <= j < |s'.log| && s'.log[j].Finished? && |s'.log[j].content| < U64
      ensures OnDisk(cfg, s'.files, s'.log[j].file, s'.log[j].content)
    {
      if j < |s.log| { OnDiskExtends(cfg, s.files, s'.files, s.log[j].file, s.log[j].content); }
    }
  }

  lemma OnDiskExtends(cfg: Config, files: map<string, Bytes>, more: map<string, Bytes>, file: PendingFile,
          content: Bytes)
    requires OnDisk(cfg, files, file, content) && Extends(files, more)
    ensures OnDisk(cfg, more, file, content)
  {
  }

  lemma {:induction false} StartQueuedExtends(cfg: Config, s: State, env: Env, k: nat)
    requires NewOnDisk(cfg, s, k)
    ensures Extends(s.files, StartQueued(cfg, s, env).state.files)
    ensures NewOnDisk(cfg, StartQueued(cfg, s, env).state, k)
    decreases |s.queue|
  {
    if |s.active| < MAX_CONCURRENT_FILES && s.queue != [] {
      StartOneExtends(cfg, s, env, k);
      StartQueuedExtends(cfg, StartOne(cfg, s, env).state, env, k);
    }
  }

  lemma ReassembledIsOnDisk(cfg: Config, files: map<string, Bytes>, t: Transfer, d: Draw)
    requires SealsCorrectly(cfg.P)
    ensures var (r, after) := ReassembleOutcome(cfg.P, files, cfg.vault, t.file.name, t.file.total, t.received, d);
      var content := Gather(t.received, t.file.total);
      r.Ok? && |content| < U64 ==> OnDisk(cfg, after, t.file, content)
  {
    var content := Gather(t.received, t.file.total);
    if Missing(t.received, t.file.total) == [] && |content| < U64 {
      if cfg.vault.on {
        if cfg.vault.key.Some? {
          VaultReassembly(cfg.P, files, t.file.name, t.file.total, t.received, d, cfg.vault.key.value);
        }
      } else {
        PlainReassembly(cfg.P, files, t.file.name, t.file.total, t.received, d, cfg.vault.key);
      }
    }
  }

  lemma CompleteIsOnDisk(cfg: Config, s: State, name: string, env: Env)
    requires SealsCorrectly(cfg.P) && name in s.active
    ensures NewOnDisk(cfg, Complete(cfg, s, name, env).state, |s.log|)
  {
    var t := s.active[name];
    var (r, files) := ReassembleOutcome(cfg.P, s.files, cfg.vault, t.file.name, t.file.total, t.received, env.draw);
    ReassembledIsOnDisk(cfg, s.files, t, env.draw);
    if name !in env.failing && r.Ok? {
      var s1 := Retired(s, name, files);
      assert NewOnDisk(cfg, s1, |s.log|);
      StartQueuedExtends(cfg, s1, env, |s.log|);
    }
  }

  /** Whenever a step logs a file as finished, the folder holds its content after the step. */
  lemma StepPutsFinishedOnDisk(cfg: Config, s: State, e: Event)
    requires SealsCorrectly(cfg.P)
    ensures NewOnDisk(cfg, Step(cfg, s, e).state, |s.log|)
  {
    match e
    case Manifest(entries, env) =>
      EnqueueKeeps(cfg, s, PlainFiles(entries));
      StartQueuedExtends(cfg, Enqueue(cfg, s, PlainFiles(entries)), env, |s.log|);
    case EncryptedManifest(entries, env) =>
      var s1 := s.(inbound := InboundIds(entries));
      EnqueueKeeps(cfg, s1, SealedFiles(entries));
      StartQueuedExtends(cfg, Enqueue(cfg, s1, SealedFiles(entries)), env, |s.log|);
    case Response(ref, index, data, env) =>
      match OpenResponse(cfg, s, ref, index, data) {
        case Arrived(name, chunk, digest) =>
          var s1 := s.(active := s.active[name := Stored(s.active[name], Ask(ref, index).index, chunk)]);
          CompleteIsOnDisk(cfg, s1, name, env);
        case _ =>
      }
    case Tick(silent) => TickKeepsLog(s, silent);
    case Closed =>
    case FolderChanged(files) =>
  }

  /**
    So in every run, whenever a listed file is reported finished its content is on disk right
    then, and is the listed file's, unless it is a counterfeit.
   */
  lemma WrittenBytesAreListed(cfg: Config, files: map<string, Bytes>, events: seq<Event>, e: Event, j: nat,
      chunks: seq<Bytes>)
    requires SealsCorrectly(cfg.P)
    requires var log := Run(cfg, Fresh(files), events + [e]).log;
      && |Run(cfg, Fresh(files), events).log| <= j < |log|
      && log[j].Finished? && |log[j].content| < U64 && ListedFrom(cfg, log[j].file, chunks)
    ensures var after := Run(cfg, Fresh(files), events + [e]);
      && OnDisk(cfg, after.files, after.log[j].file, after.log[j].content)
      && (after.log[j].content == Concat(chunks) || exists pieces :: Counterfeit(cfg, after.log[j].content, chunks,
          pieces))
  {
    hide Step, ListedFrom, OnDisk, Counterfeit;
    assert (events + [e])[..|events|] == events;
    var before, after := Run(cfg, Fresh(files), events), Run(cfg, Fresh(files), events + [e]);
    assert after == Step(cfg, before, e).state;
    StepPutsFinishedOnDisk(cfg, before, e);
    assert after.log[j] == Finished(after.log[j].file, after.log[j].content);
    FinishedFilesAreTheListedOnes(cfg, files, events + [e], after.log[j].file, after.log[j].content, chunks);
  }

  lemma {:induction false} TickKeepsLog(s: State, silent: seq<string>)
    ensures var s' := OnTick(s, silent).state;
      && s'.active.Keys == s.active.Keys && s'.queue == s.queue && s'.files == s.files && s'.inbound == s.inbound
      && s'.queued == s.queued && s'.popped == s.popped && s'.log == s.log
      && forall n | n in s.active :: s'.active[n].file == s.active[n].file && s'.active[n].received
          == s.active[n].received
  {
    if silent != [] {
      TickKeepsLog(s, silent[..|silent| - 1]);
    }
  }

  // ── No file is lost on the way ──────────────────────────────────────────

  ghost function ActiveFiles(active: map<string, Transfer>): multiset<PendingFile> {
    multiset(set n | n in active :: active[n].file)
  }

  function FilesOf(log: seq<Outcome>): seq<PendingFile> {
    seq(|log|, k requires 0 <= k < |log| => log[k].file)
  }

  /**
    What was queued left the queue in the order it came, and everything that left is either
    active or accounted for in the log, each file as often as it was taken.
   */
  ghost predicate Conserved(s: State) {
    && s.queued == s.popped + s.queue
    && multiset(s.popped) == ActiveFiles(s.active) + multiset(FilesOf(s.log))
  }

  lemma ActivateFile(active: map<string, Transfer>, t: Transfer)
    requires forall n | n in active :: active[n].file.name == n
    requires t.file.name !in active
    ensures ActiveFiles(active[t.file.name := t]) == ActiveFiles(active) + multiset{t.file}
  {
    var before := set n | n in active :: active[n].file;
    var active' := active[t.file.name := t];
    assert (set n | n in active' :: active'[n].file) == before + {t.file} by {
      assert active'[t.file.name].file == t.file;
      forall n | n in active ensures active[n].file in (set n | n in active' :: active'[n].file) {
        assert active'[n].file == active[n].file;
      }
    }
    assert t.file !in before;
  }

  lemma RetireFile(active: map<string, Transfer>, name: string)
    requires forall n | n in active :: active[n].file.name == n
    requires name in active
    ensures ActiveFiles(active) == ActiveFiles(active - {name}) + multiset{active[name].file}
  {
    ActivateFile(active - {name}, active[name]);
    assert (active - {name})[name := active[name]] == active;
  }

  lemma SameFiles(active: map<string, Transfer>, active': map<string, Transfer>)
    requires active.Keys == active'.Keys && forall n | n in active :: active'[n].file == active[n].file
    ensures ActiveFiles(active) == ActiveFiles(active')
  {
    assert (set n | n in active :: active[n].file) == (set n | n in active' :: active'[n].file);
  }

  lemma LogFile(log: seq<Outcome>, o: Outcome)
    ensures FilesOf(log + [o]) == FilesOf(log) + [o.file]
  {
  }

  lemma StartOneConserves(cfg: Config, s: State, env: Env)
    requires Placed(s) && Conserved(s) && s.queue != []
    ensures Conserved(StartOne(cfg, s, env).state)
  {
    hide Reusable, ActiveFiles, FilesOf, ReassembleOutcome;
    var file, s' := s.queue[0], StartOne(cfg, s, env).state;
    var received := Reusable(cfg.P, s.files, file);
    ActivateFile(s.active, Begun(file, received));
    LogFile(s.log, Skipped(file));
    LogFile(s.log, Failed(file));
    LogFile(s.log, Finished(file, Gather(received, file.total)));
    LeavingConserves(s, s');
  }

  /** The head of the queue went either to the active table or to the log. */
  lemma LeavingConserves(s: State, s': State)
    requires Conserved(s) && s.queue != []
    requires s'.queued == s.queued && s'.queue == s.queue[1..] && s'.popped == s.popped + [s.queue[0]]
    requires || (s'.log == s.log && ActiveFiles(s'.active) == ActiveFiles(s.active) + multiset{s.queue[0]})
             || (s'.active == s.active && FilesOf(s'.log) == FilesOf(s.log) + [s.queue[0]])
    ensures Conserved(s')
  {
    hide ActiveFiles, FilesOf;
    assert s.queue == [s.queue[0]] + s.queue[1..];
  }

  lemma {:induction false} StartQueuedConserves(cfg: Config, s: State, env: Env)
    requires Placed(s) && Conserved(s)
    ensures Conserved(StartQueued(cfg, s, env).state)
    decreases |s.queue|
  {
    if |s.active| < MAX_CONCURRENT_FILES && s.queue != [] {
      StartOnePlaces(cfg, s, env);
      StartOneConserves(cfg, s, env);
      StartQueuedConserves(cfg, StartOne(cfg, s, env).state, env);
    }
  }

  lemma {:induction false} EnqueueConserves(cfg: Config, s: State, entries: seq<PendingFile>)
    requires Conserved(s)
    ensures Conserved(Enqueue(cfg, s, entries))
  {
    if entries != [] {
      EnqueueConserves(cfg, s, entries[..|entries| - 1]);
    }
  }

  lemma CompleteConserves(cfg: Config, s: State, name: string, env: Env)
    requires Placed(s) && Conserved(s) && name in s.active
    ensures Conserved(Complete(cfg, s, name, env).state)
  {
    var files := CompleteCases(cfg, s, name, env);
    hide Complete;
    var t := s.active[name];
    var s1 := Retired(s, name, files);
    RetireFile(s.active, name);
    LogFile(s.log, Finished(t.file, Gather(t.received, t.file.total)));
    SubsetSize(s1.active.Keys, s.active.Keys);
    assert |s1.active| == |s1.active.Keys| && |s.active| == |s.active.Keys|;
    StartQueuedConserves(cfg, s1, env);
  }

  lemma AcceptConserves(cfg: Config, s: State, name: string, via: FileRef, index: nat, chunk: Bytes, digest: Bytes32,
          env: Env)
    requires Placed(s) && Conserved(s) && name in s.active
    ensures Conserved(Accept(cfg, s, name, via, index, chunk, digest, env).state)
  {
    hide ActiveFiles, FilesOf, Complete;
    var s1 := s.(active := s.active[name := Stored(s.active[name], index, chunk)]);
    SameFiles(s.active, s1.active);
    assert |s1.active| == |s1.active.Keys| && |s.active| == |s.active.Keys| && s1.active.Keys == s.active.Keys;
    CompleteConserves(cfg, s1, name, env);
  }

  lemma StepConserves(cfg: Config, s: State, e: Event)
    requires Placed(s) && Conserved(s)
    ensures Conserved(Step(cfg, s, e).state)
  {
    match e
    case Manifest(entries, env) =>
      EnqueuePlaces(cfg, s, PlainFiles(entries));
      EnqueueConserves(cfg, s, PlainFiles(entries));
      StartQueuedConserves(cfg, Enqueue(cfg, s, PlainFiles(entries)), env);
    case EncryptedManifest(entries, env) =>
      var s1 := s.(inbound := InboundIds(entries));
      EnqueuePlaces(cfg, s1, SealedFiles(entries));
      EnqueueConserves(cfg, s1, SealedFiles(entries));
      StartQueuedConserves(cfg, Enqueue(cfg, s1, SealedFiles(entries)), env);
    case Response(ref, index, data, env) =>
      match OpenResponse(cfg, s, ref, index, data) {
        case Arrived(name, chunk, digest) =>
          AcceptConserves(cfg, s, name, ref, Ask(ref, index).index, chunk, digest, env);
        case _ =>
      }
    case Tick(silent) =>
      TickKeepsLog(s, silent);
      SameFiles(s.active, OnTick(s, silent).state.active);
    case Closed =>
    case FolderChanged(files) =>
  }

  lemma {:induction false} RunConserves(cfg: Config, files: map<string, Bytes>, events: seq<Event>)
    ensures Conserved(Run(cfg, Fresh(files), events))
  {
    if events != [] {
      var before := Run(cfg, Fresh(files), events[..|events| - 1]);
      RunConserves(cfg, files, events[..|events| - 1]);
      RunStaysScheduled(cfg, files, events[..|events| - 1]);
      StepConserves(cfg, before, events[|events| - 1]);
    }
  }
}
