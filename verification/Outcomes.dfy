/**
  What becomes of queued files: in runs without losses and failed writes every one of them is
  finished, or was there already; and when nobody else touches the listed names, every listed
  file that was absent is finished and its bytes stay in the folder.
 */
module Outcomes {
  import opened Basics
  import opened Crypto
  import opened Paths
  import opened VaultIo
  import opened Chunking
  import opened Listing
  import opened Reassembly
  import opened Download
  import opened TransferSafety
  import opened Network
  import opened Writing
  import opened Liveness

  // ── Finished, or already there ──────────────────────────────────────────

  /** The file is in the folder under its name or, in vault mode, in its container. */
  ghost predicate Delivered(cfg: Config, files: map<string, Bytes>, o: Outcome) {
    match o
    case Finished(file, _) => file.name in files || (cfg.vault.on && Vit(file.name) in files)
    case Skipped(file) => file.name in files
    case Failed(_) => false
  }

  ghost predicate AllDelivered(cfg: Config, s: State) {
    forall k | 0 <= k < |s.log| :: Delivered(cfg, s.files, s.log[k])
  }

  /** Others may change the folder, but a name that is there stays. */
  ghost predicate NamesStay(s: State, e: NetEvent) {
    e.FolderChange? ==> s.files.Keys <= e.files.Keys
  }

  lemma MoreNames(cfg: Config, s: State, s': State)
    requires AllDelivered(cfg, s) && s.files.Keys <= s'.files.Keys
    requires s'.log == s.log || (|s'.log| == |s.log| + 1 && s.log <= s'.log
        && Delivered(cfg, s'.files, s'.log[|s.log|]))
    ensures AllDelivered(cfg, s')
  {
    forall k | 0 <= k < |s'.log| ensures Delivered(cfg, s'.files, s'.log[k]) {
      if k < |s.log| { assert Delivered(cfg, s.files, s.log[k]); }
    }
  }

  lemma ReassemblyAddsNames(P: Primitives, files: map<string, Bytes>, vault: Vault, name: string, total: nat,
                            received: map<nat, Bytes>, d: Draw)
    ensures var (r, after) := ReassembleOutcome(P, files, vault, name, total, received, d);
      && files.Keys <= after.Keys
      && (r.Ok? ==> name in after || (vault.on && Vit(name) in after))
  {
    hide Missing, Gather, ConflictName, FirstTooBig, ChunkList, Unsafe;
  }

  lemma StartOneDelivers(cfg: Config, s: State, env: Env)
    requires AllDelivered(cfg, s) && s.queue != [] && env.failing == {}
    ensures var s' := StartOne(cfg, s, env).state; AllDelivered(cfg, s') && s.files.Keys <= s'.files.Keys
  {
    hide StartOne, ReassembleOutcome, Missing, Gather, AllDelivered, Reusable;
    var file := s.queue[0];
    var received := Reusable(cfg.P, s.files, file);
    StartOneOutcomes(cfg, s, env);
    ReassemblyAddsNames(cfg.P, s.files, NO_VAULT, file.name, file.total, received, env.draw);
    if Missing(received, file.total) == [] { LocalWriteSucceeds(cfg.P, s.files, file, received, env.draw); }
    MoreNames(cfg, s, StartOne(cfg, s, env).state);
  }

  lemma LocalWriteSucceeds(P: Primitives, files: map<string, Bytes>, file: PendingFile, received: map<nat, Bytes>,
      d: Draw)
    requires Missing(received, file.total) == []
    ensures ReassembleOutcome(P, files, NO_VAULT, file.name, file.total, received, d).0.Ok?
  {
  }

  lemma {:induction false} StartQueuedDelivers(cfg: Config, s: State, env: Env)
    requires AllDelivered(cfg, s) && env.failing == {}
    ensures var s' := StartQueued(cfg, s, env).state; AllDelivered(cfg, s') && s.files.Keys <= s'.files.Keys
    decreases |s.queue|
  {
    hide StartOne, AllDelivered;
    if |s.active| < MAX_CONCURRENT_FILES && s.queue != [] {
      StartOneDelivers(cfg, s, env);
      StartQueuedDelivers(cfg, StartOne(cfg, s, env).state, env);
    }
  }

  lemma CompleteDelivers(cfg: Config, s: State, n: string, env: Env)
    requires AllDelivered(cfg, s) && n in s.active && env.failing == {}
    ensures var s' := Complete(cfg, s, n, env).state; AllDelivered(cfg, s') && s.files.Keys <= s'.files.Keys
  {
    hide StartQueued, ReassembleOutcome, Gather, AllDelivered;
    var t := s.active[n];
    var (r, files) := ReassembleOutcome(cfg.P, s.files, cfg.vault, t.file.name, t.file.total, t.received, env.draw);
    ReassemblyAddsNames(cfg.P, s.files, cfg.vault, t.file.name, t.file.total, t.received, env.draw);
    if r.Err? {
      MoreNames(cfg, s, s.(files := files));
    } else {
      MoreNames(cfg, s, Retired(s, n, files));
      StartQueuedDelivers(cfg, Retired(s, n, files), env);
    }
  }

  lemma AcceptDelivers(cfg: Config, s: State, n: string, via: FileRef, index: nat, chunk: Bytes, digest: Bytes32,
      env: Env)
    requires AllDelivered(cfg, s) && n in s.active && env.failing == {}
    ensures var s' := Accept(cfg, s, n, via, index, chunk, digest, env).state;
      AllDelivered(cfg, s') && s.files.Keys <= s'.files.Keys
  {
    hide Complete, AllDelivered, Advance, CountedComplete;
    var s1 := s.(active := s.active[n := Stored(s.active[n], index, chunk)]);
    MoreNames(cfg, s, s1);
    CompleteDelivers(cfg, s1, n, env);
  }

  lemma StepDelivers(cfg: Config, s: State, e: NetEvent)
    requires AllDelivered(cfg, s) && Obliging(cfg, e) && NamesStay(s, e) && !e.Lose?
    ensures AllDelivered(cfg, Step(cfg, s, ToEvent(e)).state)
  {
    hide StartQueued, Accept, OpenResponse, OnTick, AllDelivered, Enqueue, InboundIds, Opened, FitsRecord;
    match e
    case Answer(_, ref, index, data, env) =>
      var a := OpenResponse(cfg, s, ref, index, data);
      if a.Arrived? {
        AcceptDelivers(cfg, s, a.name, ref, Ask(ref, index).index, a.chunk, a.digest, env);
      }
    case Silence(silent) =>
      TickKeepsLog(s, silent);
      MoreNames(cfg, s, OnTick(s, silent).state);
    case FolderChange(files) => MoreNames(cfg, s, s.(files := files));
    case Listed(entries, env) =>
      var s1 := Enqueue(cfg, s, PlainFiles(entries));
      EnqueueKeeps(cfg, s, PlainFiles(entries));
      MoreNames(cfg, s, s1);
      StartQueuedDelivers(cfg, s1, env);
    case ListedSealed(entries, env) =>
      var s0 := s.(inbound := InboundIds(entries));
      var s1 := Enqueue(cfg, s0, SealedFiles(entries));
      EnqueueKeeps(cfg, s0, SealedFiles(entries));
      MoreNames(cfg, s, s1);
      StartQueuedDelivers(cfg, s1, env);
  }

  /** In the whole run. */
  ghost predicate NamesAlwaysStay(cfg: Config, sys: Sys, events: seq<NetEvent>) {
    events == [] || (
      var rest := events[..|events| - 1];
      NamesAlwaysStay(cfg, sys, rest) && NamesStay(NetRun(cfg, sys, rest).s, events[|events| - 1]))
  }

  lemma {:induction false} LosslessRunsDeliver(cfg: Config, src: map<string, PendingFile>, files: map<string, Bytes>,
                                               events: seq<NetEvent>)
    requires Lossless(cfg, src, Sys(Fresh(files), multiset{}), events)
    requires NamesAlwaysStay(cfg, Sys(Fresh(files), multiset{}), events)
    ensures AllDelivered(cfg, NetRun(cfg, Sys(Fresh(files), multiset{}), events).s)
  {
    hide Step, AllDelivered, NamesStay, Obliging, Static;
    if events == [] {
      assert AllDelivered(cfg, Fresh(files)) by { NothingLogged(cfg, files); }
    } else {
      var rest, e := events[..|events| - 1], events[|events| - 1];
      LosslessRunsDeliver(cfg, src, files, rest);
      StepDelivers(cfg, NetRun(cfg, Sys(Fresh(files), multiset{}), rest).s, e);
    }
  }

  lemma NothingLogged(cfg: Config, files: map<string, Bytes>)
    ensures AllDelivered(cfg, Fresh(files))
  {
  }

  /**
    A run without losses and failed writes, in which nobody removes files, rests only when
    every queued file has been finished or was found in the folder - and is there.
   */
  lemma RestMeansDelivered(cfg: Config, src: map<string, PendingFile>, files: map<string, Bytes>, events: seq<NetEvent>)
    requires WellFormed(src) && Writable(cfg, src) && Lossless(cfg, src, Sys(Fresh(files), multiset{}), events)
    requires NamesAlwaysStay(cfg, Sys(Fresh(files), multiset{}), events)
    requires NetRun(cfg, Sys(Fresh(files), multiset{}), events).net == multiset{}
    ensures var end := NetRun(cfg, Sys(Fresh(files), multiset{}), events).s;
      forall file | file in end.queued :: exists k | 0 <= k < |end.log| ::
        end.log[k].file == file && !end.log[k].Failed? && Delivered(cfg, end.files, end.log[k])
  {
    hide NetRun, Lossless, NamesAlwaysStay, Writable, Delivered, WellFormed;
    var end := NetRun(cfg, Sys(Fresh(files), multiset{}), events).s;
    RestMeansDone(cfg, src, files, events);
    LosslessRunsDeliver(cfg, src, files, events);
    forall file | file in end.queued
      ensures exists k | 0 <= k < |end.log| ::
                end.log[k].file == file && !end.log[k].Failed? && Delivered(cfg, end.files, end.log[k])
    {
      assert file in multiset(end.queued);
      var k := LoggedAt(end.log, file);
      NotFailed(cfg, end.files, end.log[k]);
    }
  }

  lemma LoggedAt(log: seq<Outcome>, file: PendingFile) returns (k: nat)
    requires file in multiset(FilesOf(log))
    ensures k < |log| && log[k].file == file
  {
    assert file in FilesOf(log);
    k :| 0 <= k < |log| && FilesOf(log)[k] == file;
  }

  lemma NotFailed(cfg: Config, files: map<string, Bytes>, o: Outcome)
    requires Delivered(cfg, files, o)
    ensures !o.Failed?
  {
  }

  // ── When nobody else touches the listed names ───────────────────────────

  ghost predicate Free(cfg: Config, files: map<string, Bytes>, n: string) {
    n !in files && (cfg.vault.on ==> Vit(n) !in files)
  }

  /** No name of a file being downloaded or waiting is taken. */
  ghost predicate Vacant(cfg: Config, s: State) {
    && (forall n | n in s.active :: Free(cfg, s.files, n))
    && (forall k | 0 <= k < |s.queue| :: Free(cfg, s.files, s.queue[k].name))
  }

  ghost predicate Landed(cfg: Config, src: map<string, PendingFile>, files: map<string, Bytes>, o: Outcome) {
    o.Finished? && FromListing(src, o.file) && OnDisk(cfg, files, o.file, o.content)
  }

  ghost predicate AllLanded(cfg: Config, src: map<string, PendingFile>, s: State) {
    forall k | 0 <= k < |s.log| :: Landed(cfg, src, s.files, s.log[k])
  }

  ghost predicate Tidy(cfg: Config, src: map<string, PendingFile>, s: State) {
    Vacant(cfg, s) && AllLanded(cfg, src, s)
  }

  /** In vault mode no listed name is the container of another. */
  ghost predicate Apart(cfg: Config, src: map<string, PendingFile>) {
    cfg.vault.on ==> forall m, n | m in src && n in src :: Vit(m) != n
  }

  /** The file is not one that plaintext manifests bring back: there only as a container. */
  predicate NotJustStored(cfg: Config, files: map<string, Bytes>, file: PendingFile) {
    cfg.vault.on && file.fileId.None? ==> file.name in files || Vit(file.name) !in files
  }

  predicate OffersNew(cfg: Config, files: map<string, Bytes>, e: NetEvent) {
    e.Listed? ==> forall k | 0 <= k < |e.entries| :: NotJustStored(cfg, files, Plain(e.entries[k]))
  }

  /** Others only change what is not listed. */
  ghost predicate Elsewhere(src: map<string, PendingFile>, files: map<string, Bytes>, files': map<string, Bytes>) {
    forall n | n in src ::
      && (n in files' <==> n in files) && (n in files ==> files'[n] == files[n])
      && (Vit(n) in files' <==> Vit(n) in files) && (Vit(n) in files ==> files'[Vit(n)] == files[Vit(n)])
  }

  /** Where a finished file is stored. */
  function Place(vault: Vault, n: string): string {
    if vault.on then Vit(n) else n
  }

  lemma {:induction false} GatherBound(received: map<nat, Bytes>, n: nat)
    requires forall i | i in received :: |received[i]| < U32
    ensures |Gather(received, n)| <= n * (U32 - 1)
  {
    if n > 0 {
      GatherBound(received, n - 1);
      assert (n - 1) * (U32 - 1) + (U32 - 1) == n * (U32 - 1);
    }
  }

  lemma FitsSize(n: nat)
    requires n < U32
    ensures n * (U32 - 1) < U64
  {
    assert n * (U32 - 1) <= (U32 - 1) * (U32 - 1);
  }

  /** A complete download whose name is free is written in one new place and is on disk then. */
  lemma LandsOnDisk(cfg: Config, src: map<string, PendingFile>, files: map<string, Bytes>, t: Transfer, d: Draw)
    requires Writable(cfg, src) && FromListing(src, t.file) && Storable(cfg, t) && Free(cfg, files, t.file.name)
    requires Missing(t.received, t.file.total) == []
    ensures var after := ReassembleOutcome(cfg.P, files, cfg.vault, t.file.name, t.file.total, t.received, d).1;
      var place := Place(cfg.vault, t.file.name);
      && place !in files && place in after && after == files[place := after[place]]
      && OnDisk(cfg, after, t.file, Gather(t.received, t.file.total))
  {
    WriteSucceeds(cfg, files, t, d);
    if cfg.vault.on {
      GatherBound(t.received, t.file.total);
      FitsSize(t.file.total);
      ReassembledIsOnDisk(cfg, files, t, d);
    } else {
      PlainReassembly(cfg.P, files, t.file.name, t.file.total, t.received, d, cfg.vault.key);
    }
  }

  lemma LandsLocally(cfg: Config, files: map<string, Bytes>, file: PendingFile, received: map<nat, Bytes>, d: Draw)
    requires file.name !in files && Missing(received, file.total) == []
    ensures var after := ReassembleOutcome(cfg.P, files, NO_VAULT, file.name, file.total, received, d).1;
      && file.name in after && after == files[file.name := after[file.name]]
      && OnDisk(cfg, after, file, Gather(received, file.total))
  {
    LocalFileOnDisk(cfg, files, file, received, d);
  }

  /** Writing one new place takes no other listed name and changes nothing that has landed. */
  lemma OthersStayFree(cfg: Config, src: map<string, PendingFile>, files: map<string, Bytes>, n: string, m: string,
                       vault: Vault, content: Bytes)
    requires Apart(cfg, src) && n in src && m in src && m != n && (vault.on ==> cfg.vault.on) && Free(cfg, files, m)
    ensures Free(cfg, files[Place(vault, n) := content], m)
  {
    VitIsInjective(m, n);
  }

  lemma LandedStays(cfg: Config, src: map<string, PendingFile>, files: map<string, Bytes>, place: string,
      content: Bytes, o: Outcome)
    requires Landed(cfg, src, files, o) && place !in files
    ensures Landed(cfg, src, files[place := content], o)
  {
    OnDiskExtends(cfg, files, files[place := content], o.file, o.content);
  }

  /** One file has been written and logged; the rest is as before. */
  lemma LandingIsTidy(cfg: Config, src: map<string, PendingFile>, s: State, s': State, n: string, vault: Vault,
      content: Bytes)
    requires AllLanded(cfg, src, s) && Apart(cfg, src) && n in src && (vault.on ==> cfg.vault.on)
    requires Place(vault, n) !in s.files && s'.files == s.files[Place(vault, n) := content]
    requires |s'.log| == |s.log| + 1 && s.log <= s'.log && Landed(cfg, src, s'.files, s'.log[|s.log|])
    requires forall m | m in s'.active :: m in src && m != n && Free(cfg, s.files, m)
    requires forall k | 0 <= k < |s'.queue| ::
               s'.queue[k].name in src && s'.queue[k].name != n && Free(cfg, s.files, s'.queue[k].name)
    ensures Tidy(cfg, src, s')
  {
    hide Landed, Free, Apart, Place;
    forall m | m in s'.active ensures Free(cfg, s'.files, m) {
      OthersStayFree(cfg, src, s.files, n, m, vault, content);
    }
    forall k | 0 <= k < |s'.queue| ensures Free(cfg, s'.files, s'.queue[k].name) {
      OthersStayFree(cfg, src, s.files, n, s'.queue[k].name, vault, content);
    }
    forall k | 0 <= k < |s'.log| ensures Landed(cfg, src, s'.files, s'.log[k]) {
      if k < |s.log| {
        assert Landed(cfg, src, s.files, s.log[k]);
        LandedStays(cfg, src, s.files, Place(vault, n), content, s.log[k]);
      }
    }
  }

  /** What the states of a run have in common. */
  ghost predicate Ready(cfg: Config, src: map<string, PendingFile>, s: State) {
    WellFormed(src) && Known(cfg, src, s) && Placed(s) && Tidy(cfg, src, s)
  }

  lemma StartOneTidy(cfg: Config, src: map<string, PendingFile>, s: State, env: Env)
    requires Ready(cfg, src, s) && Apart(cfg, src) && s.queue != [] && env.failing == {}
    ensures Tidy(cfg, src, StartOne(cfg, s, env).state)
  {
    var file, s' := s.queue[0], StartOne(cfg, s, env).state;
    var received := Reusable(cfg.P, s.files, file);
    assert FileKnown(cfg, src, s.inbound, file) && Free(cfg, s.files, file.name);
    assert forall n | n in s.active :: FileKnown(cfg, src, s.inbound, s.active[n].file);
    assert forall k | 0 <= k < |s'.queue| :: s'.queue[k] == s.queue[k + 1];
    hide StartOne, Reusable, Missing, Gather, ReassembleOutcome, OnDisk, Begun, WellFormed;
    StartOneOutcomes(cfg, s, env);
    if Missing(received, file.total) == [] {
      LandsLocally(cfg, s.files, file, received, env.draw);
    }
    if s'.files != s.files || |s'.log| > |s.log| {
      hide Landed, Free, Apart;
      LandingIsTidy(cfg, src, s, s', file.name, NO_VAULT, s'.files[file.name]);
    }
  }

  lemma {:induction false} StartQueuedTidy(cfg: Config, src: map<string, PendingFile>, s: State, env: Env)
    requires Ready(cfg, src, s) && Apart(cfg, src) && env.failing == {}
    ensures Tidy(cfg, src, StartQueued(cfg, s, env).state)
    decreases |s.queue|
  {
    hide StartOne, Tidy, Known, Placed, WellFormed, Apart;
    if |s.active| < MAX_CONCURRENT_FILES && s.queue != [] {
      StartOneTidy(cfg, src, s, env);
      StartOneKnown(cfg, src, s, env);
      StartOnePlaces(cfg, s, env);
      StartQueuedTidy(cfg, src, StartOne(cfg, s, env).state, env);
    }
  }

  lemma EnqueueOneTidy(cfg: Config, src: map<string, PendingFile>, s: State, file: PendingFile)
    requires Tidy(cfg, src, s) && FromListing(src, file) && NotJustStored(cfg, s.files, file)
    ensures Tidy(cfg, src, EnqueueOne(cfg, s, file))
  {
    hide Landed;
  }

  lemma {:induction false} EnqueueTidy(cfg: Config, src: map<string, PendingFile>, s: State, entries: seq<PendingFile>)
    requires Tidy(cfg, src, s) && forall k | 0 <= k < |entries| :: FromListing(src, entries[k])
    requires forall k | 0 <= k < |entries| :: NotJustStored(cfg, s.files, entries[k])
    ensures Tidy(cfg, src, Enqueue(cfg, s, entries))
  {
    hide Tidy, FromListing, EnqueueOne, NotJustStored;
    if entries != [] {
      EnqueueKeeps(cfg, s, entries[..|entries| - 1]);
      EnqueueTidy(cfg, src, s, entries[..|entries| - 1]);
      EnqueueOneTidy(cfg, src, Enqueue(cfg, s, entries[..|entries| - 1]), entries[|entries| - 1]);
    }
  }

  lemma RetiredTidy(cfg: Config, src: map<string, PendingFile>, s: State, n: string, d: Draw)
    requires Ready(cfg, src, s) && Apart(cfg, src) && Writable(cfg, src) && n in s.active && Storable(cfg, s.active[n])
    requires Missing(s.active[n].received, s.active[n].file.total) == []
    ensures var t := s.active[n];
      var files := ReassembleOutcome(cfg.P, s.files, cfg.vault, t.file.name, t.file.total, t.received, d).1;
      Tidy(cfg, src, Retired(s, n, files))
  {
    var t := s.active[n];
    var files := ReassembleOutcome(cfg.P, s.files, cfg.vault, t.file.name, t.file.total, t.received, d).1;
    assert forall m | m in s.active :: FileKnown(cfg, src, s.inbound, s.active[m].file);
    hide ReassembleOutcome, Gather, OnDisk, Storable, Writable, Missing;
    LandsOnDisk(cfg, src, s.files, t, d);
    var s' := Retired(s, n, files);
    assert Landed(cfg, src, s'.files, s'.log[|s.log|]);
    hide Landed, Free, Apart;
    LandingIsTidy(cfg, src, s, s', n, cfg.vault, files[Place(cfg.vault, n)]);
  }

  lemma AcceptTidy(cfg: Config, src: map<string, PendingFile>, s: State, n: string, via: FileRef, index: nat,
                   chunk: Bytes, digest: Bytes32, env: Env)
    requires Ready(cfg, src, s) && Apart(cfg, src) && Writable(cfg, src) && n in s.active
    requires AllStorable(cfg, s) && FitsRecord(cfg, chunk) && env.failing == {}
    ensures Tidy(cfg, src, Accept(cfg, s, n, via, index, chunk, digest, env).state)
  {
    hide Complete, Missing, StartQueued, Advance, Apart, Writable, ReassembleOutcome, Ready, Tidy, Known, Placed,
        WellFormed, TransferKnown, FileKnown, FitsRecord;
    var t := s.active[n];
    ReadyTransfer(cfg, src, s, n);
    assert Storable(cfg, t);
    if index < |t.file.hashes| && t.file.hashes[index] == digest {
      var t1 := Stored(t, index, chunk);
      var s1 := s.(active := s.active[n := t1]);
      StoringReady(cfg, src, s, n, index, chunk);
      CountingWithinRange(t1.received, t1.file.total);
      if Missing(t1.received, t1.file.total) == [] {
        CompleteTidy(cfg, src, s1, n, env);
      }
    }
  }

  lemma ReadyTransfer(cfg: Config, src: map<string, PendingFile>, s: State, n: string)
    requires Ready(cfg, src, s) && n in s.active
    ensures Tidy(cfg, src, s)
    ensures var t := s.active[n]; |t.file.hashes| == t.file.total && forall i | i in t.received :: i < t.file.total
  {
    ActiveIsKnown(cfg, src, s, n);
  }

  lemma StoringReady(cfg: Config, src: map<string, PendingFile>, s: State, n: string, index: nat, chunk: Bytes)
    requires Ready(cfg, src, s) && n in s.active && index < |s.active[n].file.hashes|
    ensures var s1 := s.(active := s.active[n := Stored(s.active[n], index, chunk)]);
        Ready(cfg, src, s1) && Tidy(cfg, src, s1)
  {
    assert TransferKnown(cfg, src, s.inbound, s.active[n]);
    hide Landed, Free, FileKnown;
    var s1 := s.(active := s.active[n := Stored(s.active[n], index, chunk)]);
    assert s1.active.Keys == s.active.Keys;
    assert |s1.active| == |s1.active.Keys| && |s.active| == |s.active.Keys|;
  }

  lemma CompleteTidy(cfg: Config, src: map<string, PendingFile>, s: State, n: string, env: Env)
    requires Ready(cfg, src, s) && Apart(cfg, src) && Writable(cfg, src) && n in s.active && Storable(cfg, s.active[n])
    requires Missing(s.active[n].received, s.active[n].file.total) == [] && env.failing == {}
    ensures Tidy(cfg, src, Complete(cfg, s, n, env).state)
  {
    var t := s.active[n];
    var files := ReassembleOutcome(cfg.P, s.files, cfg.vault, t.file.name, t.file.total, t.received, env.draw).1;
    var s1 := Retired(s, n, files);
    assert TransferKnown(cfg, src, s.inbound, t);
    hide StartQueued, ReassembleOutcome, Apart, Tidy, Missing, Writable, Gather, WellFormed;
    WriteSucceedsFor(cfg, src, s.files, t, env.draw);
    RetiredTidy(cfg, src, s, n, env.draw);
    SubsetSize(s1.active.Keys, s.active.Keys);
    assert |s1.active| == |s1.active.Keys| && |s.active| == |s.active.Keys|;
    StartQueuedTidy(cfg, src, s1, env);
  }

  lemma WriteSucceedsFor(cfg: Config, src: map<string, PendingFile>, files: map<string, Bytes>, t: Transfer, d: Draw)
    requires Writable(cfg, src) && FromListing(src, t.file) && Storable(cfg, t)
        && Missing(t.received, t.file.total) == []
    ensures ReassembleOutcome(cfg.P, files, cfg.vault, t.file.name, t.file.total, t.received, d).0.Ok?
  {
    WriteSucceeds(cfg, files, t, d);
  }

  /** A static manifest, a chunk, a stall check, or a change elsewhere in the folder. */
  lemma StepTidy(cfg: Config, src: map<string, PendingFile>, s: State, e: NetEvent)
    requires Ready(cfg, src, s) && Apart(cfg, src) && Writable(cfg, src) && AllStorable(cfg, s)
    requires Static(src, e) && Obliging(cfg, e) && !e.Lose? && (e.FolderChange? ==> Elsewhere(src, s.files, e.files))
    requires OffersNew(cfg, s.files, e)
    ensures Tidy(cfg, src, Step(cfg, s, ToEvent(e)).state)
  {
    hide StartQueued, Accept, OpenResponse, OnTick, Enqueue, InboundIds, Opened, Apart, Writable, AllStorable;
    match e
    case Answer(_, ref, index, data, env) =>
      hide Ready, FitsRecord;
      var a := OpenResponse(cfg, s, ref, index, data);
      if a.Arrived? {
        AcceptTidy(cfg, src, s, a.name, ref, Ask(ref, index).index, a.chunk, a.digest, env);
      }
    case Silence(silent) =>
      TickKeepsLog(s, silent);
    case FolderChange(files) =>
      ElsewhereTidy(cfg, src, s, files);
    case Listed(_, _) => ManifestTidy(cfg, src, s, e);
    case ListedSealed(_, _) => ManifestTidy(cfg, src, s, e);
  }

  lemma ElsewhereTidy(cfg: Config, src: map<string, PendingFile>, s: State, files: map<string, Bytes>)
    requires Ready(cfg, src, s) && Elsewhere(src, s.files, files)
    ensures Tidy(cfg, src, s.(files := files))
  {
    var s' := s.(files := files);
    assert forall n | n in s.active :: FileKnown(cfg, src, s.inbound, s.active[n].file);
    assert forall k | 0 <= k < |s.queue| :: FileKnown(cfg, src, s.inbound, s.queue[k]);
    hide HoldsExactly;
    forall k | 0 <= k < |s.log| ensures Landed(cfg, src, files, s.log[k]) {
      assert Landed(cfg, src, s.files, s.log[k]);
    }
  }

  lemma ManifestTidy(cfg: Config, src: map<string, PendingFile>, s: State, e: NetEvent)
    requires Ready(cfg, src, s) && Apart(cfg, src) && Static(src, e) && Obliging(cfg, e)
        && (e.Listed? || e.ListedSealed?) && OffersNew(cfg, s.files, e)
    ensures Tidy(cfg, src, Step(cfg, s, ToEvent(e)).state)
  {
    hide StartQueued, Enqueue, Apart, Known, Placed, Tidy;
    if e.Listed? {
      var files := PlainFiles(e.entries);
      EnqueueKnown(cfg, src, s, files);
      EnqueuePlaces(cfg, s, files);
      EnqueueTidy(cfg, src, s, files);
      StartQueuedTidy(cfg, src, Enqueue(cfg, s, files), e.env);
    } else if cfg.key.Some? {
      var s1, files := s.(inbound := InboundIds(e.sealedEntries)), SealedFiles(e.sealedEntries);
      NewIdsKeepKnown(cfg, src, s, e.sealedEntries);
      SamePlacesNewIds(cfg, src, s, s1);
      EnqueueKnown(cfg, src, s1, files);
      EnqueuePlaces(cfg, s1, files);
      EnqueueTidy(cfg, src, s1, files);
      StartQueuedTidy(cfg, src, Enqueue(cfg, s1, files), e.env);
    }
  }

  lemma SamePlacesNewIds(cfg: Config, src: map<string, PendingFile>, s: State, s1: State)
    requires Placed(s) && Tidy(cfg, src, s) && s1 == s.(inbound := s1.inbound)
    ensures Placed(s1) && Tidy(cfg, src, s1)
  {
    hide Landed, Free;
  }

  /** In the whole run. */
  ghost predicate AlwaysElsewhere(cfg: Config, src: map<string, PendingFile>, sys: Sys, events: seq<NetEvent>) {
    events == [] || (
      var rest, e := events[..|events| - 1], events[|events| - 1];
      AlwaysElsewhere(cfg, src, sys, rest) && (e.FolderChange? ==> Elsewhere(src, NetRun(cfg, sys, rest).s.files,
          e.files)))
  }

  /** In the whole run: no plaintext manifest lists a file that is there only as a container. */
  ghost predicate AlwaysNew(cfg: Config, sys: Sys, events: seq<NetEvent>) {
    events == [] || (
      var rest := events[..|events| - 1];
      AlwaysNew(cfg, sys, rest) && OffersNew(cfg, NetRun(cfg, sys, rest).s.files, events[|events| - 1]))
  }

  /** Encrypted files and plaintext mode never come to that. */
  lemma {:induction false} EncryptedIsNew(cfg: Config, src: map<string, PendingFile>, sys: Sys, events: seq<NetEvent>)
    requires Lossless(cfg, src, sys, events) && (cfg.vault.on ==> forall n | n in src :: src[n].fileId.Some?)
    ensures AlwaysNew(cfg, sys, events)
  {
    if events != [] {
      hide NetRun, Obliging;
      var e := events[|events| - 1];
      EncryptedIsNew(cfg, src, sys, events[..|events| - 1]);
      if e.Listed? {
        forall k | 0 <= k < |e.entries|
          ensures NotJustStored(cfg, NetRun(cfg, sys, events[..|events| - 1]).s.files, Plain(e.entries[k]))
        {
          ListedIsNew(cfg, src, NetRun(cfg, sys, events[..|events| - 1]).s.files, Plain(e.entries[k]));
        }
      }
    }
  }

  lemma ListedIsNew(cfg: Config, src: map<string, PendingFile>, files: map<string, Bytes>, file: PendingFile)
    requires FromListing(src, file) && (cfg.vault.on ==> forall n | n in src :: src[n].fileId.Some?)
    ensures NotJustStored(cfg, files, file)
  {
  }

  lemma {:induction false} LosslessRunsStayTidy(cfg: Config, src: map<string, PendingFile>, sys: Sys,
      events: seq<NetEvent>)
    requires Writable(cfg, src) && Apart(cfg, src) && Healthy(cfg, src, sys) && Tidy(cfg, src, sys.s)
    requires Lossless(cfg, src, sys, events) && AlwaysElsewhere(cfg, src, sys, events) && AlwaysNew(cfg, sys, events)
    ensures Tidy(cfg, src, NetRun(cfg, sys, events).s)
  {
    hide Step, Tidy, Static, Obliging, Writable, Apart, Flowing, Pending, AllStorable, Conserved, Known, Placed,
        KnownRequest, OffersNew;
    if events != [] {
      var rest, e := events[..|events| - 1], events[|events| - 1];
      LosslessRunsStayTidy(cfg, src, sys, rest);
      LosslessRunsStayHealthy(cfg, src, sys, rest);
      StepTidy(cfg, src, NetRun(cfg, sys, rest).s, e);
    }
  }

  // ── What was queued stays queued, or has left ───────────────────────────

  lemma {:induction false} StartQueuedKeepsHistory(cfg: Config, s: State, env: Env)
    ensures StartQueued(cfg, s, env).state.queued == s.queued
    decreases |s.queue|
  {
    hide StartOne;
    if |s.active| < MAX_CONCURRENT_FILES && s.queue != [] {
      HistoryOfOne(cfg, s, env);
      StartQueuedKeepsHistory(cfg, StartOne(cfg, s, env).state, env);
    }
  }

  lemma HistoryOfOne(cfg: Config, s: State, env: Env)
    requires s.queue != []
    ensures StartOne(cfg, s, env).state.queued == s.queued
  {
    hide Reusable, ReassembleOutcome;
  }

  lemma {:induction false} EnqueueQueues(cfg: Config, s: State, entries: seq<PendingFile>)
    ensures s.queued <= Enqueue(cfg, s, entries).queued
  {
    if entries != [] {
      EnqueueQueues(cfg, s, entries[..|entries| - 1]);
    }
  }

  lemma StepKeepsHistory(cfg: Config, s: State, e: NetEvent)
    requires !e.Lose?
    ensures s.queued <= Step(cfg, s, ToEvent(e)).state.queued
    ensures !e.Listed? && !e.ListedSealed? ==> s.queued == Step(cfg, s, ToEvent(e)).state.queued
  {
    hide StartQueued, OpenResponse, OnTick, Enqueue, InboundIds, Complete;
    match e
    case Answer(_, ref, index, data, env) =>
      var a := OpenResponse(cfg, s, ref, index, data);
      if a.Arrived? {
        var s1 := s.(active := s.active[a.name := Stored(s.active[a.name], Ask(ref, index).index, a.chunk)]);
        var files := CompleteCases(cfg, s1, a.name, env);
        StartQueuedKeepsHistory(cfg, Retired(s1, a.name, files), env);
      }
    case Silence(silent) => TickKeepsLog(s, silent);
    case FolderChange(_) =>
    case Listed(entries, env) =>
      EnqueueQueues(cfg, s, PlainFiles(entries));
      StartQueuedKeepsHistory(cfg, Enqueue(cfg, s, PlainFiles(entries)), env);
    case ListedSealed(entries, env) =>
      var s1 := s.(inbound := InboundIds(entries));
      EnqueueQueues(cfg, s1, SealedFiles(entries));
      StartQueuedKeepsHistory(cfg, Enqueue(cfg, s1, SealedFiles(entries)), env);
  }

  lemma {:induction false} RunsKeepHistory(cfg: Config, sys: Sys, first: NetEvent, rest: seq<NetEvent>)
    ensures NetRun(cfg, NetStep(cfg, sys, first), rest) == NetRun(cfg, sys, [first] + rest)
    ensures NetStep(cfg, sys, first).s.queued <= NetRun(cfg, sys, [first] + rest).s.queued
  {
    hide NetStep;
    var all := [first] + rest;
    if rest == [] {
      assert all[..|all| - 1] == [] && all == [first];
    } else {
      var fewer := rest[..|rest| - 1];
      assert all[..|all| - 1] == [first] + fewer;
      RunsKeepHistory(cfg, sys, first, fewer);
      OneStepHistory(cfg, NetRun(cfg, NetStep(cfg, sys, first), fewer), rest[|rest| - 1]);
    }
  }

  lemma OneStepHistory(cfg: Config, sys: Sys, e: NetEvent)
    ensures sys.s.queued <= NetStep(cfg, sys, e).s.queued
  {
    hide Step;
    if !e.Lose? { StepKeepsHistory(cfg, sys.s, e); }
  }

  /** Whatever is listed and free is in the queue, or was before. */
  lemma {:induction false} FreeIsQueued(cfg: Config, s: State, entries: seq<PendingFile>, k: nat)
    requires k < |entries| && Free(cfg, s.files, entries[k].name) && s.active == map[]
    requires forall j | 0 <= j < |s.queue| :: s.queue[j] in s.queued
    ensures var s' := Enqueue(cfg, s, entries);
      && s'.active == s.active && s'.files == s.files
      && (exists j :: 0 <= j < |s'.queue| && s'.queue[j].name == entries[k].name)
      && (forall j | 0 <= j < |s'.queue| :: s'.queue[j] in s'.queued)
  {
    var last := |entries| - 1;
    EnqueueKeeps(cfg, s, entries[..last]);
    var before := Enqueue(cfg, s, entries[..last]);
    if k < last {
      FreeIsQueued(cfg, s, entries[..last], k);
      var j :| 0 <= j < |before.queue| && before.queue[j].name == entries[k].name;
      assert Enqueue(cfg, s, entries).queue[j] == before.queue[j];
    } else {
      QueueIsHistory(cfg, s, entries[..last]);
      var s' := Enqueue(cfg, s, entries);
      if !InQueue(before.queue, entries[k].name) {
        assert s'.queue[|before.queue|].name == entries[k].name;
      } else {
        var j :| 0 <= j < |before.queue| && before.queue[j].name == entries[k].name;
        assert s'.queue[j] == before.queue[j];
      }
    }
  }

  lemma {:induction false} QueueIsHistory(cfg: Config, s: State, entries: seq<PendingFile>)
    requires forall j | 0 <= j < |s.queue| :: s.queue[j] in s.queued
    ensures forall j | 0 <= j < |Enqueue(cfg, s, entries).queue| ::
              Enqueue(cfg, s, entries).queue[j] in Enqueue(cfg, s, entries).queued
  {
    if entries != [] { QueueIsHistory(cfg, s, entries[..|entries| - 1]); }
  }

  /** The files of a manifest, as they are queued. */
  function FilesIn(e: NetEvent): seq<PendingFile> {
    match e
    case Listed(entries, _) => PlainFiles(entries)
    case ListedSealed(entries, _) => SealedFiles(entries)
    case _ => []
  }

  lemma ManifestQueues(cfg: Config, files: map<string, Bytes>, e: NetEvent, k: nat) returns (file: PendingFile)
    requires k < |FilesIn(e)| && Free(cfg, files, FilesIn(e)[k].name) && (e.ListedSealed? ==> cfg.key.Some?)
    ensures file.name == FilesIn(e)[k].name && file in NetStep(cfg, Sys(Fresh(files), multiset{}), e).s.queued
  {
    hide StartQueued, InboundIds, Free;
    var s := if e.Listed? then Fresh(files) else Fresh(files).(inbound := InboundIds(e.sealedEntries));
    FreeIsQueued(cfg, s, FilesIn(e), k);
    var s' := Enqueue(cfg, s, FilesIn(e));
    var j :| 0 <= j < |s'.queue| && s'.queue[j].name == FilesIn(e)[k].name;
    file := s'.queue[j];
    StartQueuedKeepsHistory(cfg, s', e.env);
  }

  lemma FreshIsTidy(cfg: Config, src: map<string, PendingFile>, files: map<string, Bytes>)
    ensures Tidy(cfg, src, Fresh(files))
  {
  }

  /**
    Every listed file whose name was free arrives: once a lossless run that begins with its
    manifest has come to rest, the file is finished and its content is in the folder.
   */
  lemma AbsentFilesArrive(cfg: Config, src: map<string, PendingFile>, files: map<string, Bytes>, first: NetEvent,
                          rest: seq<NetEvent>, k: nat)
    requires WellFormed(src) && Writable(cfg, src) && Apart(cfg, src)
    requires k < |FilesIn(first)| && Free(cfg, files, FilesIn(first)[k].name) && (first.ListedSealed? ==> cfg.key.Some?)
    requires Lossless(cfg, src, Sys(Fresh(files), multiset{}), [first] + rest)
    requires AlwaysElsewhere(cfg, src, Sys(Fresh(files), multiset{}), [first] + rest)
    requires AlwaysNew(cfg, Sys(Fresh(files), multiset{}), [first] + rest)
    requires NetRun(cfg, Sys(Fresh(files), multiset{}), [first] + rest).net == multiset{}
    ensures var end, n := NetRun(cfg, Sys(Fresh(files), multiset{}), [first] + rest).s, FilesIn(first)[k].name;
      n in src && exists content :: Finished(src[n], content) in end.log && OnDisk(cfg, end.files, src[n], content)
  {
    var start := Sys(Fresh(files), multiset{});
    hide NetRun, Lossless, AlwaysElsewhere, AlwaysNew, NetStep, Apart, Writable, WellFormed, Healthy, Vacant, OnDisk,
        Free, FilesIn;
    var end := NetRun(cfg, start, [first] + rest).s;
    FreshIsHealthy(cfg, src, files);
    FreshIsTidy(cfg, src, files);
    var file := ManifestQueues(cfg, files, first, k);
    RunsKeepHistory(cfg, start, first, rest);
    RestMeansDone(cfg, src, files, [first] + rest);
    LosslessRunsStayTidy(cfg, src, start, [first] + rest);
    assert file in multiset(end.queued);
    var j := LoggedAt(end.log, file);
    assert Landed(cfg, src, end.files, end.log[j]);
    assert end.log[j] == Finished(file, end.log[j].content);
  }
}
