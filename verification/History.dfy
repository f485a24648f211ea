/**
  Requests that outlive a download. A file is queued without asking whether requests of an
  earlier download of it are still out; as long as no manifest brings such a file back, every
  file that starts has no request out. What it takes for one to be brought back.
 */
module History {
  import opened Basics
  import opened Paths
  import opened Reassembly
  import opened Download
  import opened TransferSafety
  import opened Network
  import opened Writing
  import opened Liveness
  import opened Outcomes
  import opened Recovery

  ghost predicate Unasked(net: multiset<Request>, ref: FileRef) {
    forall q | q in net :: q.ref != ref
  }

  lemma {:induction false} UnaskedCounts(net: multiset<Request>, ref: FileRef)
    ensures Unasked(net, ref) <==> CountRef(net, ref) == 0
    decreases |net|
  {
    if net != multiset{} {
      var q :| q in net;
      CountWithout(net, ref, q);
      UnaskedCounts(net - multiset{q}, ref);
      assert forall r | r in net :: r == q || r in net - multiset{q};
    }
  }

  // ── Where waiting and starting files come from ──────────────────────────

  /** The entries of a manifest that are considered at all. */
  function Offered(cfg: Config, e: NetEvent): seq<PendingFile> {
    if e.ListedSealed? && cfg.key.None? then [] else FilesIn(e)
  }

  ghost predicate WantedNow(cfg: Config, s: State, offered: seq<PendingFile>, n: string) {
    exists k | 0 <= k < |offered| :: offered[k].name == n && Wanted(cfg, s, offered[k])
  }

  /** What waits or starts in `s'` waited in `s`, or was offered and wanted there. */
  ghost predicate Origins(cfg: Config, s: State, offered: seq<PendingFile>, s': State) {
    forall n | InQueue(s'.queue, n) || (n in s'.active && n !in s.active) ::
      InQueue(s.queue, n) || WantedNow(cfg, s, offered, n)
  }

  lemma {:induction false} StartQueuedDrains(cfg: Config, s: State, env: Env, n: string)
    ensures InQueue(StartQueued(cfg, s, env).state.queue, n) ==> InQueue(s.queue, n)
    decreases |s.queue|
  {
    hide StartOne;
    if |s.active| < MAX_CONCURRENT_FILES && s.queue != [] {
      var first := StartOne(cfg, s, env).state;
      StartQueuedDrains(cfg, first, env, n);
      if InQueue(first.queue, n) {
        var k :| 0 <= k < |first.queue| && first.queue[k].name == n;
        assert s.queue[k + 1].name == n;
      }
    }
  }

  lemma StartQueuedOrigins(cfg: Config, s: State, env: Env)
    requires Placed(s)
    ensures Origins(cfg, s, [], StartQueued(cfg, s, env).state)
  {
    hide StartQueued, Placed, InQueue;
    StartQueuedAdds(cfg, s, env);
    forall n | InQueue(StartQueued(cfg, s, env).state.queue, n) ensures InQueue(s.queue, n) {
      StartQueuedDrains(cfg, s, env, n);
    }
  }

  lemma {:induction false} EnqueueOrigins(cfg: Config, s: State, entries: seq<PendingFile>, n: string)
    requires InQueue(Enqueue(cfg, s, entries).queue, n)
    ensures InQueue(s.queue, n) || WantedNow(cfg, s, entries, n)
  {
    if entries != [] {
      var rest, last := entries[..|entries| - 1], entries[|entries| - 1];
      var before := Enqueue(cfg, s, rest);
      EnqueueKeeps(cfg, s, rest);
      hide Wanted, Enqueue;
      if InQueue(before.queue, n) {
        EnqueueOrigins(cfg, s, rest, n);
        if WantedNow(cfg, s, rest, n) {
          var k :| 0 <= k < |rest| && rest[k].name == n && Wanted(cfg, s, rest[k]);
          assert entries[k] == rest[k];
        }
      } else {
        LastWanted(cfg, s, entries, n);
        assert entries[|entries| - 1] == last;
      }
    }
  }

  lemma LastWanted(cfg: Config, s: State, entries: seq<PendingFile>, n: string)
    requires entries != [] && InQueue(Enqueue(cfg, s, entries).queue, n)
    requires !InQueue(Enqueue(cfg, s, entries[..|entries| - 1]).queue, n)
    ensures entries[|entries| - 1].name == n && Wanted(cfg, s, entries[|entries| - 1])
  {
    var before, after := Enqueue(cfg, s, entries[..|entries| - 1]), Enqueue(cfg, s, entries);
    EnqueueKeeps(cfg, s, entries[..|entries| - 1]);
    QueueGrows(cfg, s, entries[..|entries| - 1]);
    forall k | 0 <= k < |before.queue| ensures after.queue[k].name != n {
      assert after.queue[k] == before.queue[k];
    }
  }

  lemma {:induction false} QueueGrows(cfg: Config, s: State, entries: seq<PendingFile>)
    ensures forall n :: InQueue(s.queue, n) ==> InQueue(Enqueue(cfg, s, entries).queue, n)
  {
    if entries != [] {
      QueueGrows(cfg, s, entries[..|entries| - 1]);
      var before, after := Enqueue(cfg, s, entries[..|entries| - 1]), Enqueue(cfg, s, entries);
      hide Wanted, Enqueue;
      assert before.queue <= after.queue;
      forall n | InQueue(before.queue, n) ensures InQueue(after.queue, n) {
        var k :| 0 <= k < |before.queue| && before.queue[k].name == n;
        assert after.queue[k].name == n;
      }
    }
  }

  lemma OffersOrigins(cfg: Config, s: State, entries: seq<PendingFile>, env: Env)
    requires Placed(s)
    ensures Origins(cfg, s, entries, StartQueued(cfg, Enqueue(cfg, s, entries), env).state)
  {
    var s1 := Enqueue(cfg, s, entries);
    EnqueueKeeps(cfg, s, entries);
    EnqueuePlaces(cfg, s, entries);
    StartQueuedOrigins(cfg, s1, env);
    hide StartQueued, Placed, InQueue, WantedNow, Enqueue;
    forall n | InQueue(s1.queue, n) ensures InQueue(s.queue, n) || WantedNow(cfg, s, entries, n) {
      EnqueueOrigins(cfg, s, entries, n);
    }
    assert forall n :: !WantedNow(cfg, s1, [], n) by { NothingWanted(cfg, s1); }
  }

  lemma NothingWanted(cfg: Config, s: State)
    ensures forall n :: !WantedNow(cfg, s, [], n)
  {
  }

  lemma AcceptOrigins(cfg: Config, src: map<string, PendingFile>, s: State, n: string, via: FileRef, index: nat,
                      chunk: Bytes, digest: Bytes32, env: Env)
    requires WellFormed(src) && Known(cfg, src, s) && Placed(s) && n in s.active
    ensures Origins(cfg, s, [], Accept(cfg, s, n, via, index, chunk, digest, env).state)
  {
    hide Complete, Known, Placed, WellFormed, InQueue, WantedNow, Advance, CountedComplete;
    var t := s.active[n];
    var s1 := s.(active := s.active[n := Stored(t, index, chunk)]);
    if index < |t.file.hashes| && t.file.hashes[index] == digest {
      ActiveIsKnown(cfg, src, s, n);
      AfterStoringKnown(cfg, src, s, multiset{}, n, index, chunk);
      assert AfterStoring(s, multiset{}, n, index, chunk).s == s1;
      var files := CompleteCases(cfg, s1, n, env);
      RetiredPlaced(cfg, src, s1, n, files);
      StartQueuedOrigins(cfg, Retired(s1, n, files), env);
      assert forall m :: !WantedNow(cfg, Retired(s1, n, files), [], m) by {
        NothingWanted(cfg, Retired(s1, n, files));
      }
      hide StartQueued;
    }
  }

  lemma StepOrigins(cfg: Config, src: map<string, PendingFile>, sys: Sys, e: NetEvent)
    requires Sound(cfg, src, sys)
    ensures Origins(cfg, sys.s, Offered(cfg, e), NetStep(cfg, sys, e).s)
  {
    hide StartQueued, Enqueue, Accept, OpenResponse, OnTick, Known, Placed, WellFormed, KnownRequest, InQueue,
        WantedNow;
    match e
    case Lose(_) =>
    case Answer(_, ref, index, data, env) =>
      var a := OpenResponse(cfg, sys.s, ref, index, data);
      if a.Arrived? {
        AcceptOrigins(cfg, src, sys.s, a.name, ref, Ask(ref, index).index, a.chunk, a.digest, env);
      }
    case Silence(silent) => TickKeepsLog(sys.s, silent);
    case FolderChange(_) =>
    case Listed(entries, env) => OffersOrigins(cfg, sys.s, PlainFiles(entries), env);
    case ListedSealed(entries, env) =>
      if cfg.key.Some? {
        var s1 := sys.s.(inbound := InboundIds(entries));
        assert Placed(s1) by { SamePlaces(sys.s, s1); }
        OffersOrigins(cfg, s1, SealedFiles(entries), env);
        SameWants(cfg, sys.s, s1, SealedFiles(entries));
        hide InboundIds;
      }
  }

  lemma SameWanted(cfg: Config, s: State, s1: State)
    requires s1.active == s.active && s1.queue == s.queue && s1.files == s.files
    ensures forall file :: Wanted(cfg, s, file) <==> Wanted(cfg, s1, file)
  {
  }

  lemma SameWants(cfg: Config, s: State, s1: State, offered: seq<PendingFile>)
    requires s1.active == s.active && s1.queue == s.queue && s1.files == s.files
    ensures forall n :: WantedNow(cfg, s, offered, n) <==> WantedNow(cfg, s1, offered, n)
  {
    SameWanted(cfg, s, s1);
  }

  // ── Quiet starts ────────────────────────────────────────────────────────

  /** A manifest brings back a file: it is wanted, and a request for it is still out. */
  ghost predicate Recalls(cfg: Config, sys: Sys, e: NetEvent) {
    exists k | 0 <= k < |Offered(cfg, e)| ::
      Wanted(cfg, sys.s, Offered(cfg, e)[k]) && !Unasked(sys.net, Ref(Offered(cfg, e)[k]))
  }

  ghost predicate WaitingQuiet(sys: Sys) {
    forall k | 0 <= k < |sys.s.queue| :: Unasked(sys.net, Ref(sys.s.queue[k]))
  }

  /** No request is out for the files an event starts. */
  ghost predicate QuietStarts(before: map<string, Transfer>, after: map<string, Transfer>, net: multiset<Request>) {
    forall n | n in after && n !in before :: Unasked(net, Ref(after[n].file))
  }

  lemma OfferedIsListed(cfg: Config, src: map<string, PendingFile>, e: NetEvent, k: nat)
    requires Static(src, e) && k < |Offered(cfg, e)|
    ensures FromListing(src, Offered(cfg, e)[k])
  {
  }

  /** What waits or starts after an event that recalls nothing had no request out before it. */
  lemma OriginIsQuiet(cfg: Config, src: map<string, PendingFile>, sys: Sys, e: NetEvent, n: string)
    requires Sound(cfg, src, sys) && WaitingQuiet(sys) && Static(src, e) && !Recalls(cfg, sys, e) && n in src
    requires InQueue(sys.s.queue, n) || WantedNow(cfg, sys.s, Offered(cfg, e), n)
    ensures Unasked(sys.net, Ref(src[n]))
  {
    hide Wanted, Unasked, Static, Offered;
    if InQueue(sys.s.queue, n) {
      var k :| 0 <= k < |sys.s.queue| && sys.s.queue[k].name == n;
      assert FileKnown(cfg, src, sys.s.inbound, sys.s.queue[k]);
    } else {
      var k :| 0 <= k < |Offered(cfg, e)| && Offered(cfg, e)[k].name == n && Wanted(cfg, sys.s, Offered(cfg, e)[k]);
      OfferedIsListed(cfg, src, e, k);
    }
  }

  lemma StartsQuietly(cfg: Config, src: map<string, PendingFile>, sys: Sys, e: NetEvent)
    requires Sound(cfg, src, sys) && WaitingQuiet(sys)
    requires Static(src, e) && AsRequested(e) && Enabled(sys, e) && !Recalls(cfg, sys, e)
    ensures QuietStarts(sys.s.active, NetStep(cfg, sys, e).s.active, sys.net)
  {
    hide NetStep, Unasked, Static, Offered, WantedNow, InQueue, Recalls, WaitingQuiet, Known, Placed, KnownRequest,
      WellFormed;
    var after := NetStep(cfg, sys, e).s;
    StepOrigins(cfg, src, sys, e);
    NetStepSound(cfg, src, sys, e);
    forall n | n in after.active && n !in sys.s.active ensures Unasked(sys.net, Ref(after.active[n].file)) {
      ActiveIsKnown(cfg, src, after, n);
      OriginIsQuiet(cfg, src, sys, e, n);
    }
  }

  /** An event that recalls nothing starts only files without a request out, and leaves none out for those that wait. */
  lemma StepStaysQuiet(cfg: Config, src: map<string, PendingFile>, sys: Sys, e: NetEvent)
    requires Sound(cfg, src, sys) && WaitingQuiet(sys)
    requires Static(src, e) && AsRequested(e) && Enabled(sys, e) && !Recalls(cfg, sys, e)
    ensures QuietStarts(sys.s.active, NetStep(cfg, sys, e).s.active, sys.net) && WaitingQuiet(NetStep(cfg, sys, e))
  {
    hide NetStep, Unasked, Static, Offered, WantedNow, Recalls, KnownRequest, WellFormed, CountRef, Grants, QuietStarts,
      Known;
    var after := NetStep(cfg, sys, e);
    StartsQuietly(cfg, src, sys, e);
    StepOrigins(cfg, src, sys, e);
    NetStepSound(cfg, src, sys, e);
    forall k | 0 <= k < |after.s.queue| ensures Unasked(after.net, Ref(after.s.queue[k])) {
      var n := after.s.queue[k].name;
      WaitingIsListed(cfg, src, after.s, k);
      OriginIsQuiet(cfg, src, sys, e, n);
      UnaskedCounts(sys.net, Ref(src[n]));
      NetStepCount(cfg, src, sys, e, n);
      NothingGranted(cfg, sys, e, n);
      UnaskedCounts(after.net, Ref(src[n]));
    }
  }

  lemma WaitingIsListed(cfg: Config, src: map<string, PendingFile>, s: State, k: nat)
    requires Known(cfg, src, s) && k < |s.queue|
    ensures s.queue[k].name in src && s.queue[k] == src[s.queue[k].name]
  {
    assert FileKnown(cfg, src, s.inbound, s.queue[k]);
  }

  /** A file that waits afterwards was not given a window. */
  lemma NothingGranted(cfg: Config, sys: Sys, e: NetEvent, n: string)
    requires Placed(sys.s) && Placed(NetStep(cfg, sys, e).s) && InQueue(NetStep(cfg, sys, e).s.queue, n)
    requires Origins(cfg, sys.s, Offered(cfg, e), NetStep(cfg, sys, e).s)
    ensures Grants(cfg, sys, e, n) == 0
  {
    hide NetStep, Wanted;
  }

  /** In the whole run. */
  ghost predicate NoRecalls(cfg: Config, sys: Sys, events: seq<NetEvent>) {
    events == [] || (
      var rest := events[..|events| - 1];
      NoRecalls(cfg, sys, rest) && !Recalls(cfg, NetRun(cfg, sys, rest), events[|events| - 1]))
  }

  /** So it is in every run without recalls, whatever is lost, stalls, fails or is removed. */
  lemma {:induction false} RunsStayQuiet(cfg: Config, src: map<string, PendingFile>, files: map<string, Bytes>,
                                         events: seq<NetEvent>)
    requires WellFormed(src) && Plausible(cfg, src, Sys(Fresh(files), multiset{}), events)
    requires NoRecalls(cfg, Sys(Fresh(files), multiset{}), events)
    ensures var end := NetRun(cfg, Sys(Fresh(files), multiset{}), events);
      Sound(cfg, src, end) && WaitingQuiet(end)
  {
    if events != [] {
      hide NetStep, Sound, WaitingQuiet, Recalls, Static;
      var rest, e := events[..|events| - 1], events[|events| - 1];
      RunsStayQuiet(cfg, src, files, rest);
      NetStepSound(cfg, src, NetRun(cfg, Sys(Fresh(files), multiset{}), rest), e);
      StepStaysQuiet(cfg, src, NetRun(cfg, Sys(Fresh(files), multiset{}), rest), e);
    }
  }

  // ── What is brought back while nothing fails or is removed ──────────────

  /** A file with this name has been queued. */
  ghost predicate QueuedBefore(s: State, n: string) {
    InQueue(s.queued, n)
  }

  /** A queued file is waiting, active, or accounted for. */
  lemma WhereQueuedFilesAre(cfg: Config, s: State, file: PendingFile)
    requires Conserved(s) && Placed(s) && AllDelivered(cfg, s) && file in s.queued
    ensures || InQueue(s.queue, file.name) || file.name in s.active
            || file.name in s.files || (cfg.vault.on && Vit(file.name) in s.files)
  {
    var k :| 0 <= k < |s.queued| && s.queued[k] == file;
    if k < |s.popped| {
      assert s.popped[k] == file && file in multiset(s.popped);
      if file in ActiveFiles(s.active) {
        var n :| n in s.active && s.active[n].file == file;
      } else {
        var j := LoggedAt(s.log, file);
        assert Delivered(cfg, s.files, s.log[j]);
      }
    } else {
      assert s.queue[k - |s.popped|] == file;
    }
  }

  /**
    A name that was queued before, and is neither active nor waiting now, is queued again
    exactly in vault mode, for an entry without an id, when no plain file has the name: its
    container, which is there, is not looked for.
   */
  lemma QueuedAgainExactly(cfg: Config, s: State, file: PendingFile)
    requires Conserved(s) && Placed(s) && AllDelivered(cfg, s) && QueuedBefore(s, file.name)
    requires file.name !in s.active && !InQueue(s.queue, file.name)
    ensures Wanted(cfg, s, file) <==> cfg.vault.on && file.fileId.None? && file.name !in s.files
    ensures Wanted(cfg, s, file) ==> Vit(file.name) in s.files
  {
    var k :| 0 <= k < |s.queued| && s.queued[k].name == file.name;
    WhereQueuedFilesAre(cfg, s, s.queued[k]);
    hide Conserved, AllDelivered, Placed;
  }

  /** Requests are only out for files that have been queued. */
  ghost predicate AskedAreQueued(src: map<string, PendingFile>, sys: Sys) {
    forall n | n in src && !QueuedBefore(sys.s, n) :: Unasked(sys.net, Ref(src[n]))
  }

  /** What holds while no write fails and nobody removes files. */
  ghost predicate Settled(cfg: Config, src: map<string, PendingFile>, sys: Sys) {
    Sound(cfg, src, sys) && Conserved(sys.s) && AllDelivered(cfg, sys.s) && AskedAreQueued(src, sys)
  }

  lemma ActiveWasQueued(s: State, n: string)
    requires Conserved(s) && Placed(s) && n in s.active
    ensures QueuedBefore(s, n)
  {
    assert s.active[n].file in ActiveFiles(s.active);
    assert s.active[n].file in multiset(s.popped);
    var k :| 0 <= k < |s.popped| && s.popped[k] == s.active[n].file;
    assert s.queued[k].name == n;
  }

  lemma StepStaysSettled(cfg: Config, src: map<string, PendingFile>, sys: Sys, e: NetEvent)
    requires Settled(cfg, src, sys) && Static(src, e) && AsRequested(e) && Enabled(sys, e)
    requires Obliging(cfg, e) && NamesStay(sys.s, e)
    ensures Settled(cfg, src, NetStep(cfg, sys, e))
  {
    hide Step, WellFormed, Known, KnownRequest, Placed, Conserved, AllDelivered, AskedAreQueued, Static, Obliging,
        NamesStay;
    NetStepSound(cfg, src, sys, e);
    if !e.Lose? {
      StepConserves(cfg, sys.s, ToEvent(e));
      StepDelivers(cfg, sys.s, e);
    }
    StepAsksQueued(cfg, src, sys, e);
  }

  lemma StepAsksQueued(cfg: Config, src: map<string, PendingFile>, sys: Sys, e: NetEvent)
    requires Sound(cfg, src, sys) && AskedAreQueued(src, sys) && Static(src, e) && AsRequested(e) && Enabled(sys, e)
    requires Conserved(sys.s) && Conserved(NetStep(cfg, sys, e).s) && Placed(NetStep(cfg, sys, e).s)
    ensures AskedAreQueued(src, NetStep(cfg, sys, e))
  {
    hide NetStep, Unasked, Static, KnownRequest, WellFormed, CountRef, Known, Conserved, Placed;
    var after := NetStep(cfg, sys, e);
    OneStepHistory(cfg, sys, e);
    forall n | n in src && !QueuedBefore(after.s, n) ensures Unasked(after.net, Ref(src[n])) {
      if QueuedBefore(sys.s, n) { StaysQueued(sys.s, after.s, n); }
      if n in sys.s.active { ActiveWasQueued(sys.s, n); }
      if n in after.s.active { ActiveWasQueued(after.s, n); }
      UnaskedCounts(sys.net, Ref(src[n]));
      NetStepCount(cfg, src, sys, e, n);
      UnaskedCounts(after.net, Ref(src[n]));
    }
  }

  lemma StaysQueued(s: State, s': State, n: string)
    requires s.queued <= s'.queued && QueuedBefore(s, n)
    ensures QueuedBefore(s', n)
  {
    var k :| 0 <= k < |s.queued| && s.queued[k].name == n;
    assert s'.queued[k].name == n;
  }

  /** Replies match requests, no write fails and nobody removes files; requests may be lost, and files may stall. */
  ghost predicate Lasting(cfg: Config, src: map<string, PendingFile>, sys: Sys, events: seq<NetEvent>) {
    events == [] || (
      var rest, e := events[..|events| - 1], events[|events| - 1];
      && Lasting(cfg, src, sys, rest)
      && Static(src, e) && AsRequested(e) && Enabled(NetRun(cfg, sys, rest), e)
      && Obliging(cfg, e) && NamesStay(NetRun(cfg, sys, rest).s, e))
  }

  lemma {:induction false} LastingRunsStaySettled(cfg: Config, src: map<string, PendingFile>, files: map<string, Bytes>,
                                                  events: seq<NetEvent>)
    requires WellFormed(src) && Lasting(cfg, src, Sys(Fresh(files), multiset{}), events)
    ensures Settled(cfg, src, NetRun(cfg, Sys(Fresh(files), multiset{}), events))
  {
    hide NetStep, Settled, Static, Obliging, NamesStay;
    if events == [] {
      FreshIsSettled(cfg, src, files);
    } else {
      var rest, e := events[..|events| - 1], events[|events| - 1];
      LastingRunsStaySettled(cfg, src, files, rest);
      StepStaysSettled(cfg, src, NetRun(cfg, Sys(Fresh(files), multiset{}), rest), e);
    }
  }

  lemma FreshIsSettled(cfg: Config, src: map<string, PendingFile>, files: map<string, Bytes>)
    requires WellFormed(src)
    ensures Settled(cfg, src, Sys(Fresh(files), multiset{}))
  {
    FreshIsHealthy(cfg, src, files);
  }

  /** In vault mode a plaintext manifest lists a file that is asked for, but not plainly there, active or waiting. */
  ghost predicate ListsStored(cfg: Config, sys: Sys, e: NetEvent) {
    cfg.vault.on && e.Listed? && exists k | 0 <= k < |e.entries| ::
      && !Unasked(sys.net, ByName(e.entries[k].name))
      && e.entries[k].name !in sys.s.files && e.entries[k].name !in sys.s.active
      && !InQueue(sys.s.queue, e.entries[k].name)
  }

  /** In such a state that is exactly what it takes to bring a file back. */
  lemma RecallsExactly(cfg: Config, src: map<string, PendingFile>, sys: Sys, e: NetEvent)
    requires Settled(cfg, src, sys) && Static(src, e)
    ensures Recalls(cfg, sys, e) <==> ListsStored(cfg, sys, e)
  {
    hide Conserved, AllDelivered, Known, Placed, KnownRequest, Unasked, Static;
    if Recalls(cfg, sys, e) {
      var k :| 0 <= k < |Offered(cfg, e)|
        && Wanted(cfg, sys.s, Offered(cfg, e)[k]) && !Unasked(sys.net, Ref(Offered(cfg, e)[k]));
      var file := Offered(cfg, e)[k];
      OfferedIsListed(cfg, src, e, k);
      assert QueuedBefore(sys.s, file.name);
      QueuedAgainExactly(cfg, sys.s, file);
      assert e.Listed? && e.entries[k].name == file.name;
    }
    if ListsStored(cfg, sys, e) {
      var k :| 0 <= k < |e.entries| && !Unasked(sys.net, ByName(e.entries[k].name))
        && e.entries[k].name !in sys.s.files && e.entries[k].name !in sys.s.active
        && !InQueue(sys.s.queue, e.entries[k].name);
      assert Offered(cfg, e)[k] == Plain(e.entries[k]);
      assert Wanted(cfg, sys.s, Offered(cfg, e)[k]);
    }
  }

  lemma StoredIsPlain(cfg: Config, src: map<string, PendingFile>, sys: Sys, e: NetEvent)
    requires Static(src, e)
    ensures ListsStored(cfg, sys, e) ==> cfg.vault.on && exists n :: n in src && src[n].fileId.None?
  {
    if ListsStored(cfg, sys, e) {
      var k :| 0 <= k < |e.entries| && !Unasked(sys.net, ByName(e.entries[k].name));
      assert FromListing(src, Plain(e.entries[k]));
    }
  }

  /** So with the vault off, or with encrypted entries only, such runs bring nothing back. */
  lemma {:induction false} LastingRunsRecallNothing(cfg: Config, src: map<string, PendingFile>,
      files: map<string, Bytes>, events: seq<NetEvent>)
    requires WellFormed(src) && Lasting(cfg, src, Sys(Fresh(files), multiset{}), events)
    requires cfg.vault.on ==> forall n | n in src :: src[n].fileId.Some?
    ensures Plausible(cfg, src, Sys(Fresh(files), multiset{}), events)
    ensures NoRecalls(cfg, Sys(Fresh(files), multiset{}), events)
  {
    if events != [] {
      var rest, e := events[..|events| - 1], events[|events| - 1];
      LastingRunsRecallNothing(cfg, src, files, rest);
      LastingRunsStaySettled(cfg, src, files, rest);
      hide NetRun, Settled, Obliging, NamesStay, Recalls, Unasked;
      var before := NetRun(cfg, Sys(Fresh(files), multiset{}), rest);
      RecallsExactly(cfg, src, before, e);
      StoredIsPlain(cfg, src, before, e);
      hide ListsStored;
    }
  }
}
