/**
  The receiver together with the requests it has outstanding at one sender. The sender's
  listing stays the same; requests may be answered in any order, with any data, or be lost.
  A reply says itself what it is a reply to; `AsRequested` is that it says the truth.
 */
module Network {
  import opened Basics
  import opened Reassembly
  import opened Download
  import opened TransferSafety

  // ── The system ──────────────────────────────────────────────────────────

  datatype Sys = Sys(s: State, net: multiset<Request>)

  datatype NetEvent =
    | Listed(entries: seq<FileEntry>, env: Env)
    | ListedSealed(sealedEntries: seq<EncryptedEntry>, env: Env)
    | Answer(req: Request, ref: FileRef, index: nat, data: Bytes, env: Env)   // to `req`, labelled `ref` and `index`
    | Lose(req: Request)
    | Silence(silent: seq<string>)
    | FolderChange(files: map<string, Bytes>)

  function ToEvent(e: NetEvent): Event
    requires !e.Lose?
  {
    match e
    case Listed(entries, env) => Manifest(entries, env)
    case ListedSealed(entries, env) => EncryptedManifest(entries, env)
    case Answer(_, ref, index, data, env) => Response(ref, index, data, env)
    case Silence(silent) => Tick(silent)
    case FolderChange(files) => FolderChanged(files)
  }

  function Consumed(e: NetEvent): multiset<Request> {
    match e
    case Answer(req, _, _, _, _) => multiset{req}
    case Lose(req) => multiset{req}
    case _ => multiset{}
  }

  ghost function NetStep(cfg: Config, sys: Sys, e: NetEvent): Sys {
    if e.Lose? then Sys(sys.s, sys.net - Consumed(e)) else
    var o := Step(cfg, sys.s, ToEvent(e));
    Sys(o.state, sys.net - Consumed(e) + multiset(o.sent))
  }

  /** The handler goes by the label, not by the request it answers. */
  predicate AsRequested(e: NetEvent) {
    e.Answer? ==> e.ref == e.req.ref && e.index == e.req.index
  }

  lemma NetStepAnswer(cfg: Config, sys: Sys, e: NetEvent)
    requires e.Answer? && AsRequested(e)
    ensures var o := OnResponse(cfg, sys.s, e.req.ref, e.req.index, e.data, e.env);
      NetStep(cfg, sys, e) == Sys(o.state, sys.net - multiset{e.req} + multiset(o.sent))
  {
    hide OnResponse;
  }

  /** Events that answer nothing only add requests. */
  lemma NetStepOther(cfg: Config, sys: Sys, e: NetEvent)
    requires !e.Answer? && !e.Lose?
    ensures var o := Step(cfg, sys.s, ToEvent(e));
      NetStep(cfg, sys, e) == Sys(o.state, sys.net + multiset(o.sent))
  {
    hide Step;
    assert sys.net - multiset{} == sys.net;
  }

  ghost predicate Enabled(sys: Sys, e: NetEvent) {
    Consumed(e) <= sys.net
  }

  // ── A sender whose listing does not change ──────────────────────────────

  /** Entries by name, with one hash per chunk and ids that tell files apart. */
  ghost predicate WellFormed(src: map<string, PendingFile>) {
    && (forall n | n in src :: src[n].name == n && |src[n].hashes| == src[n].total)
    && (forall n | n in src && src[n].fileId.Some? :: src[n].total < U32)
    && (forall m, n | m in src && n in src && src[m].fileId.Some? && src[m].fileId == src[n].fileId :: m == n)
  }

  ghost predicate FromListing(src: map<string, PendingFile>, file: PendingFile) {
    file.name in src && src[file.name] == file
  }

  /** Manifests repeat the listing; an encrypted one names every encrypted file. */
  ghost predicate Static(src: map<string, PendingFile>, e: NetEvent) {
    match e
    case Listed(entries, _) => forall k | 0 <= k < |entries| :: FromListing(src, Plain(entries[k]))
    case ListedSealed(entries, _) =>
      && (forall k | 0 <= k < |entries| :: FromListing(src, Sealed(entries[k])))
      && (forall n | n in src && src[n].fileId.Some? :: exists k | 0 <= k < |entries| :: entries[k].name == n)
    case _ => true
  }

  /** A file of the listing; an encrypted one can be decrypted and found by its id. */
  ghost predicate FileKnown(cfg: Config, src: map<string, PendingFile>, inbound: map<Bytes16, string>,
          file: PendingFile) {
    && FromListing(src, file)
    && (file.fileId.Some? ==> cfg.key.Some? && file.fileId.value in inbound)
  }

  ghost predicate TransferKnown(cfg: Config, src: map<string, PendingFile>, inbound: map<Bytes16, string>,
          t: Transfer) {
    && FileKnown(cfg, src, inbound, t.file)
    && t.next <= t.file.total
    && forall i | i in t.received :: i < t.file.total
  }

  ghost predicate IdsKnown(src: map<string, PendingFile>, inbound: map<Bytes16, string>) {
    forall id | id in inbound :: inbound[id] in src && src[inbound[id]].fileId == Some(id)
  }

  ghost predicate Known(cfg: Config, src: map<string, PendingFile>, s: State) {
    && (forall n | n in s.active :: s.active[n].file.name == n && TransferKnown(cfg, src, s.inbound, s.active[n]))
    && (forall k | 0 <= k < |s.queue| :: FileKnown(cfg, src, s.inbound, s.queue[k]))
    && IdsKnown(src, s.inbound)
  }

  lemma ActiveIsKnown(cfg: Config, src: map<string, PendingFile>, s: State, n: string)
    requires WellFormed(src) && Known(cfg, src, s) && n in s.active
    ensures var t := s.active[n];
      && n in src && t.file == src[n] && t.file.name == n && |t.file.hashes| == t.file.total
      && t.next <= t.file.total && forall i | i in t.received :: i < t.file.total
  {
    assert TransferKnown(cfg, src, s.inbound, s.active[n]);
  }

  /** Requests are for announced chunks of listed files. */
  ghost predicate KnownRequest(src: map<string, PendingFile>, q: Request) {
    exists n :: n in src && Ref(src[n]) == q.ref && q.index < src[n].total
  }

  ghost predicate Sound(cfg: Config, src: map<string, PendingFile>, sys: Sys) {
    && WellFormed(src) && Scheduled(sys.s) && Known(cfg, src, sys.s)
    && forall q | q in sys.net :: KnownRequest(src, q)
  }

  /** References tell listed files apart. */
  lemma RefsDiffer(src: map<string, PendingFile>, m: string, n: string)
    requires WellFormed(src) && m in src && n in src
    ensures Ref(src[m]) == Ref(src[n]) ==> m == n
  {
  }

  /** An answer is about the listed file whose reference it carries. */
  lemma AnswerResolves(cfg: Config, src: map<string, PendingFile>, s: State, n: string, index: nat, data: Bytes)
    requires WellFormed(src) && Known(cfg, src, s) && n in src
    ensures var a := OpenResponse(cfg, s, Ref(src[n]), index, data);
      && (a.Arrived? ==> a.name == n && n in s.active && s.active[n].file == src[n])
      && (a.Ignored? ==> n !in s.active)
  {
    if src[n].fileId.Some? {
      var id := src[n].fileId.value;
      assert id in s.inbound ==> src[s.inbound[id]].fileId == src[n].fileId && s.inbound[id] == n;
    }
    assert n in s.active ==> FileKnown(cfg, src, s.inbound, s.active[n].file);
  }

  lemma AskIsPlain(src: map<string, PendingFile>, n: string, i: nat)
    requires WellFormed(src) && n in src && i <= src[n].total
    ensures Ask(Ref(src[n]), i) == Request(Ref(src[n]), i)
    ensures i < src[n].total ==> KnownRequest(src, Ask(Ref(src[n]), i))
  {
  }

  lemma RepeatsItself(src: map<string, PendingFile>, q: Request)
    requires WellFormed(src) && KnownRequest(src, q)
    ensures Ask(q.ref, q.index) == q
  {
    var n :| n in src && Ref(src[n]) == q.ref && q.index < src[n].total;
    AskIsPlain(src, n, q.index);
  }

  // ── Soundness of the system is kept ─────────────────────────────────────

  lemma WindowKnown(src: map<string, PendingFile>, n: string, received: map<nat, Bytes>)
    requires WellFormed(src) && n in src
    ensures forall i | i in FirstWindow(Missing(received, src[n].total)) :: i < src[n].total
    ensures forall q | q in AskAll(Ref(src[n]), FirstWindow(Missing(received, src[n].total))) :: KnownRequest(src, q)
  {
    var needed := Missing(received, src[n].total);
    var window := FirstWindow(needed);
    forall k | 0 <= k < |window|
      ensures window[k] < src[n].total && KnownRequest(src, AskAll(Ref(src[n]), window)[k])
    {
      assert needed[k] in needed;
      AskIsPlain(src, n, needed[k]);
    }
  }

  lemma StartOneKnown(cfg: Config, src: map<string, PendingFile>, s: State, env: Env)
    requires WellFormed(src) && Known(cfg, src, s) && s.queue != []
    ensures Known(cfg, src, StartOne(cfg, s, env).state)
    ensures forall q | q in StartOne(cfg, s, env).sent :: KnownRequest(src, q)
  {
    var file := s.queue[0];
    var received := Reusable(cfg.P, s.files, file);
    assert FileKnown(cfg, src, s.inbound, file);
    ReusableIsOk(cfg, s.files, file);
    assert TransferKnown(cfg, src, s.inbound, Begun(file, received));
    WindowKnown(src, file.name, received);
    StartOneCases(cfg, s, env);
    var s' := StartOne(cfg, s, env).state;
    hide StartOne, Reusable, AskAll, KnownRequest, TransferKnown, FileKnown, IdsKnown, Begun, Missing;
    assert forall k | 0 <= k < |s'.queue| :: s'.queue[k] == s.queue[k + 1];
  }

  /** What one turn of the scheduler does to the table of downloads. */
  lemma StartOneCases(cfg: Config, s: State, env: Env)
    requires s.queue != []
    ensures var file, o := s.queue[0], StartOne(cfg, s, env);
      var received := Reusable(cfg.P, s.files, file);
      var needed := Missing(received, file.total);
      && o.state.queue == s.queue[1..] && o.state.inbound == s.inbound
      && (|| (o.state.active == s.active && o.sent == [])
          || (o.state.active == s.active[file.name := Begun(file, received)]
              && needed != [] && o.sent == AskAll(Ref(file), FirstWindow(needed))))
  {
  }

  /** The scheduler adds files from the queue and leaves active ones alone; the log only grows. */
  lemma {:induction false} StartQueuedAdds(cfg: Config, s: State, env: Env)
    requires Placed(s)
    ensures var s' := StartQueued(cfg, s, env).state;
      && (forall n | n in s.active :: n in s'.active && s'.active[n] == s.active[n])
      && (forall n | n in s'.active :: n in s.active || InQueue(s.queue, n))
      && s.log <= s'.log
    decreases |s.queue|
  {
    if |s.active| < MAX_CONCURRENT_FILES && s.queue != [] {
      var first := StartOne(cfg, s, env).state;
      StartOneCases(cfg, s, env);
      StartOnePlaces(cfg, s, env);
      StartQueuedAdds(cfg, first, env);
      LogGrows(cfg, s, env);
      assert s.queue[0].name !in s.active;
      hide StartOne, Placed, StartQueued, Begun, Reusable, Missing;
      forall n | n in StartQueued(cfg, first, env).state.active
        ensures n in s.active || InQueue(s.queue, n)
      {
        if n !in first.active {
          var k :| 0 <= k < |first.queue| && first.queue[k].name == n;
          assert s.queue[k + 1].name == n;
        } else if n !in s.active {
          assert s.queue[0].name == n;
        }
      }
      assert StartQueued(cfg, s, env).state == StartQueued(cfg, first, env).state by {
        StartQueuedUnfolds(cfg, s, env);
      }
    }
  }

  lemma LogGrows(cfg: Config, s: State, env: Env)
    requires s.queue != []
    ensures s.log <= StartOne(cfg, s, env).state.log
  {
  }

  lemma StartQueuedUnfolds(cfg: Config, s: State, env: Env)
    requires |s.active| < MAX_CONCURRENT_FILES && s.queue != []
    ensures StartQueued(cfg, s, env).state == StartQueued(cfg, StartOne(cfg, s, env).state, env).state
  {
    hide StartOne;
  }

  lemma {:induction false} StartQueuedKnown(cfg: Config, src: map<string, PendingFile>, s: State, env: Env)
    requires WellFormed(src) && Known(cfg, src, s)
    ensures var o := StartQueued(cfg, s, env);
      Known(cfg, src, o.state) && forall q | q in o.sent :: KnownRequest(src, q)
    decreases |s.queue|
  {
    if |s.active| < MAX_CONCURRENT_FILES && s.queue != [] {
      StartOneKnown(cfg, src, s, env);
      StartQueuedKnown(cfg, src, StartOne(cfg, s, env).state, env);
    }
  }

  lemma {:induction false} EnqueueKnown(cfg: Config, src: map<string, PendingFile>, s: State, entries: seq<PendingFile>)
    requires Known(cfg, src, s)
    requires forall k | 0 <= k < |entries| :: FileKnown(cfg, src, s.inbound, entries[k])
    ensures Known(cfg, src, Enqueue(cfg, s, entries))
  {
    EnqueueKeeps(cfg, s, entries);
    if entries != [] {
      var rest := entries[..|entries| - 1];
      EnqueueKnown(cfg, src, s, rest);
      EnqueueKeeps(cfg, s, rest);
    }
  }

  lemma {:induction false} InboundIdsListed(src: map<string, PendingFile>, entries: seq<EncryptedEntry>)
    requires WellFormed(src) && forall k | 0 <= k < |entries| :: FromListing(src, Sealed(entries[k]))
    ensures forall id | id in InboundIds(entries) ::
              InboundIds(entries)[id] in src && src[InboundIds(entries)[id]].fileId == Some(id)
    ensures forall k | 0 <= k < |entries| :: entries[k].id in InboundIds(entries)
  {
    if entries != [] {
      InboundIdsListed(src, entries[..|entries| - 1]);
    }
  }

  /** A manifest that lists everything keeps every waiting or active file reachable. */
  lemma NewIdsKeepKnown(cfg: Config, src: map<string, PendingFile>, s: State, entries: seq<EncryptedEntry>)
    requires WellFormed(src) && Known(cfg, src, s) && cfg.key.Some?
    requires forall k | 0 <= k < |entries| :: FromListing(src, Sealed(entries[k]))
    requires forall n | n in src && src[n].fileId.Some? :: exists k | 0 <= k < |entries| :: entries[k].name == n
    ensures var s1 := s.(inbound := InboundIds(entries));
      && Known(cfg, src, s1)
      && forall k | 0 <= k < |entries| :: FileKnown(cfg, src, s1.inbound, SealedFiles(entries)[k])
  {
    InboundIdsListed(src, entries);
    AllIdsListed(src, entries);
    ListedIsKnown(cfg, src, InboundIds(entries), entries);
    var inbound := InboundIds(entries);
    assert forall file | FileKnown(cfg, src, s.inbound, file) :: FileKnown(cfg, src, inbound, file);
    assert forall t | TransferKnown(cfg, src, s.inbound, t) :: TransferKnown(cfg, src, inbound, t);
  }

  lemma ListedIsKnown(cfg: Config, src: map<string, PendingFile>, inbound: map<Bytes16, string>,
      entries: seq<EncryptedEntry>)
    requires cfg.key.Some?
    requires forall k | 0 <= k < |entries| :: FromListing(src, Sealed(entries[k])) && entries[k].id in inbound
    ensures forall k | 0 <= k < |entries| :: FileKnown(cfg, src, inbound, SealedFiles(entries)[k])
  {
  }

  lemma AllIdsListed(src: map<string, PendingFile>, entries: seq<EncryptedEntry>)
    requires WellFormed(src)
    requires forall k | 0 <= k < |entries| :: FromListing(src, Sealed(entries[k]))
    requires forall n | n in src && src[n].fileId.Some? :: exists k | 0 <= k < |entries| :: entries[k].name == n
    ensures forall n | n in src && src[n].fileId.Some? :: src[n].fileId.value in InboundIds(entries)
  {
    InboundIdsListed(src, entries);
    forall n | n in src && src[n].fileId.Some? ensures src[n].fileId.value in InboundIds(entries) {
      var k :| 0 <= k < |entries| && entries[k].name == n;
      assert src[n] == Sealed(entries[k]);
    }
  }

  /** Once a file is done its slot is free and its name is nowhere. */
  lemma RetiredPlaced(cfg: Config, src: map<string, PendingFile>, s: State, n: string, files: map<string, Bytes>)
    requires Known(cfg, src, s) && Placed(s) && n in s.active
    ensures var s1 := Retired(s, n, files);
      && Known(cfg, src, s1) && Placed(s1) && !InQueue(s1.queue, n)
      && s1.active == s.active - {n} && s1.queue == s.queue && |s1.active| < MAX_CONCURRENT_FILES
  {
    hide FileKnown, IdsKnown, Gather;
    var s1 := Retired(s, n, files);
    assert s.active.Keys == s1.active.Keys + {n};
    assert |s1.active| == |s1.active.Keys| && |s.active| == |s.active.Keys|;
    assert forall m | m in s1.active :: TransferKnown(cfg, src, s.inbound, s.active[m]);
  }

  lemma CompleteKnown(cfg: Config, src: map<string, PendingFile>, s: State, name: string, env: Env)
    requires WellFormed(src) && Known(cfg, src, s) && name in s.active
    ensures var o := Complete(cfg, s, name, env);
      Known(cfg, src, o.state) && forall q | q in o.sent :: KnownRequest(src, q)
  {
    var files := CompleteCases(cfg, s, name, env);
    hide Complete;
    StartQueuedKnown(cfg, src, Retired(s, name, files), env);
  }

  lemma AcceptKnown(cfg: Config, src: map<string, PendingFile>, s: State, n: string, index: nat, chunk: Bytes,
          digest: Bytes32, env: Env)
    requires WellFormed(src) && Known(cfg, src, s) && n in s.active
    requires KnownRequest(src, Request(Ref(s.active[n].file), index))
    ensures var o := Accept(cfg, s, n, Ref(s.active[n].file), index, chunk, digest, env);
      Known(cfg, src, o.state) && forall q | q in o.sent :: KnownRequest(src, q)
  {
    var t := s.active[n];
    if index < |t.file.hashes| && t.file.hashes[index] == digest {
      var s1 := s.(active := s.active[n := Stored(t, index, chunk)]);
      assert Known(cfg, src, s1);
      if t.next < t.file.total { AskIsPlain(src, t.file.name, t.next); }
      CompleteKnown(cfg, src, s1, n, env);
    }
  }

  lemma {:induction false} TickKnown(cfg: Config, src: map<string, PendingFile>, s: State, silent: seq<string>)
    requires WellFormed(src) && Known(cfg, src, s)
    ensures var o := OnTick(s, silent);
      Known(cfg, src, o.state) && forall q | q in o.sent :: KnownRequest(src, q)
  {
    if silent != [] {
      var before := OnTick(s, silent[..|silent| - 1]);
      TickKnown(cfg, src, s, silent[..|silent| - 1]);
      StalledKnown(cfg, src, before.state, silent[|silent| - 1]);
    }
  }

  lemma StalledKnown(cfg: Config, src: map<string, PendingFile>, s: State, name: string)
    requires WellFormed(src) && Known(cfg, src, s)
    ensures var o := Stalled(s, name);
      Known(cfg, src, o.state) && forall q | q in o.sent :: KnownRequest(src, q)
  {
    if name in s.active {
      var t := s.active[name];
      assert TransferKnown(cfg, src, s.inbound, t) && t.file == src[name];
      WindowKnown(src, name, t.received);
      AgainIsMissing(t);
    }
  }

  lemma AnswerKnown(cfg: Config, src: map<string, PendingFile>, s: State, req: Request, data: Bytes, env: Env)
    requires WellFormed(src) && Known(cfg, src, s) && KnownRequest(src, req)
    ensures var o := OnResponse(cfg, s, req.ref, req.index, data, env);
      Known(cfg, src, o.state) && forall q | q in o.sent :: KnownRequest(src, q)
  {
    var n :| n in src && Ref(src[n]) == req.ref;
    AnswerResolves(cfg, src, s, n, req.index, data);
    RepeatsItself(src, req);
    var a := OpenResponse(cfg, s, req.ref, req.index, data);
    hide OpenResponse, Accept, KnownRequest, Known;
    if a.Arrived? {
      AcceptKnown(cfg, src, s, n, req.index, a.chunk, a.digest, env);
    }
  }

  lemma ManifestKnown(cfg: Config, src: map<string, PendingFile>, s: State, e: NetEvent)
    requires WellFormed(src) && Known(cfg, src, s) && Static(src, e) && (e.Listed? || e.ListedSealed?)
    ensures var o := Step(cfg, s, ToEvent(e));
      Known(cfg, src, o.state) && forall q | q in o.sent :: KnownRequest(src, q)
  {
    if e.Listed? {
      EnqueueKnown(cfg, src, s, PlainFiles(e.entries));
      StartQueuedKnown(cfg, src, Enqueue(cfg, s, PlainFiles(e.entries)), e.env);
    } else if cfg.key.Some? {
      var s1 := s.(inbound := InboundIds(e.sealedEntries));
      NewIdsKeepKnown(cfg, src, s, e.sealedEntries);
      EnqueueKnown(cfg, src, s1, SealedFiles(e.sealedEntries));
      StartQueuedKnown(cfg, src, Enqueue(cfg, s1, SealedFiles(e.sealedEntries)), e.env);
    }
  }

  lemma StepKnown(cfg: Config, src: map<string, PendingFile>, sys: Sys, e: NetEvent)
    requires Sound(cfg, src, sys) && Static(src, e) && AsRequested(e) && Enabled(sys, e) && !e.Lose?
    ensures var o := Step(cfg, sys.s, ToEvent(e));
      Known(cfg, src, o.state) && forall q | q in o.sent :: KnownRequest(src, q)
  {
    match e
    case Listed(_, _) => ManifestKnown(cfg, src, sys.s, e);
    case ListedSealed(_, _) => ManifestKnown(cfg, src, sys.s, e);
    case Answer(req, _, _, data, env) =>
      assert req in sys.net;
      AnswerKnown(cfg, src, sys.s, req, data, env);
    case Silence(silent) => TickKnown(cfg, src, sys.s, silent);
    case FolderChange(files) =>
  }

  /** Soundness is an invariant of the system with replies labelled as requested, lost requests and stalls included. */
  lemma NetStepSound(cfg: Config, src: map<string, PendingFile>, sys: Sys, e: NetEvent)
    requires Sound(cfg, src, sys) && Static(src, e) && AsRequested(e) && Enabled(sys, e)
    ensures Sound(cfg, src, NetStep(cfg, sys, e))
  {
    if !e.Lose? {
      StepKnown(cfg, src, sys, e);
      StepSchedules(cfg, sys.s, ToEvent(e));
    }
  }
}
