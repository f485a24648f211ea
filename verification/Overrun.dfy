/**
  Requests of files that are done. Without stalls and recalls no file ever has more than one
  window out, so beyond twelve there is only what finished files left out; and a file that starts
  with a hole can always be finished so that it leaves something out.
 */
module Overrun {
  import opened Basics
  import opened Crypto
  import opened Paths
  import opened Reassembly
  import opened Download
  import opened TransferSafety
  import opened Network
  import opened Writing
  import opened Liveness
  import opened Window
  import opened Outcomes
  import opened Recovery
  import opened History

  // ── Requests of active files, and the rest ──────────────────────────────

  /** Requests for files that are no longer being downloaded. */
  ghost function LeftOut(active: map<string, Transfer>, net: multiset<Request>): nat
    decreases |net|
  {
    if net == multiset{} then 0 else
    var q :| q in net;
    (if Owned(active, q.ref) then 0 else 1) + LeftOut(active, net - multiset{q})
  }

  /** Requests for the files being downloaded. */
  ghost function ActiveOut(active: map<string, Transfer>, net: multiset<Request>): nat {
    SumOver(active, (t: Transfer) => CountRef(net, Ref(t.file)))
  }

  lemma {:induction false} SumChanges(active: map<string, Transfer>, f: Transfer -> nat, g: Transfer -> nat, n: string)
    requires n in active && f(active[n]) == g(active[n]) + 1
    requires forall m | m in active && m != n :: f(active[m]) == g(active[m])
    ensures SumOver(active, f) == SumOver(active, g) + 1
  {
    SumWithout(active, f, n);
    SumWithout(active, g, n);
    SumSame(active - {n}, f, g);
  }

  lemma {:induction false} SumSame(active: map<string, Transfer>, f: Transfer -> nat, g: Transfer -> nat)
    requires forall m | m in active :: f(active[m]) == g(active[m])
    ensures SumOver(active, f) == SumOver(active, g)
    decreases |active.Keys|
  {
    if active != map[] {
      var n :| n in active;
      SumWithout(active, f, n);
      SumWithout(active, g, n);
      assert (active - {n}).Keys == active.Keys - {n};
      SumSame(active - {n}, f, g);
    }
  }

  lemma {:induction false} SumOfNone(active: map<string, Transfer>, f: Transfer -> nat)
    requires forall m | m in active :: f(active[m]) == 0
    ensures SumOver(active, f) == 0
    decreases |active.Keys|
  {
    if active != map[] {
      var n :| n in active;
      SumWithout(active, f, n);
      assert (active - {n}).Keys == active.Keys - {n};
      SumOfNone(active - {n}, f);
    }
  }

  /** One request fewer. */
  lemma ActiveOutWithout(src: map<string, PendingFile>, active: map<string, Transfer>, net: multiset<Request>,
      q: Request)
    requires ActiveListed(src, active) && q in net
    ensures ActiveOut(active, net) == ActiveOut(active, net - multiset{q}) + if Owned(active, q.ref) then 1 else 0
  {
    var f, g := (t: Transfer) => CountRef(net, Ref(t.file)), (t: Transfer) => CountRef(net - multiset{q}, Ref(t.file));
    forall m | m in active ensures f(active[m]) == g(active[m]) + if Ref(active[m].file) == q.ref then 1 else 0 {
      CountWithout(net, Ref(active[m].file), q);
    }
    if Owned(active, q.ref) {
      var n :| n in active && Ref(active[n].file) == q.ref;
      forall m | m in active && m != n ensures Ref(active[m].file) != q.ref { RefsDiffer(src, m, n); }
      SumChanges(active, f, g, n);
    } else {
      SumSame(active, f, g);
    }
  }

  /** Every request is one or the other. */
  lemma {:induction false} AllRequests(src: map<string, PendingFile>, active: map<string, Transfer>,
      net: multiset<Request>)
    requires ActiveListed(src, active)
    ensures |net| == ActiveOut(active, net) + LeftOut(active, net)
    decreases |net|
  {
    if net == multiset{} {
      SumOfNone(active, (t: Transfer) => CountRef(net, Ref(t.file)));
    } else {
      var q :| q in net && LeftOut(active, net) == (if Owned(active, q.ref) then 0 else 1)
          + LeftOut(active, net - multiset{q});
      AllRequests(src, active, net - multiset{q});
      ActiveOutWithout(src, active, net, q);
      hide ActiveOut, LeftOut, Owned;
    }
  }

  // ── Without stalls ──────────────────────────────────────────────────────

  predicate NoStalls(events: seq<NetEvent>) {
    forall k | 0 <= k < |events| :: !events[k].Silence?
  }

  /**
    In either protocol, whatever is lost, fails or is removed, a run without stalls and recalls
    never has more than one window out for a file.
   */
  lemma {:induction false} OneWindowEach(cfg: Config, src: map<string, PendingFile>, files: map<string, Bytes>,
                                         events: seq<NetEvent>, n: string)
    requires WellFormed(src) && n in src && Plausible(cfg, src, Sys(Fresh(files), multiset{}), events)
    requires NoStalls(events) && NoRecalls(cfg, Sys(Fresh(files), multiset{}), events)
    ensures CountRef(NetRun(cfg, Sys(Fresh(files), multiset{}), events).net, Ref(src[n])) <= WINDOW
  {
    if events != [] {
      hide NetStep, QuietStarts, Static, Sound, WaitingQuiet, Recalls, CountRef;
      var rest, e := events[..|events| - 1], events[|events| - 1];
      var before := NetRun(cfg, Sys(Fresh(files), multiset{}), rest);
      OneWindowEach(cfg, src, files, rest, n);
      RunsStayQuiet(cfg, src, files, rest);
      OneMoreWindow(cfg, src, before, e, n);
    }
  }

  /** A file gets its window when nothing is out for it. */
  lemma OneMoreWindow(cfg: Config, src: map<string, PendingFile>, sys: Sys, e: NetEvent, n: string)
    requires Sound(cfg, src, sys) && WaitingQuiet(sys) && n in src && CountRef(sys.net, Ref(src[n])) <= WINDOW
    requires Static(src, e) && AsRequested(e) && Enabled(sys, e) && !Recalls(cfg, sys, e) && !e.Silence?
    ensures CountRef(NetStep(cfg, sys, e).net, Ref(src[n])) <= WINDOW
  {
    hide NetStep, Static, WaitingQuiet, Recalls, CountRef, Unasked, Known, Placed, KnownRequest;
    StartsQuietly(cfg, src, sys, e);
    NetStepSound(cfg, src, sys, e);
    NetStepCount(cfg, src, sys, e, n);
    var after := NetStep(cfg, sys, e).s;
    if n in after.active && n !in sys.s.active {
      ActiveIsKnown(cfg, src, after, n);
      UnaskedCounts(sys.net, Ref(src[n]));
    }
  }

  /** So in such runs the files being downloaded never have more than twelve requests out together. */
  lemma ActiveWithinTwelve(cfg: Config, src: map<string, PendingFile>, files: map<string, Bytes>, events: seq<NetEvent>)
    requires WellFormed(src) && Plausible(cfg, src, Sys(Fresh(files), multiset{}), events)
    requires NoStalls(events) && NoRecalls(cfg, Sys(Fresh(files), multiset{}), events)
    ensures var end := NetRun(cfg, Sys(Fresh(files), multiset{}), events);
      && ActiveOut(end.s.active, end.net) <= MAX_CONCURRENT_FILES * WINDOW
      && |end.net| == ActiveOut(end.s.active, end.net) + LeftOut(end.s.active, end.net)
  {
    hide NetRun, Plausible, NoRecalls, LeftOut, Known, KnownRequest;
    var end := NetRun(cfg, Sys(Fresh(files), multiset{}), events);
    RunsStayQuiet(cfg, src, files, events);
    KnownIsListed(cfg, src, end.s);
    AllRequests(src, end.s.active, end.net);
    var weight := (t: Transfer) => CountRef(end.net, Ref(t.file));
    forall n | n in end.s.active ensures weight(end.s.active[n]) <= WINDOW {
      OneWindowEach(cfg, src, files, events, n);
    }
    SumWithinWindow(end.s.active, weight);
    assert |end.s.active| == |end.s.active.Keys|;
  }

  // ── What a hole leads to ────────────────────────────────────────────────

  /** The chunk asked for, readable for the receiver, and a write that does not fail. */
  predicate GoodAnswer(cfg: Config, e: NetEvent, n: string, chunks: seq<Bytes>) {
    && e.Answer? && AsRequested(e) && e.env.failing == {} && e.req.ref == ByName(n) && e.req.index < |chunks|
    && Opened(cfg, e.ref, e.index, e.data) == Some(chunks[e.req.index])
  }

  function Quiet(): Env {
    Env(Draw("", Zeros(16), _ => Zeros(12)), {})
  }

  /** A chunk as it travels in the plaintext protocol: under the key, if there is one. */
  function OnTheWire(cfg: Config, chunk: Bytes): Bytes {
    if cfg.key.None? then chunk else Encrypt(cfg.P, cfg.key.value, Zeros(12), chunk, [])
  }

  function Replied(cfg: Config, n: string, i: nat, chunk: Bytes): NetEvent {
    Answer(Request(ByName(n), i), ByName(n), i, OnTheWire(cfg, chunk), Quiet())
  }

  lemma OpensOnArrival(cfg: Config, n: string, i: nat, chunk: Bytes)
    requires cfg.key.Some? ==> SealsCorrectly(cfg.P)
    ensures Opened(cfg, ByName(n), i, OnTheWire(cfg, chunk)) == Some(chunk)
  {
    if cfg.key.Some? { DecryptEncrypt(cfg.P, cfg.key.value, Zeros(12), chunk, []); }
  }

  lemma RepliedIsGood(cfg: Config, file: PendingFile, n: string, i: nat, chunks: seq<Bytes>)
    requires PlainSource(cfg, file, chunks) && i < |chunks|
    ensures GoodAnswer(cfg, Replied(cfg, n, i, chunks[i]), n, chunks)
  {
    OpensOnArrival(cfg, n, i, chunks[i]);
  }

  /** Good answers for one plaintext file, each to a request that is out. */
  ghost predicate Served(cfg: Config, sys: Sys, events: seq<NetEvent>, n: string, chunks: seq<Bytes>)
    decreases |events|
  {
    events == [] || (
      var e := events[0];
      && GoodAnswer(cfg, e, n, chunks) && Enabled(sys, e)
      && Served(cfg, NetStep(cfg, sys, e), events[1..], n, chunks))
  }

  /** The chunks behind a plaintext entry; a key works, and vault mode can store the file. */
  ghost predicate PlainSource(cfg: Config, file: PendingFile, chunks: seq<Bytes>) {
    && file.fileId.None? && |chunks| == |file.hashes| == file.total
    && (forall i | 0 <= i < |chunks| :: cfg.P.hash(chunks[i]) == file.hashes[i] && FitsRecord(cfg, chunks[i]))
    && (cfg.key.Some? || cfg.vault.on ==> SealsCorrectly(cfg.P))
    && (cfg.vault.on ==> cfg.vault.key.Some? && !Unsafe(file.name) && file.total < U32)
  }

  /**
    The file lacks a chunk, chunk `h` above its first edge is here already, and apart from one
    request for `h`, once the edge has passed it, the window is full.
   */
  ghost predicate Holed(sys: Sys, n: string, h: nat) {
    && Scheduled(sys.s) && n in sys.s.active
    && var t := sys.s.active[n];
    && t.file.fileId.None? && t.next <= t.file.total && h < t.file.total && h in t.received
    && (forall i | i in t.received :: i < t.file.total) && Missing(t.received, t.file.total) != []
    && FileFlows(sys.net, t)
    && sys.net[Request(ByName(n), h)] == (if h < t.next then 1 else 0)
    && (t.next < t.file.total ==> CountRef(sys.net, ByName(n)) == WINDOW)
  }

  lemma {:induction false} OtherThan(net: multiset<Request>, n: string, h: nat) returns (i: nat)
    requires CountRef(net, ByName(n)) > net[Request(ByName(n), h)]
    ensures i != h && Request(ByName(n), i) in net
    decreases |net|
  {
    var q :| q in net && CountRef(net, ByName(n)) == (if q.ref == ByName(n) then 1 else 0)
        + CountRef(net - multiset{q}, ByName(n));
    if q.ref == ByName(n) && q.index != h {
      i := q.index;
    } else {
      i := OtherThan(net - multiset{q}, n, h);
    }
  }

  /** A request for another chunk is out. */
  lemma NextToAnswer(sys: Sys, n: string, h: nat) returns (i: nat)
    requires Holed(sys, n, h)
    ensures i != h && Request(ByName(n), i) in sys.net
    ensures sys.s.active[n].next < sys.s.active[n].file.total || i !in sys.s.active[n].received
  {
    var t := sys.s.active[n];
    var missing := Missing(t.received, t.file.total);
    assert missing[0] in missing && t.file.name == n;
    if t.next < t.file.total {
      i := OtherThan(sys.net, n, h);
    } else {
      i := missing[0];
      assert Request(Ref(t.file), i) in sys.net;
    }
  }

  lemma PlainAnswer(cfg: Config, s: State, net: multiset<Request>, n: string, i: nat, chunks: seq<Bytes>)
    requires n in s.active && s.active[n].file.name == n && PlainSource(cfg, s.active[n].file, chunks) && i < |chunks|
    requires forall j | j in s.active[n].received :: j < s.active[n].file.total
    ensures var o := OnResponse(cfg, s, ByName(n), i, OnTheWire(cfg, chunks[i]), Quiet());
      var after, asked := AfterStoring(s, net, n, i, chunks[i]).s, Advance(s.active[n], ByName(n));
      var t1 := after.active[n];
      if Missing(t1.received, t1.file.total) != [] then o == Out(after, asked)
      else o == Out(Complete(cfg, after, n, Quiet()).state, asked + Complete(cfg, after, n, Quiet()).sent)
  {
    hide Complete, Missing, OnTheWire, Decrypt;
    var t1 := Stored(s.active[n], i, chunks[i]);
    OpensOnArrival(cfg, n, i, chunks[i]);
    CountingWithinRange(t1.received, t1.file.total);
  }

  /** After a good answer that does not complete the file, all that is so still. */
  lemma StillHoled(sys: Sys, n: string, h: nat, i: nat, chunk: Bytes)
    requires Holed(sys, n, h) && i != h && Request(ByName(n), i) in sys.net && i < sys.s.active[n].file.total
    requires var t1 := AfterStoring(sys.s, sys.net, n, i, chunk).s.active[n]; Missing(t1.received, t1.file.total) != []
    ensures Holed(AfterStoring(sys.s, sys.net, n, i, chunk), n, h)
  {
    var t, after := sys.s.active[n], AfterStoring(sys.s, sys.net, n, i, chunk);
    hide FileFlows, Missing, CountRef, Scheduled;
    NamedByItself(sys, n);
    StoredFlows(sys.net, t, i, chunk);
    HoleCounts(sys.net, t, n, h, i);
    StoringSchedules(sys.s, n, i, chunk);
  }

  lemma NamedByItself(sys: Sys, n: string)
    requires Scheduled(sys.s) && n in sys.s.active && sys.s.active[n].file.fileId.None?
    ensures sys.s.active[n].file.name == n && Ref(sys.s.active[n].file) == ByName(n)
  {
  }

  lemma StoringSchedules(s: State, n: string, i: nat, chunk: Bytes)
    requires Scheduled(s) && n in s.active
    ensures Scheduled(s.(active := s.active[n := Stored(s.active[n], i, chunk)]))
  {
    var active := s.active[n := Stored(s.active[n], i, chunk)];
    assert active.Keys == s.active.Keys;
    assert |active| == |active.Keys| && |s.active| == |s.active.Keys|;
  }

  /** How the requests for the file change with one answer. */
  lemma HoleCounts(net: multiset<Request>, t: Transfer, n: string, h: nat, i: nat)
    requires i != h && Request(ByName(n), i) in net
    ensures var net' := net - multiset{Request(ByName(n), i)} + multiset(Advance(t, ByName(n)));
      && net'[Request(ByName(n), h)]
         == net[Request(ByName(n), h)] + (if t.next < t.file.total && t.next == h then 1 else 0)
      && (t.next < t.file.total ==> CountRef(net', ByName(n)) == CountRef(net, ByName(n)))
  {
    var q, asked := Request(ByName(n), i), Advance(t, ByName(n));
    CountWithout(net, ByName(n), q);
    CountPlus(net - multiset{q}, asked, ByName(n));
    CountOne(Request(ByName(n), t.next), ByName(n));
    hide CountRef, CountSent;
  }

  /** What is here of the file are its own chunks. */
  predicate Faithful(t: Transfer, chunks: seq<Bytes>) {
    |chunks| == t.file.total && forall i | i in t.received :: i < |chunks| && t.received[i] == chunks[i]
  }

  /** What is left of the system when the last chunk has been stored and the file retired, before the scheduler runs. */
  datatype Left = Left(events: seq<NetEvent>, s: State, net: multiset<Request>)

  /** Where the finished file went. */
  ghost predicate FolderAfter(cfg: Config, files: map<string, Bytes>, n: string, t: Transfer, chunks: seq<Bytes>,
                              after: map<string, Bytes>)
  {
    if cfg.vault.on then Vit(n) in after && after - {Vit(n)} == files - {Vit(n)}
    else Faithful(t, chunks) && n !in files ==> after == files[n := Concat(chunks)]
  }

  ghost predicate LeavesRequests(cfg: Config, sys: Sys, n: string, edge: nat, chunks: seq<Bytes>, left: Left) {
    && Served(cfg, sys, left.events, n, chunks)
    && NetRun(cfg, sys, left.events) == Sys(StartQueued(cfg, left.s, Quiet()).state,
        left.net + multiset(StartQueued(cfg, left.s, Quiet()).sent))
    && n in sys.s.active && left.s.active == sys.s.active - {n} && left.s.queue == sys.s.queue
    && left.s.inbound == sys.s.inbound
    && (exists content :: left.s.log == sys.s.log + [Finished(sys.s.active[n].file, content)])
    && FolderAfter(cfg, sys.s.files, n, sys.s.active[n], chunks, left.s.files)
    && (exists q :: q in left.net && q.ref == ByName(n) && q.index >= edge)
    && (forall q: Request | q.ref != ByName(n) :: left.net[q] == sys.net[q])
  }

  lemma {:induction false} NetRunCons(cfg: Config, sys: Sys, e: NetEvent, rest: seq<NetEvent>)
    ensures NetRun(cfg, NetStep(cfg, sys, e), rest) == NetRun(cfg, sys, [e] + rest)
  {
    RunsKeepHistory(cfg, sys, e, rest);
  }

  /** The last good answer retires the file with a request still out. */
  lemma LastAnswerLeaves(cfg: Config, sys: Sys, n: string, h: nat, edge: nat, i: nat, chunks: seq<Bytes>)
      returns (left: Left)
    requires Holed(sys, n, h) && PlainSource(cfg, sys.s.active[n].file, chunks) && Storable(cfg, sys.s.active[n])
    requires edge <= h && edge <= sys.s.active[n].next && i != h && Request(ByName(n), i) in sys.net && i < |chunks|
    requires var t1 := AfterStoring(sys.s, sys.net, n, i, chunks[i]).s.active[n];
        Missing(t1.received, t1.file.total) == []
    ensures LeavesRequests(cfg, sys, n, edge, chunks, left)
  {
    hide StartQueued, Complete, NetStep, Missing, FileFlows, CountRef, Gather, ReassembleOutcome, Concat, Faithful,
      Served, GoodAnswer, NetRun, Holed, PlainSource, Advance, Storable, FolderAfter, OnTheWire;
    HoledFacts(cfg, sys, n, h, chunks);
    RepliedIsGood(cfg, sys.s.active[n].file, n, i, chunks);
    var t, after := sys.s.active[n], AfterStoring(sys.s, sys.net, n, i, chunks[i]);
    var t1 := after.s.active[n];
    var e := Replied(cfg, n, i, chunks[i]);
    var files := ReassembleOutcome(cfg.P, after.s.files, cfg.vault, n, t1.file.total, t1.received, Quiet().draw).1;
    left := Left([e], Retired(after.s, n, files), after.net);
    LastStep(cfg, sys, n, i, chunks);
    RunOfOne(cfg, sys, e, n, chunks);
    SomethingLeft(sys, n, h, edge, i, chunks[i]);
    var log := sys.s.log + [Finished(t.file, Gather(t1.received, t.file.total))];
    assert left.s.log == log;
    KeepsOthers(sys, n, i, chunks[i]);
    assert left.s.active == sys.s.active - {n};
    LeftFolder(cfg, sys, n, i, chunks);
  }

  lemma LeftFolder(cfg: Config, sys: Sys, n: string, i: nat, chunks: seq<Bytes>)
    requires n in sys.s.active && sys.s.active[n].file.name == n && i < |chunks|
    requires PlainSource(cfg, sys.s.active[n].file, chunks) && Storable(cfg, sys.s.active[n])
    requires var t1 := AfterStoring(sys.s, sys.net, n, i, chunks[i]).s.active[n];
        Missing(t1.received, t1.file.total) == []
    ensures var after := AfterStoring(sys.s, sys.net, n, i, chunks[i]).s;
      var t1 := after.active[n];
      var files := ReassembleOutcome(cfg.P, after.files, cfg.vault, n, t1.file.total, t1.received, Quiet().draw).1;
      FolderAfter(cfg, sys.s.files, n, sys.s.active[n], chunks, files)
  {
    hide Missing, Gather, Concat, Advance, StartQueued, Complete, ReassembleOutcome;
    var after := AfterStoring(sys.s, sys.net, n, i, chunks[i]).s;
    StaysStorable(cfg, sys, n, i, chunks);
    Completes(cfg, after, n, chunks);
    assert after.files == sys.s.files;
    if Faithful(sys.s.active[n], chunks) {
      StaysFaithful(sys, n, i, chunks);
      GathersChunks(after.active[n], chunks);
    }
  }

  lemma StaysStorable(cfg: Config, sys: Sys, n: string, i: nat, chunks: seq<Bytes>)
    requires n in sys.s.active && i < |chunks| && PlainSource(cfg, sys.s.active[n].file, chunks)
    requires Storable(cfg, sys.s.active[n])
    ensures var after := AfterStoring(sys.s, sys.net, n, i, chunks[i]).s.active[n];
      Storable(cfg, after) && PlainSource(cfg, after.file, chunks)
  {
    hide Advance;
  }

  lemma GathersChunks(t: Transfer, chunks: seq<Bytes>)
    requires Faithful(t, chunks) && Missing(t.received, t.file.total) == []
    ensures Gather(t.received, t.file.total) == Concat(chunks)
  {
    NoneMissing(t.received, t.file.total);
    GatherComplete(t.received, t.file.total);
    assert ChunkList(t.received, t.file.total) == chunks;
  }

  lemma RunOfOne(cfg: Config, sys: Sys, e: NetEvent, n: string, chunks: seq<Bytes>)
    requires GoodAnswer(cfg, e, n, chunks) && Enabled(sys, e)
    ensures NetRun(cfg, sys, [e]) == NetStep(cfg, sys, e) && Served(cfg, sys, [e], n, chunks)
  {
    hide NetStep;
    assert [e][..0] == [] && NetRun(cfg, sys, []) == sys;
    assert [e][1..] == [] && Served(cfg, NetStep(cfg, sys, e), [], n, chunks);
  }

  lemma NamedSource(file: PendingFile, n: string, cfg: Config, chunks: seq<Bytes>)
    requires PlainSource(cfg, file, chunks) && file.name == n
    ensures Ref(file) == ByName(n)
  {
  }

  lemma LastStep(cfg: Config, sys: Sys, n: string, i: nat, chunks: seq<Bytes>)
    requires n in sys.s.active && sys.s.active[n].file.name == n && i < |chunks|
    requires PlainSource(cfg, sys.s.active[n].file, chunks) && Storable(cfg, sys.s.active[n])
    requires forall j | j in sys.s.active[n].received :: j < sys.s.active[n].file.total
    requires var t1 := AfterStoring(sys.s, sys.net, n, i, chunks[i]).s.active[n];
        Missing(t1.received, t1.file.total) == []
    ensures var after := AfterStoring(sys.s, sys.net, n, i, chunks[i]);
      var t1 := after.s.active[n];
      var files := ReassembleOutcome(cfg.P, after.s.files, cfg.vault, n, t1.file.total, t1.received, Quiet().draw).1;
      var started := StartQueued(cfg, Retired(after.s, n, files), Quiet());
      NetStep(cfg, sys, Replied(cfg, n, i, chunks[i]))
          == Sys(started.state, after.net + multiset(started.sent))
  {
    hide StartQueued, Complete, OnResponse, NetStep, Missing, Gather, ReassembleOutcome, OnTheWire, Storable, Advance,
      Retired, FitsRecord;
    NamedSource(sys.s.active[n].file, n, cfg, chunks);
    var after := AfterStoring(sys.s, sys.net, n, i, chunks[i]);
    PlainAnswer(cfg, sys.s, sys.net, n, i, chunks);
    StaysStorable(cfg, sys, n, i, chunks);
    hide PlainSource;
    Completes(cfg, after.s, n, chunks);
    NetStepAnswer(cfg, sys, Replied(cfg, n, i, chunks[i]));
    AppendRequests(sys.net - multiset{Request(ByName(n), i)}, Advance(sys.s.active[n], ByName(n)),
        Complete(cfg, after.s, n, Quiet()).sent);
  }

  lemma SomethingLeft(sys: Sys, n: string, h: nat, edge: nat, i: nat, chunk: Bytes)
    requires Holed(sys, n, h) && edge <= h && edge <= sys.s.active[n].next && i != h && Request(ByName(n), i) in sys.net
    ensures exists q :: q in AfterStoring(sys.s, sys.net, n, i, chunk).net && q.ref == ByName(n) && q.index >= edge
  {
    var t := sys.s.active[n];
    var net := AfterStoring(sys.s, sys.net, n, i, chunk).net;
    assert t.file.name == n;
    if h < t.next {
      assert Request(ByName(n), h) in net;
    } else {
      assert Request(ByName(n), t.next) in multiset(Advance(t, ByName(n)));
      assert Request(ByName(n), t.next) in net;
    }
  }

  lemma KeepsOthers(sys: Sys, n: string, i: nat, chunk: Bytes)
    requires n in sys.s.active && Ref(sys.s.active[n].file) == ByName(n)
    ensures forall q: Request | q.ref != ByName(n) :: AfterStoring(sys.s, sys.net, n, i, chunk).net[q] == sys.net[q]
  {
  }

  lemma Completes(cfg: Config, s: State, n: string, chunks: seq<Bytes>)
    requires n in s.active && s.active[n].file.name == n
    requires PlainSource(cfg, s.active[n].file, chunks) && Storable(cfg, s.active[n])
    requires Missing(s.active[n].received, s.active[n].file.total) == []
    ensures var t := s.active[n];
      var files := ReassembleOutcome(cfg.P, s.files, cfg.vault, n, t.file.total, t.received, Quiet().draw).1;
      && Complete(cfg, s, n, Quiet()) == StartQueued(cfg, Retired(s, n, files), Quiet())
      && (if cfg.vault.on then Vit(n) in files && files - {Vit(n)} == s.files - {Vit(n)}
          else n !in s.files ==> files == s.files[n := Gather(t.received, t.file.total)])
  {
    hide StartQueued, Gather, Missing, ChunkList, Storable;
    WriteSucceeds(cfg, s.files, s.active[n], Quiet().draw);
  }

  /**
    A file with a hole can be finished, by good answers to requests that are out, so that a
    request at or above its first edge is left out. The other files are not touched.
   */
  lemma {:induction false} HoleLeavesRequests(cfg: Config, sys: Sys, n: string, h: nat, edge: nat, chunks: seq<Bytes>)
    returns (left: Left)
    requires Holed(sys, n, h) && PlainSource(cfg, sys.s.active[n].file, chunks) && Storable(cfg, sys.s.active[n])
    requires edge <= h && edge <= sys.s.active[n].next
    requires forall q | q in sys.net && q.ref == ByName(n) :: q.index < |chunks|
    ensures LeavesRequests(cfg, sys, n, edge, chunks, left)
    decreases Ahead(sys.s.active[n]) + |sys.net|
  {
    hide Holed, NetStep, Missing, LeavesRequests, Faithful, PlainSource, Scheduled, Ahead, Advance, Storable, OnTheWire,
      GoodAnswer;
    HoledFacts(cfg, sys, n, h, chunks);
    var t := sys.s.active[n];
    var i := NextToAnswer(sys, n, h);
    var q := Request(ByName(n), i);
    assert q.index < |chunks|;
    var after := AfterStoring(sys.s, sys.net, n, i, chunks[i]);
    if Missing(after.s.active[n].received, t.file.total) == [] {
      left := LastAnswerLeaves(cfg, sys, n, h, edge, i, chunks);
    } else {
      var e := Replied(cfg, n, i, chunks[i]);
      StepsToAfter(cfg, sys, n, i, chunks);
      StillHoled(sys, n, h, i, chunks[i]);
      AfterIsSmaller(sys, n, i, chunks[i]);
      StaysFaithful(sys, n, i, chunks);
      StaysStorable(cfg, sys, n, i, chunks);
      RepliedIsGood(cfg, t.file, n, i, chunks);
      var rest := HoleLeavesRequests(cfg, after, n, h, edge, chunks);
      left := Left([e] + rest.events, rest.s, rest.net);
      PrependAnswer(cfg, sys, n, edge, chunks, e, after, rest);
    }
  }

  lemma HoledFacts(cfg: Config, sys: Sys, n: string, h: nat, chunks: seq<Bytes>)
    requires Holed(sys, n, h) && PlainSource(cfg, sys.s.active[n].file, chunks)
    ensures n in sys.s.active
    ensures var t := sys.s.active[n];
      && Scheduled(sys.s) && t.file.name == n && Ref(t.file) == ByName(n) && |chunks| == t.file.total
          && t.next <= t.file.total
      && forall j | j in t.received :: j < t.file.total
  {
    NamedByItself(sys, n);
    hide Missing, FileFlows, CountRef;
  }

  lemma StaysFaithful(sys: Sys, n: string, i: nat, chunks: seq<Bytes>)
    requires n in sys.s.active && i < |chunks|
    ensures Faithful(sys.s.active[n], chunks) ==> Faithful(AfterStoring(sys.s, sys.net, n, i, chunks[i]).s.active[n],
        chunks)
  {
    hide Advance;
  }

  lemma StepsToAfter(cfg: Config, sys: Sys, n: string, i: nat, chunks: seq<Bytes>)
    requires Scheduled(sys.s) && n in sys.s.active && PlainSource(cfg, sys.s.active[n].file, chunks) && i < |chunks|
    requires forall j | j in sys.s.active[n].received :: j < sys.s.active[n].file.total
    requires var after := AfterStoring(sys.s, sys.net, n, i, chunks[i]);
      Missing(after.s.active[n].received, after.s.active[n].file.total) != []
    ensures NetStep(cfg, sys, Replied(cfg, n, i, chunks[i]))
         == AfterStoring(sys.s, sys.net, n, i, chunks[i])
  {
    PlainAnswer(cfg, sys.s, sys.net, n, i, chunks);
    NetStepAnswer(cfg, sys, Replied(cfg, n, i, chunks[i]));
    hide OnResponse, NetStep, Missing, OnTheWire, PlainSource;
  }

  lemma AfterIsSmaller(sys: Sys, n: string, i: nat, chunk: Bytes)
    requires n in sys.s.active && Request(ByName(n), i) in sys.net && Ref(sys.s.active[n].file) == ByName(n)
    requires sys.s.active[n].next <= sys.s.active[n].file.total
    ensures var after := AfterStoring(sys.s, sys.net, n, i, chunk);
      && Ahead(after.s.active[n]) + |after.net| < Ahead(sys.s.active[n]) + |sys.net|
      && (forall q | q in after.net && q.ref == ByName(n) :: q in sys.net || q.index < sys.s.active[n].file.total)
      && (forall q: Request | q.ref != ByName(n) :: after.net[q] == sys.net[q])
      && after.s.files == sys.s.files && after.s.queue == sys.s.queue && after.s.log == sys.s.log
      && after.s.active - {n} == sys.s.active - {n} && after.s.active[n].file == sys.s.active[n].file
      && after.s.inbound == sys.s.inbound && after.s.active[n].next >= sys.s.active[n].next
  {
  }

  lemma PrependAnswer(cfg: Config, sys: Sys, n: string, edge: nat, chunks: seq<Bytes>, e: NetEvent, after: Sys,
      rest: Left)
    requires LeavesRequests(cfg, after, n, edge, chunks, rest) && after == NetStep(cfg, sys, e)
    requires GoodAnswer(cfg, e, n, chunks) && Enabled(sys, e)
    requires forall q: Request | q.ref != ByName(n) :: after.net[q] == sys.net[q]
    requires n in sys.s.active && after.s.active - {n} == sys.s.active - {n}
        && after.s.active[n].file == sys.s.active[n].file
    requires Faithful(sys.s.active[n], chunks) ==> Faithful(after.s.active[n], chunks)
    requires after.s.files == sys.s.files && after.s.queue == sys.s.queue && after.s.log == sys.s.log
        && after.s.inbound == sys.s.inbound
    ensures LeavesRequests(cfg, sys, n, edge, chunks, Left([e] + rest.events, rest.s, rest.net))
  {
    hide NetStep, StartQueued, NetRun;
    NetRunCons(cfg, sys, e, rest.events);
    assert ([e] + rest.events)[1..] == rest.events;
  }
}
