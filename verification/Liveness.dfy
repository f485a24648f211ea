/**
  When no request is lost and no write fails, requests never dry up while a chunk is missing,
  each useful answer brings the end closer, and a run only comes to rest when nothing is left.
 */
module Liveness {
  import opened Basics
  import opened Chunking
  import opened Reassembly
  import opened Download
  import opened TransferSafety
  import opened Network
  import opened Writing

  // ── Sums over the table of downloads ────────────────────────────────────

  ghost function SumOver(active: map<string, Transfer>, weight: Transfer -> nat): nat
    decreases |active.Keys|
  {
    if active == map[] then 0 else
    var n :| n in active;
    assert (active - {n}).Keys == active.Keys - {n};
    weight(active[n]) + SumOver(active - {n}, weight)
  }

  lemma {:induction false} SumWithout(active: map<string, Transfer>, weight: Transfer -> nat, n: string)
    requires n in active
    ensures SumOver(active, weight) == weight(active[n]) + SumOver(active - {n}, weight)
    decreases |active.Keys|
  {
    var m :| m in active && SumOver(active, weight) == weight(active[m]) + SumOver(active - {m}, weight);
    if m != n {
      assert (active - {m}).Keys == active.Keys - {m} && (active - {n}).Keys == active.Keys - {n};
      SumWithout(active - {m}, weight, n);
      SumWithout(active - {n}, weight, m);
      assert active - {m} - {n} == active - {n} - {m};
    }
  }

  lemma SumUpdate(active: map<string, Transfer>, weight: Transfer -> nat, n: string, t: Transfer)
    ensures SumOver(active[n := t], weight) + (if n in active then weight(active[n]) else 0)
         == SumOver(active, weight) + weight(t)
  {
    SumWithout(active[n := t], weight, n);
    assert active[n := t] - {n} == active - {n};
    if n in active {
      SumWithout(active, weight, n);
    } else {
      assert active - {n} == active;
    }
  }

  lemma {:induction false} SumWithinWindow(active: map<string, Transfer>, weight: Transfer -> nat)
    requires forall n | n in active :: weight(active[n]) <= WINDOW
    ensures SumOver(active, weight) <= WINDOW * |active.Keys|
    decreases |active.Keys|
  {
    if active == map[] {
    } else {
      var n :| n in active;
      SumWithout(active, weight, n);
      assert (active - {n}).Keys == active.Keys - {n};
      SumWithinWindow(active - {n}, weight);
    }
  }

  // ── Requests never dry up ───────────────────────────────────────────────

  /** Below the window's edge every chunk is here or asked for, and an open window has a request out. */
  ghost predicate FileFlows(net: multiset<Request>, t: Transfer) {
    && (forall i | 0 <= i < t.next :: i in t.received || Request(Ref(t.file), i) in net)
    && (t.next < t.file.total ==> exists i :: Request(Ref(t.file), i) in net)
  }

  ghost predicate Flowing(s: State, net: multiset<Request>) {
    forall n | n in s.active :: FileFlows(net, s.active[n])
  }

  lemma PendingHasRequest(s: State, net: multiset<Request>, n: string)
    requires Flowing(s, net) && Pending(s) && n in s.active
    ensures exists i :: Request(Ref(s.active[n].file), i) in net
  {
    var t := s.active[n];
    var missing := Missing(t.received, t.file.total);
    assert FileFlows(net, t) && missing[0] in missing;
    if missing[0] < t.next {
      assert Request(Ref(t.file), missing[0]) in net;
    }
  }

  /** The network carries a request for each of these chunks. */
  lemma AskedAll(src: map<string, PendingFile>, n: string, idx: seq<nat>)
    requires WellFormed(src) && n in src && forall i | i in idx :: i < src[n].total
    ensures forall i | i in idx :: Request(Ref(src[n]), i) in multiset(AskAll(Ref(src[n]), idx))
  {
    var asked := AskAll(Ref(src[n]), idx);
    forall i | i in idx ensures Request(Ref(src[n]), i) in multiset(asked) {
      var k :| 0 <= k < |idx| && idx[k] == i;
      AskIsPlain(src, n, i);
      assert asked[k] == Request(Ref(src[n]), i);
    }
  }

  lemma BegunFlows(net: multiset<Request>, src: map<string, PendingFile>, n: string, received: map<nat, Bytes>)
    requires WellFormed(src) && n in src
    ensures var needed := Missing(received, src[n].total);
      needed != [] ==> FileFlows(net + multiset(AskAll(Ref(src[n]), FirstWindow(needed))), Begun(src[n], received))
  {
    var file, t := src[n], Begun(src[n], received);
    var needed := Missing(received, file.total);
    var window, asked := FirstWindow(needed), AskAll(Ref(file), FirstWindow(needed));
    WindowKnown(src, n, received);
    AskedAll(src, n, window);
    forall i | 0 <= i < t.next && i !in received ensures i in window {
      BelowNextIsInWindow(file, received, i);
    }
    if needed != [] {
      assert window[0] in window;
      assert Request(Ref(file), window[0]) in net + multiset(asked);
    }
    hide AskAll, Missing, FirstWindow, Begun;
  }

  lemma BelowNextIsInWindow(file: PendingFile, received: map<nat, Bytes>, i: nat)
    requires i < Begun(file, received).next && i !in received
    ensures i in FirstWindow(Missing(received, file.total))
  {
    var needed := Missing(received, file.total);
    NextIsWithin(file, received);
    assert i in needed;
    var k :| 0 <= k < |needed| && needed[k] == i;
    assert FirstWindow(needed)[k] == i;
  }

  lemma NextIsWithin(file: PendingFile, received: map<nat, Bytes>)
    ensures Begun(file, received).next <= file.total
  {
    var needed := Missing(received, file.total);
    if |needed| > WINDOW { assert needed[WINDOW] in needed; }
  }

  lemma StartOneFlows(cfg: Config, src: map<string, PendingFile>, s: State, env: Env, net: multiset<Request>)
    requires WellFormed(src) && Known(cfg, src, s) && s.queue != [] && Flowing(s, net) && Pending(s)
    ensures var o := StartOne(cfg, s, env);
      Flowing(o.state, net + multiset(o.sent)) && Pending(o.state)
  {
    var file := s.queue[0];
    assert FileKnown(cfg, src, s.inbound, file);
    hide StartOne, Reusable, AskAll, Known, Missing, FirstWindow, FileFlows, WellFormed;
    var received := Reusable(cfg.P, s.files, file);
    StartOneCases(cfg, s, env);
    BegunFlows(net, src, file.name, received);
    var o := StartOne(cfg, s, env);
    forall n | n in s.active ensures FileFlows(net + multiset(o.sent), s.active[n]) {
      MoreRequests(net, multiset(o.sent), s.active[n]);
    }
  }

  lemma MoreRequests(net: multiset<Request>, more: multiset<Request>, t: Transfer)
    requires FileFlows(net, t)
    ensures FileFlows(net + more, t)
  {
    if t.next < t.file.total {
      var i :| Request(Ref(t.file), i) in net;
      assert Request(Ref(t.file), i) in net + more;
    }
  }

  lemma {:induction false} StartQueuedFlows(cfg: Config, src: map<string, PendingFile>, s: State, env: Env,
          net: multiset<Request>)
    requires WellFormed(src) && Known(cfg, src, s) && Flowing(s, net) && Pending(s)
    ensures var o := StartQueued(cfg, s, env);
      Flowing(o.state, net + multiset(o.sent)) && Pending(o.state)
    decreases |s.queue|
  {
    if |s.active| >= MAX_CONCURRENT_FILES || s.queue == [] {
      assert net + multiset([]) == net;
    } else {
      var first := StartOne(cfg, s, env);
      StartOneKnown(cfg, src, s, env);
      StartOneFlows(cfg, src, s, env, net);
      StartQueuedFlows(cfg, src, first.state, env, net + multiset(first.sent));
      var rest := StartQueued(cfg, first.state, env);
      assert net + multiset(first.sent + rest.sent) == net + multiset(first.sent) + multiset(rest.sent);
    }
  }

  /** Taking one request away does not concern other files. */
  lemma OthersFlow(net: multiset<Request>, q: Request, more: multiset<Request>, t: Transfer)
    requires FileFlows(net, t) && q.ref != Ref(t.file)
    ensures FileFlows(net - multiset{q} + more, t)
  {
    if t.next < t.file.total {
      var i :| Request(Ref(t.file), i) in net;
      assert Request(Ref(t.file), i) in net - multiset{q} + more;
    }
  }

  /** The answered file itself: the chunk came in, and the next one was asked for. */
  lemma StoredFlows(net: multiset<Request>, t: Transfer, index: nat, chunk: Bytes)
    requires FileFlows(net, t) && Ask(Ref(t.file), t.next) == Request(Ref(t.file), t.next)
    ensures FileFlows(net - multiset{Request(Ref(t.file), index)} + multiset(Advance(t, Ref(t.file))),
        Stored(t, index, chunk))
  {
    var net' := net - multiset{Request(Ref(t.file), index)} + multiset(Advance(t, Ref(t.file)));
    if t.next < t.file.total {
      assert Request(Ref(t.file), t.next) in multiset(Advance(t, Ref(t.file)));
      assert Request(Ref(t.file), t.next) in net';
    }
  }

  /** The state and network right after a good chunk has been stored. */
  ghost function AfterStoring(s: State, net: multiset<Request>, n: string, index: nat, chunk: Bytes): Sys
    requires n in s.active
  {
    var t := s.active[n];
    Sys(s.(active := s.active[n := Stored(t, index, chunk)]),
        net - multiset{Request(Ref(t.file), index)} + multiset(Advance(t, Ref(t.file))))
  }

  /** What accepting a decrypted chunk comes to. */
  lemma AcceptCases(cfg: Config, s: State, net: multiset<Request>, n: string, index: nat, chunk: Bytes,
          digest: Bytes32, env: Env)
    requires n in s.active && Ask(Ref(s.active[n].file), index) == Request(Ref(s.active[n].file), index)
    ensures var t := s.active[n];
      var o := Accept(cfg, s, n, Ref(t.file), index, chunk, digest, env);
      var after := AfterStoring(s, net, n, index, chunk).s;
      var asked, done := Advance(t, Ref(t.file)), Complete(cfg, after, n, env);
      if index < |t.file.hashes| && t.file.hashes[index] == digest
      then o == Out(after, asked) || o == Out(done.state, asked + done.sent)
      else o == Out(s, [Request(Ref(t.file), index)])
  {
    hide Complete;
  }

  lemma StoringFlows(cfg: Config, src: map<string, PendingFile>, s: State, net: multiset<Request>, n: string,
          index: nat, chunk: Bytes)
    requires WellFormed(src) && Known(cfg, src, s) && Flowing(s, net) && n in s.active
    ensures var after := AfterStoring(s, net, n, index, chunk);
      Flowing(after.s, after.net)
  {
    var t := s.active[n];
    assert TransferKnown(cfg, src, s.inbound, t) && t.file == src[n];
    AskIsPlain(src, n, t.next);
    StoredFlows(net, t, index, chunk);
    var q, more := Request(Ref(t.file), index), multiset(Advance(t, Ref(t.file)));
    forall m | m in s.active && m != n ensures FileFlows(net - multiset{q} + more, s.active[m]) {
      assert TransferKnown(cfg, src, s.inbound, s.active[m]);
      RefsDiffer(src, m, n);
      OthersFlow(net, q, more, s.active[m]);
    }
  }

  // ── The measure ─────────────────────────────────────────────────────────

  function Ahead(t: Transfer): nat {
    if t.next < t.file.total then 2 * (t.file.total - t.next) else 0
  }

  function QueueLoad(queue: seq<PendingFile>): nat {
    if queue == [] then 0 else 2 * queue[0].total + QueueLoad(queue[1..])
  }

  ghost function Load(s: State): nat {
    QueueLoad(s.queue) + SumOver(s.active, Ahead)
  }

  /** 2 * (chunks not yet asked for) + requests in flight, over everything queued and active. */
  ghost function Measure(sys: Sys): nat {
    Load(sys.s) + |sys.net|
  }

  lemma {:induction false} MissingAtLeast(received: map<nat, Bytes>, n: nat, k: nat)
    requires k < |Missing(received, n)|
    ensures Missing(received, n)[k] >= k
  {
    if k > 0 {
      MissingAtLeast(received, n, k - 1);
      assert Missing(received, n)[k - 1] < Missing(received, n)[k];
    }
  }

  /** Opening a window costs no more than the chunks it moves past. */
  lemma BegunLoad(file: PendingFile, received: map<nat, Bytes>)
    ensures var needed := Missing(received, file.total);
      Ahead(Begun(file, received)) + |FirstWindow(needed)| <= 2 * file.total
  {
    var needed := Missing(received, file.total);
    if |needed| > WINDOW {
      MissingAtLeast(received, file.total, WINDOW);
      assert needed[WINDOW] in needed;
    } else {
      MissingCount(received, file.total);
    }
  }

  lemma StartOneLoad(cfg: Config, s: State, env: Env)
    requires Placed(s) && s.queue != []
    ensures Load(StartOne(cfg, s, env).state) + |StartOne(cfg, s, env).sent| <= Load(s)
  {
    var file := s.queue[0];
    var received := Reusable(cfg.P, s.files, file);
    StartOneCases(cfg, s, env);
    BegunLoad(file, received);
    SumUpdate(s.active, Ahead, file.name, Begun(file, received));
    hide Reusable, StartOne, Begun, Missing, Ahead;
  }

  lemma {:induction false} StartQueuedLoad(cfg: Config, s: State, env: Env)
    requires Placed(s)
    ensures Load(StartQueued(cfg, s, env).state) + |StartQueued(cfg, s, env).sent| <= Load(s)
    decreases |s.queue|
  {
    if |s.active| < MAX_CONCURRENT_FILES && s.queue != [] {
      StartOneLoad(cfg, s, env);
      StartOnePlaces(cfg, s, env);
      StartQueuedLoad(cfg, StartOne(cfg, s, env).state, env);
    }
  }

  lemma StoringLoad(s: State, net: multiset<Request>, n: string, index: nat, chunk: Bytes)
    requires n in s.active && Request(Ref(s.active[n].file), index) in net
    requires s.active[n].next <= s.active[n].file.total
    ensures var after := AfterStoring(s, net, n, index, chunk);
      Load(after.s) + |after.net| < Load(s) + |net|
  {
    var t := s.active[n];
    SumUpdate(s.active, Ahead, n, Stored(t, index, chunk));
  }

  // ── One answer ──────────────────────────────────────────────────────────

  /** Completing a download keeps requests flowing and never adds load; it stays only if its write failed. */
  lemma CompleteFlows(cfg: Config, src: map<string, PendingFile>, s: State, net: multiset<Request>, n: string, env: Env)
    requires WellFormed(src) && Known(cfg, src, s) && Placed(s) && n in s.active && Flowing(s, net)
    requires forall m | m in s.active && m != n :: Missing(s.active[m].received, s.active[m].file.total) != []
    ensures var o := Complete(cfg, s, n, env);
      && (o.state.active == s.active || Pending(o.state))
      && Flowing(o.state, net + multiset(o.sent))
      && Load(o.state) + |o.sent| <= Load(s)
  {
    var files := CompleteCases(cfg, s, n, env);
    hide Complete;
    assert net + multiset([]) == net;
    if Complete(cfg, s, n, env) != Out(s.(files := files), []) {
      var s1 := Retired(s, n, files);
      SumWithout(s.active, Ahead, n);
      SubsetSize(s1.active.Keys, s.active.Keys);
      assert |s1.active| == |s1.active.Keys| && |s.active| == |s.active.Keys|;
      StartQueuedFlows(cfg, src, s1, env, net);
      StartQueuedLoad(cfg, s1, env);
    }
  }

  lemma AfterStoringKnown(cfg: Config, src: map<string, PendingFile>, s: State, net: multiset<Request>, n: string,
          index: nat, chunk: Bytes)
    requires Known(cfg, src, s) && Placed(s) && n in s.active && index < s.active[n].file.total
    ensures var after := AfterStoring(s, net, n, index, chunk).s; Known(cfg, src, after) && Placed(after)
  {
    var after := AfterStoring(s, net, n, index, chunk).s;
    assert TransferKnown(cfg, src, s.inbound, s.active[n]);
    assert TransferKnown(cfg, src, s.inbound, after.active[n]);
    assert |after.active| == |after.active.Keys| && |s.active| == |s.active.Keys| && after.active.Keys == s.active.Keys;
  }

  lemma StoringKeeps(cfg: Config, src: map<string, PendingFile>, s: State, net: multiset<Request>, n: string,
          index: nat, chunk: Bytes)
    requires Known(cfg, src, s) && Placed(s) && Pending(s) && n in s.active && index < s.active[n].file.total
    ensures var after := AfterStoring(s, net, n, index, chunk).s;
      && Known(cfg, src, after) && Placed(after)
      && forall m | m in after.active && m != n :: Missing(after.active[m].received, after.active[m].file.total) != []
  {
    AfterStoringKnown(cfg, src, s, net, n, index, chunk);
  }

  /** Requests keep flowing and the measure went down. */
  ghost predicate Advances(sys: Sys, after: Sys) {
    Flowing(after.s, after.net) && Measure(after) < Measure(sys)
  }

  /** ... or nothing changed at all. */
  ghost predicate Progress(sys: Sys, after: Sys) {
    Advances(sys, after) || (after == sys && Flowing(sys.s, sys.net))
  }

  /** A good chunk is stored; if it was the last one the file is completed as well. */
  lemma GoodChunkProgresses(cfg: Config, src: map<string, PendingFile>, s: State, net: multiset<Request>, n: string,
                            index: nat, chunk: Bytes, env: Env)
    requires WellFormed(src) && Known(cfg, src, s) && Placed(s) && Flowing(s, net) && Pending(s)
    requires n in s.active && Request(Ref(s.active[n].file), index) in net && index < s.active[n].file.total
    ensures var after := AfterStoring(s, net, n, index, chunk);
      var o := Complete(cfg, after.s, n, env);
      && Advances(Sys(s, net), after)
      && Advances(Sys(s, net), Sys(o.state, after.net + multiset(o.sent)))
  {
    var after := AfterStoring(s, net, n, index, chunk);
    assert TransferKnown(cfg, src, s.inbound, s.active[n]);
    StoringFlows(cfg, src, s, net, n, index, chunk);
    StoringLoad(s, net, n, index, chunk);
    StoringKeeps(cfg, src, s, net, n, index, chunk);
    CompleteFlows(cfg, src, after.s, after.net, n, env);
    hide Known, Flowing, AfterStoring, Complete, Load, Missing;
  }

  lemma AcceptProgresses(cfg: Config, src: map<string, PendingFile>, s: State, net: multiset<Request>, n: string,
                         index: nat, chunk: Bytes, digest: Bytes32, env: Env)
    requires WellFormed(src) && Known(cfg, src, s) && Placed(s) && Flowing(s, net) && Pending(s)
    requires n in s.active && Request(Ref(s.active[n].file), index) in net
    requires Ask(Ref(s.active[n].file), index) == Request(Ref(s.active[n].file), index)
    ensures var o := Accept(cfg, s, n, Ref(s.active[n].file), index, chunk, digest, env);
      var after := Sys(o.state, net - multiset{Request(Ref(s.active[n].file), index)} + multiset(o.sent));
      && Progress(Sys(s, net), after)
      && (index < |s.active[n].file.hashes| && s.active[n].file.hashes[index] == digest
          ==> Advances(Sys(s, net), after))
  {
    var t := s.active[n];
    var q, asked := Request(Ref(t.file), index), Advance(t, Ref(t.file));
    assert TransferKnown(cfg, src, s.inbound, t);
    hide Known, Flowing, Advances, Complete, Placed, Pending, Missing, AfterStoring, Advance;
    AcceptCases(cfg, s, net, n, index, chunk, digest, env);
    hide Accept;
    if index < |t.file.hashes| && t.file.hashes[index] == digest {
      GoodChunkProgresses(cfg, src, s, net, n, index, chunk, env);
      AppendRequests(net - multiset{q}, asked, Complete(cfg, AfterStoring(s, net, n, index, chunk).s, n, env).sent);
    } else {
      RetryIsNoChange(Sys(s, net), q);
    }
  }

  lemma AppendRequests(net: multiset<Request>, a: seq<Request>, b: seq<Request>)
    ensures net + multiset(a + b) == net + multiset(a) + multiset(b)
  {
  }

  lemma IgnoredProgresses(cfg: Config, src: map<string, PendingFile>, s: State, net: multiset<Request>, n: string,
          q: Request)
    requires WellFormed(src) && Known(cfg, src, s) && Flowing(s, net)
    requires q in net && n in src && q.ref == Ref(src[n]) && n !in s.active
    ensures Advances(Sys(s, net), Sys(s, net - multiset{q} + multiset([])))
  {
    forall m | m in s.active ensures FileFlows(net - multiset{q} + multiset([]), s.active[m]) {
      assert TransferKnown(cfg, src, s.inbound, s.active[m]);
      RefsDiffer(src, m, n);
      OthersFlow(net, q, multiset([]), s.active[m]);
    }
  }

  /**
    Every answer either leaves downloads and network exactly as they were - the chunk was bad
    and has been asked for again - or strictly lowers the measure.
   */
  lemma AnswerRetriesOrProgresses(cfg: Config, src: map<string, PendingFile>, sys: Sys, e: NetEvent)
    requires Sound(cfg, src, sys) && Flowing(sys.s, sys.net) && Pending(sys.s)
    requires e.Answer? && AsRequested(e) && Enabled(sys, e)
    ensures Progress(sys, NetStep(cfg, sys, e))
    ensures Useful(cfg, sys.s, e.req, e.data) ==> Advances(sys, NetStep(cfg, sys, e))
  {
    assert e.req in sys.net;
    hide NetStep, Flowing, Known, Pending, Placed, Progress, Advances, Useful, OnResponse;
    AnswerProgresses(cfg, src, sys, e.req, e.data, e.env);
    NetStepAnswer(cfg, sys, e);
  }

  /** An answer that is no longer needed, or whose chunk verifies. */
  ghost predicate Useful(cfg: Config, s: State, q: Request, data: Bytes) {
    match OpenResponse(cfg, s, q.ref, q.index, data)
    case Ignored => true
    case Unreadable => false
    case Arrived(n, _, digest) => q.index < |s.active[n].file.hashes| && s.active[n].file.hashes[q.index] == digest
  }

  lemma AnswerProgresses(cfg: Config, src: map<string, PendingFile>, sys: Sys, q: Request, data: Bytes, env: Env)
    requires WellFormed(src) && Known(cfg, src, sys.s) && Placed(sys.s) && Flowing(sys.s, sys.net) && Pending(sys.s)
    requires q in sys.net && KnownRequest(src, q)
    ensures var o := OnResponse(cfg, sys.s, q.ref, q.index, data, env);
      var after := Sys(o.state, sys.net - multiset{q} + multiset(o.sent));
      Progress(sys, after) && (Useful(cfg, sys.s, q, data) ==> Advances(sys, after))
  {
    var n :| n in src && Ref(src[n]) == q.ref;
    var a := OpenResponse(cfg, sys.s, q.ref, q.index, data);
    AnswerResolves(cfg, src, sys.s, n, q.index, data);
    RepeatsItself(src, q);
    hide OpenResponse, Accept, Advances, Known, Flowing, KnownRequest, Placed, Pending, WellFormed, OnResponse;
    ResponseCases(cfg, sys.s, q, data, env);
    if a.Arrived? {
      AcceptProgresses(cfg, src, sys.s, sys.net, n, q.index, a.chunk, a.digest, env);
    } else if a.Ignored? {
      IgnoredProgresses(cfg, src, sys.s, sys.net, n, q);
    } else {
      RetryIsNoChange(sys, q);
    }
  }

  lemma ResponseCases(cfg: Config, s: State, q: Request, data: Bytes, env: Env)
    requires Ask(q.ref, q.index) == q
    ensures var a, o := OpenResponse(cfg, s, q.ref, q.index, data), OnResponse(cfg, s, q.ref, q.index, data, env);
      && (a.Arrived? ==> a.name in s.active && o == Accept(cfg, s, a.name, q.ref, q.index, a.chunk, a.digest, env))
      && (a.Ignored? ==> o == Out(s, []))
      && (a.Unreadable? ==> o == Out(s, [q]))
  {
    hide Accept;
  }

  lemma RetryIsNoChange(sys: Sys, q: Request)
    requires Flowing(sys.s, sys.net) && q in sys.net
    ensures Progress(sys, Sys(sys.s, sys.net - multiset{q} + multiset([q])))
  {
    assert sys.net - multiset{q} + multiset([q]) == sys.net;
  }

  // ── Manifests and stall ticks ───────────────────────────────────────────

  lemma ManifestFlows(cfg: Config, src: map<string, PendingFile>, s: State, net: multiset<Request>, e: NetEvent)
    requires WellFormed(src) && Known(cfg, src, s) && Static(src, e) && (e.Listed? || e.ListedSealed?)
    requires Flowing(s, net) && Pending(s)
    ensures var o := Step(cfg, s, ToEvent(e));
      Flowing(o.state, net + multiset(o.sent)) && Pending(o.state)
  {
    assert net + multiset([]) == net;
    if e.Listed? {
      var files := PlainFiles(e.entries);
      EnqueueKnown(cfg, src, s, files);
      EnqueueKeeps(cfg, s, files);
      StartQueuedFlows(cfg, src, Enqueue(cfg, s, files), e.env, net);
    } else if cfg.key.Some? {
      var s1, files := s.(inbound := InboundIds(e.sealedEntries)), SealedFiles(e.sealedEntries);
      NewIdsKeepKnown(cfg, src, s, e.sealedEntries);
      EnqueueKnown(cfg, src, s1, files);
      EnqueueKeeps(cfg, s1, files);
      StartQueuedFlows(cfg, src, Enqueue(cfg, s1, files), e.env, net);
    }
  }

  /** The chunks asked for again are the smallest missing ones, all of them up to the last. */
  lemma SmallestMissing(t: Transfer)
    ensures var missing, again := Missing(t.received, t.file.total), Again(t);
      && |again| == Min(|missing|, WINDOW)
      && (missing != [] ==>
            && again != []
            && forall i | i in missing :: i in again <==> i <= again[|again| - 1])
  {
    var missing, again := Missing(t.received, t.file.total), Again(t);
    if missing != [] {
      forall i | i in missing ensures i in again <==> i <= again[|again| - 1] {
        var k :| 0 <= k < |missing| && missing[k] == i;
        if k < |again| { assert again[k] == i; }
        else { assert missing[|again| - 1] < missing[k]; }
      }
    }
  }

  lemma ReopenedFlows(src: map<string, PendingFile>, net: multiset<Request>, t: Transfer)
    requires WellFormed(src) && FromListing(src, t.file) && FileFlows(net, t) && Again(t) != []
    ensures FileFlows(net + multiset(AskAll(Ref(t.file), Again(t))), Reopened(t))
  {
    var missing, again, asked := Missing(t.received, t.file.total), Again(t), AskAll(Ref(t.file), Again(t));
    var last := again[|again| - 1];
    SmallestMissing(t);
    AgainIsMissing(t);
    AskedAll(src, t.file.name, again);
    assert missing != [];
    hide AskAll, Again, Missing;
    forall i | 0 <= i <= last && i !in t.received ensures Request(Ref(t.file), i) in multiset(asked) {
      assert i in missing;
    }
    assert Request(Ref(t.file), last) in net + multiset(asked);
  }

  lemma StalledFlows(cfg: Config, src: map<string, PendingFile>, s: State, net: multiset<Request>, name: string)
    requires WellFormed(src) && Known(cfg, src, s) && Flowing(s, net) && Pending(s)
    ensures var o := Stalled(s, name);
      Flowing(o.state, net + multiset(o.sent)) && Pending(o.state)
  {
    if name in s.active && Again(s.active[name]) != [] {
      var t := s.active[name];
      var asked := AskAll(Ref(t.file), Again(t));
      assert TransferKnown(cfg, src, s.inbound, t);
      ReopenedFlows(src, net, t);
      assert Reopened(t).received == t.received && Reopened(t).file == t.file;
      hide FileFlows, Known, Missing, Again, AskAll, Reopened;
      forall m | m in s.active ensures FileFlows(net + multiset(asked), s.active[m]) {
        MoreRequests(net, multiset(asked), s.active[m]);
      }
    } else {
      assert net + multiset([]) == net;
    }
  }

  lemma {:induction false} TickFlows(cfg: Config, src: map<string, PendingFile>, s: State, net: multiset<Request>,
          silent: seq<string>)
    requires WellFormed(src) && Known(cfg, src, s) && Flowing(s, net) && Pending(s)
    ensures var o := OnTick(s, silent);
      Flowing(o.state, net + multiset(o.sent)) && Pending(o.state)
  {
    if silent == [] {
      assert net + multiset([]) == net;
    } else {
      var rest, last := silent[..|silent| - 1], silent[|silent| - 1];
      var before := OnTick(s, rest);
      TickKnown(cfg, src, s, rest);
      TickFlows(cfg, src, s, net, rest);
      StalledFlows(cfg, src, before.state, net + multiset(before.sent), last);
      AppendRequests(net, before.sent, Stalled(before.state, last).sent);
    }
  }

  // ── Whole runs ──────────────────────────────────────────────────────────

  ghost function NetRun(cfg: Config, sys: Sys, events: seq<NetEvent>): Sys {
    if events == [] then sys
    else NetStep(cfg, NetRun(cfg, sys, events[..|events| - 1]), events[|events| - 1])
  }

  /** Requests are answered as they were made, none is lost, and no write fails. */
  ghost predicate Lossless(cfg: Config, src: map<string, PendingFile>, sys: Sys, events: seq<NetEvent>) {
    events == [] || (
      var rest, e := events[..|events| - 1], events[|events| - 1];
      && Lossless(cfg, src, sys, rest)
      && Static(src, e) && AsRequested(e) && Enabled(NetRun(cfg, sys, rest), e) && !e.Lose? && Obliging(cfg, e))
  }

  ghost predicate Healthy(cfg: Config, src: map<string, PendingFile>, sys: Sys) {
    && Sound(cfg, src, sys) && Flowing(sys.s, sys.net) && Conserved(sys.s)
    && Pending(sys.s) && AllStorable(cfg, sys.s)
  }

  lemma StepFlows(cfg: Config, src: map<string, PendingFile>, sys: Sys, e: NetEvent)
    requires Healthy(cfg, src, sys) && Static(src, e) && AsRequested(e) && Enabled(sys, e) && !e.Lose?
    ensures Flowing(NetStep(cfg, sys, e).s, NetStep(cfg, sys, e).net)
  {
    hide FileFlows, Known, WellFormed, Pending, Placed, OnResponse, OnTick, OnManifest, OnEncryptedManifest, Static,
        Conserved;
    assert sys.net - multiset{} == sys.net;
    match e
    case Answer(_, _, _, _, _) => AnswerRetriesOrProgresses(cfg, src, sys, e);
    case Silence(silent) => TickFlows(cfg, src, sys.s, sys.net, silent);
    case FolderChange(_) => assert sys.net + multiset([]) == sys.net;
    case Listed(_, _) => ManifestFlows(cfg, src, sys.s, sys.net, e);
    case ListedSealed(_, _) => ManifestFlows(cfg, src, sys.s, sys.net, e);
  }

  lemma {:induction false} LosslessRunsStayHealthy(cfg: Config, src: map<string, PendingFile>, sys: Sys,
          events: seq<NetEvent>)
    requires Writable(cfg, src) && Healthy(cfg, src, sys) && Lossless(cfg, src, sys, events)
    ensures Healthy(cfg, src, NetRun(cfg, sys, events))
  {
    hide NetStep, Sound, Flowing, Pending, AllStorable, Conserved, Writable, Static, Obliging;
    if events != [] {
      var rest, e := events[..|events| - 1], events[|events| - 1];
      var before := NetRun(cfg, sys, rest);
      LosslessRunsStayHealthy(cfg, src, sys, rest);
      StepStaysHealthy(cfg, src, before, e);
    }
  }

  lemma StepStaysHealthy(cfg: Config, src: map<string, PendingFile>, sys: Sys, e: NetEvent)
    requires Writable(cfg, src) && Healthy(cfg, src, sys) && Static(src, e) && AsRequested(e) && Enabled(sys, e)
    requires !e.Lose? && Obliging(cfg, e)
    ensures Healthy(cfg, src, NetStep(cfg, sys, e))
  {
    hide Step, Flowing, Pending, AllStorable, Conserved, Writable, Static, Obliging, Known, KnownRequest, WellFormed;
    StepFlows(cfg, src, sys, e);
    NetStepSound(cfg, src, sys, e);
    StepConserves(cfg, sys.s, ToEvent(e));
    StepPends(cfg, src, sys.s, e);
  }

  /**
    A lossless run can only come to rest when it is done: while any file is active or waiting
    there is a request that can be answered, and with none left every file that was ever
    queued has left the queue and is accounted for in the log. What became of it is in Outcomes.
   */
  lemma RestMeansDone(cfg: Config, src: map<string, PendingFile>, files: map<string, Bytes>, events: seq<NetEvent>)
    requires WellFormed(src) && Writable(cfg, src) && Lossless(cfg, src, Sys(Fresh(files), multiset{}), events)
    ensures var end := NetRun(cfg, Sys(Fresh(files), multiset{}), events);
      && (end.s.active != map[] || end.s.queue != [] ==> end.net != multiset{})
      && (end.net == multiset{} ==> multiset(end.s.queued) == multiset(FilesOf(end.s.log)))
  {
    var start := Sys(Fresh(files), multiset{});
    FreshIsHealthy(cfg, src, files);
    hide Lossless, NetRun, Writable, Known;
    LosslessRunsStayHealthy(cfg, src, start, events);
    var end := NetRun(cfg, start, events);
    assert end.s.queue != [] ==> |end.s.active| == MAX_CONCURRENT_FILES;
    if end.s.active != map[] {
      var n :| n in end.s.active;
      PendingHasRequest(end.s, end.net, n);
    } else {
      AllAccounted(end.s);
    }
  }

  lemma FreshIsHealthy(cfg: Config, src: map<string, PendingFile>, files: map<string, Bytes>)
    requires WellFormed(src)
    ensures Healthy(cfg, src, Sys(Fresh(files), multiset{}))
  {
    assert ActiveFiles(Fresh(files).active) == multiset{};
  }

  lemma AllAccounted(s: State)
    requires Conserved(s) && s.active == map[] && s.queue == []
    ensures multiset(s.queued) == multiset(FilesOf(s.log))
  {
    assert s.popped + s.queue == s.popped;
    assert ActiveFiles(s.active) == multiset{};
  }

  ghost predicate OnlyAnswers(events: seq<NetEvent>) {
    forall k | 0 <= k < |events| :: events[k].Answer?
  }

  /** The answers that changed anything. */
  ghost function Changes(cfg: Config, sys: Sys, events: seq<NetEvent>): nat {
    if events == [] then 0 else
    var before := NetRun(cfg, sys, events[..|events| - 1]);
    Changes(cfg, sys, events[..|events| - 1]) + if NetStep(cfg, before, events[|events| - 1]) == before then 0 else 1
  }

  lemma HealthyAnswer(cfg: Config, src: map<string, PendingFile>, sys: Sys, e: NetEvent)
    requires Healthy(cfg, src, sys) && e.Answer? && AsRequested(e) && Enabled(sys, e)
    ensures NetStep(cfg, sys, e) == sys || Measure(NetStep(cfg, sys, e)) < Measure(sys)
  {
    AnswerRetriesOrProgresses(cfg, src, sys, e);
  }

  /** However many answers come, no more than the measure of the start change anything. */
  lemma {:induction false} AnswersAreBounded(cfg: Config, src: map<string, PendingFile>, sys: Sys,
          events: seq<NetEvent>)
    requires Writable(cfg, src) && Healthy(cfg, src, sys) && Lossless(cfg, src, sys, events) && OnlyAnswers(events)
    ensures Changes(cfg, sys, events) + Measure(NetRun(cfg, sys, events)) <= Measure(sys)
  {
    hide Healthy, NetStep, Flowing, Measure, Static, Writable, Obliging;
    if events != [] {
      var rest, e := events[..|events| - 1], events[|events| - 1];
      AnswersAreBounded(cfg, src, sys, rest);
      LosslessRunsStayHealthy(cfg, src, sys, rest);
      HealthyAnswer(cfg, src, NetRun(cfg, sys, rest), e);
    }
  }
}
