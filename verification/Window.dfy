/**
  The exact shape of the request window in both protocols while nothing is lost and nothing
  stalls: it is kept exactly as long as no file starts with a hole, a chunk above its first
  window that was found locally, and then there are never more than twelve requests.
 */
module Window {
  import opened Basics
  import opened Crypto
  import opened Chunking
  import opened Reassembly
  import opened Download
  import opened TransferSafety
  import opened Network
  import opened Liveness
  import opened Turns

  /** Chunks below the window's edge that have not come in. */
  function Outstanding(t: Transfer): nat {
    if |t.received| <= t.next then t.next - |t.received| else 0
  }

  /**
    A request is out, once, exactly for the chunks below the edge that have not come in, and
    the edge is one window ahead of the number of chunks received.
   */
  ghost predicate ExactFile(net: multiset<Request>, t: Transfer) {
    && (forall i | i in t.received :: i < t.next)
    && t.next == Min(t.file.total, |t.received| + WINDOW)
    && (forall i: nat :: net[Request(Ref(t.file), i)] == if i < t.next && i !in t.received then 1 else 0)
  }

  ghost predicate Owned(active: map<string, Transfer>, ref: FileRef) {
    exists n :: n in active && Ref(active[n].file) == ref
  }

  ghost predicate Exact(active: map<string, Transfer>, net: multiset<Request>) {
    && (forall n | n in active :: ExactFile(net, active[n]))
    && (forall q | q in net :: Owned(active, q.ref))
    && |net| == SumOver(active, Outstanding)
  }

  /** Every chunk that is here lies below the edge. */
  ghost predicate HoleFree(t: Transfer) {
    forall i | i in t.received :: i < t.next
  }

  /** No file is started with a local chunk at or above its first edge. */
  ghost predicate HoleFreeStarts(before: map<string, Transfer>, after: map<string, Transfer>) {
    forall n | n in after && n !in before :: HoleFree(after[n])
  }

  ghost predicate AllEncrypted(src: map<string, PendingFile>) {
    forall n | n in src :: src[n].fileId.Some?
  }

  // ── Starting a file ─────────────────────────────────────────────────────

  ghost predicate Ascending(idx: seq<nat>) {
    forall i, j | 0 <= i < j < |idx| :: idx[i] < idx[j]
  }

  /** Asking for different chunks puts out exactly one request for each. */
  lemma {:induction false} AskedOnce(src: map<string, PendingFile>, n: string, idx: seq<nat>, q: Request)
    requires WellFormed(src) && n in src && Ascending(idx) && forall i | i in idx :: i < src[n].total
    ensures multiset(AskAll(Ref(src[n]), idx))[q] == if q.ref == Ref(src[n]) && q.index in idx then 1 else 0
  {
    hide WellFormed;
    if idx != [] {
      var rest, last := idx[..|idx| - 1], idx[|idx| - 1];
      assert idx == rest + [last] && last !in rest;
      assert last in idx && forall i | i in rest :: i in idx;
      AskedOnce(src, n, rest, q);
      AskIsPlain(src, n, last);
      assert AskAll(Ref(src[n]), idx) == AskAll(Ref(src[n]), rest) + [Request(Ref(src[n]), last)];
    }
  }

  /** The active files are those of the listing. */
  ghost predicate ActiveListed(src: map<string, PendingFile>, active: map<string, Transfer>) {
    WellFormed(src) && forall n | n in active :: n in src && active[n].file == src[n]
  }

  lemma KnownIsListed(cfg: Config, src: map<string, PendingFile>, s: State)
    requires WellFormed(src) && Known(cfg, src, s)
    ensures ActiveListed(src, s.active)
  {
    assert forall n | n in s.active :: FileKnown(cfg, src, s.inbound, s.active[n].file);
  }

  lemma OwnerIs(src: map<string, PendingFile>, active: map<string, Transfer>, n: string)
    requires ActiveListed(src, active) && n in src && Owned(active, Ref(src[n]))
    ensures n in active
  {
    var m :| m in active && Ref(active[m].file) == Ref(src[n]);
    RefsDiffer(src, m, n);
  }

  /** One file's window changes, or opens, and only requests for that file come or go. */
  lemma UpdateExact(src: map<string, PendingFile>, active: map<string, Transfer>, net: multiset<Request>,
                    n: string, t: Transfer, net': multiset<Request>)
    requires ActiveListed(src, active) && Exact(active, net) && n in src && t.file == src[n] && ExactFile(net', t)
    requires forall q: Request | q.ref != Ref(src[n]) :: net[q] == net'[q]
    requires |net'| + (if n in active then Outstanding(active[n]) else 0) == |net| + Outstanding(t)
    ensures Exact(active[n := t], net')
  {
    hide ExactFile, Owned, Outstanding, ActiveListed, SumOver;
    SumUpdate(active, Outstanding, n, t);
    OthersKeepWindow(src, active, net, n, net');
    OwnersRemain(src, active, net, n, t, net');
  }

  lemma OthersKeepWindow(src: map<string, PendingFile>, active: map<string, Transfer>, net: multiset<Request>,
          n: string, net': multiset<Request>)
    requires ActiveListed(src, active) && n in src && forall m | m in active :: ExactFile(net, active[m])
    requires forall q: Request | q.ref != Ref(src[n]) :: net[q] == net'[q]
    ensures forall m | m in active && m != n :: ExactFile(net', active[m])
  {
    forall m | m in active && m != n ensures ExactFile(net', active[m]) {
      RefsDiffer(src, m, n);
      SameRequests(net, net', active[m]);
    }
  }

  lemma OwnersRemain(src: map<string, PendingFile>, active: map<string, Transfer>, net: multiset<Request>, n: string,
          t: Transfer, net': multiset<Request>)
    requires ActiveListed(src, active) && n in src && t.file == src[n] && forall q | q in net :: Owned(active, q.ref)
    requires forall q: Request | q.ref != Ref(src[n]) :: net[q] == net'[q]
    ensures forall q | q in net' :: Owned(active[n := t], q.ref)
  {
    forall q | q in net' ensures Owned(active[n := t], q.ref) {
      if q.ref == Ref(src[n]) {
        assert active[n := t][n] == t;
      } else {
        StillOwned(src, active, n, t, q.ref);
      }
    }
  }

  lemma SameRequests(net: multiset<Request>, net': multiset<Request>, t: Transfer)
    requires ExactFile(net, t) && forall q: Request | q.ref == Ref(t.file) :: net[q] == net'[q]
    ensures ExactFile(net', t)
  {
  }

  lemma StillOwned(src: map<string, PendingFile>, active: map<string, Transfer>, n: string, t: Transfer, ref: FileRef)
    requires Owned(active, ref) && (n in active ==> active[n].file == t.file)
    ensures Owned(active[n := t], ref)
  {
    var m :| m in active && Ref(active[m].file) == ref;
    assert Ref(active[n := t][m].file) == ref;
  }

  lemma MissingLast(received: map<nat, Bytes>, n: nat)
    ensures Missing(received, n + 1) == Missing(received, n) + if n in received then [] else [n]
  {
  }

  /** The missing chunks below a bound are the first ones missing. */
  lemma {:induction false} MissingBelow(received: map<nat, Bytes>, n: nat, m: nat) returns (above: seq<nat>)
    requires m <= n
    ensures Missing(received, n) == Missing(received, m) + above && forall k | 0 <= k < |above| :: above[k] >= m
  {
    hide Missing;
    if m == n {
      above := [];
    } else {
      above := MissingBelow(received, n - 1, m);
      MissingLast(received, n - 1);
      above := above + if n - 1 in received then [] else [n - 1];
    }
  }

  lemma SplitAt(all: seq<nat>, below: seq<nat>, above: seq<nat>, k: nat)
    requires all == below + above && Ascending(all) && k < |all|
    requires forall x | x in below :: x < all[k]
    requires forall j | 0 <= j < |above| :: above[j] >= all[k]
    ensures |below| == k
  {
    assert all[k] !in below && forall j | 0 <= j < |below| :: all[j] == below[j] && below[j] in below;
    assert above != [] ==> above[0] == all[|below|];
  }

  /** Below its first edge a file lacks exactly its first window. */
  lemma WindowIsMissing(file: PendingFile, received: map<nat, Bytes>)
    ensures Begun(file, received).next <= file.total
    ensures Missing(received, Begun(file, received).next) == FirstWindow(Missing(received, file.total))
  {
    var needed, next := Missing(received, file.total), Begun(file, received).next;
    NextIsWithin(file, received);
    var above := MissingBelow(received, file.total, next);
    if |needed| > WINDOW { SplitAt(needed, Missing(received, next), above, WINDOW); }
  }

  /** The first requests of a file. */
  lemma FirstRequests(src: map<string, PendingFile>, active: map<string, Transfer>, net: multiset<Request>, n: string,
                      received: map<nat, Bytes>)
    requires ActiveListed(src, active) && n in src && n !in active && forall q | q in net :: Owned(active, q.ref)
    ensures var t := Begun(src[n], received);
      var net' := net + multiset(AskAll(Ref(src[n]), FirstWindow(Missing(received, src[n].total))));
      forall q: Request :: net'[q] == if q.ref == Ref(src[n])
                                      then (if q.index < t.next && q.index !in received then 1 else 0)
                                      else net[q]
  {
    var t, idx := Begun(src[n], received), FirstWindow(Missing(received, src[n].total));
    WindowIsMissing(src[n], received);
    WindowKnown(src, n, received);
    hide Begun, FirstWindow;
    assert forall i: nat :: i in idx <==> i < t.next && i !in received;
    forall q: Request ensures (net + multiset(AskAll(Ref(src[n]), idx)))[q]
                           == if q.ref == Ref(src[n]) then (if q.index in idx then 1 else 0) else net[q]
    {
      AskedOnce(src, n, idx, q);
      if q in net && q.ref == Ref(src[n]) { OwnerIs(src, active, n); }
    }
  }

  lemma FirstWindowExact(file: PendingFile, received: map<nat, Bytes>)
    requires HoleFree(Begun(file, received)) && Missing(received, file.total) != []
    ensures var t := Begun(file, received);
      t.next == Min(file.total, |received| + WINDOW) && Outstanding(t) == |FirstWindow(Missing(received, file.total))|
  {
    var t, needed := Begun(file, received), Missing(received, file.total);
    WindowIsMissing(file, received);
    CountingWithinRange(received, t.next);
    CountingWithinRange(received, file.total);
  }

  lemma BegunExactly(src: map<string, PendingFile>, active: map<string, Transfer>, net: multiset<Request>, n: string,
                     received: map<nat, Bytes>)
    requires ActiveListed(src, active) && Exact(active, net) && n in src && n !in active
    requires HoleFree(Begun(src[n], received)) && Missing(received, src[n].total) != []
    ensures var asked := AskAll(Ref(src[n]), FirstWindow(Missing(received, src[n].total)));
      Exact(active[n := Begun(src[n], received)], net + multiset(asked))
  {
    hide SumOver, AskAll, Begun, Missing, FirstWindow, ActiveListed, Owned, Outstanding;
    var t, asked := Begun(src[n], received), AskAll(Ref(src[n]), FirstWindow(Missing(received, src[n].total)));
    BegunIs(src[n], received);
    FirstWindowExact(src[n], received);
    FirstRequests(src, active, net, n, received);
    UpdateExact(src, active, net, n, t, net + multiset(asked));
  }

  lemma BegunIs(file: PendingFile, received: map<nat, Bytes>)
    ensures Begun(file, received).file == file && Begun(file, received).received == received
  {
  }

  lemma StartOneExact(cfg: Config, src: map<string, PendingFile>, s: State, env: Env, net: multiset<Request>)
    requires WellFormed(src) && Known(cfg, src, s) && Placed(s) && s.queue != [] && Exact(s.active, net)
    requires HoleFreeStarts(s.active, StartOne(cfg, s, env).state.active)
    ensures var o := StartOne(cfg, s, env); Exact(o.state.active, net + multiset(o.sent))
  {
    var file, o := s.queue[0], StartOne(cfg, s, env);
    assert FileKnown(cfg, src, s.inbound, file) && file.name !in s.active;
    hide StartOne, AskAll, Begun, Missing, Reusable, Exact, Known, HoleFree;
    StartOneCases(cfg, s, env);
    KnownIsListed(cfg, src, s);
    assert net + multiset([]) == net;
    if o.state.active != s.active || o.sent != [] {
      BegunExactly(src, s.active, net, file.name, Reusable(cfg.P, s.files, file));
    }
  }

  /** The files started after the first one are started in the rest of the turn. */
  lemma LaterStartsHoleFree(cfg: Config, s: State, env: Env)
    requires Placed(s) && s.queue != [] && |s.active| < MAX_CONCURRENT_FILES
    requires HoleFreeStarts(s.active, StartQueued(cfg, s, env).state.active)
    ensures var first := StartOne(cfg, s, env);
      && HoleFreeStarts(s.active, first.state.active)
      && HoleFreeStarts(first.state.active, StartQueued(cfg, first.state, env).state.active)
  {
    hide HoleFree, Begun, Reusable, Missing, AskAll;
    StartOneCases(cfg, s, env);
    StartOnePlaces(cfg, s, env);
    StartQueuedAdds(cfg, StartOne(cfg, s, env).state, env);
    StartQueuedUnfolds(cfg, s, env);
    hide StartOne, StartQueued;
  }

  lemma {:induction false} StartQueuedExact(cfg: Config, src: map<string, PendingFile>, s: State, env: Env,
          net: multiset<Request>)
    requires WellFormed(src) && Known(cfg, src, s) && Placed(s) && Exact(s.active, net)
    requires HoleFreeStarts(s.active, StartQueued(cfg, s, env).state.active)
    ensures var o := StartQueued(cfg, s, env); Exact(o.state.active, net + multiset(o.sent))
    decreases |s.queue|
  {
    hide Exact, Known, Placed, StartOne, HoleFreeStarts, WellFormed;
    if |s.active| >= MAX_CONCURRENT_FILES || s.queue == [] {
      assert net + multiset([]) == net;
    } else {
      var first := StartOne(cfg, s, env);
      LaterStartsHoleFree(cfg, s, env);
      StartOneKnown(cfg, src, s, env);
      StartOnePlaces(cfg, s, env);
      StartOneExact(cfg, src, s, env, net);
      StartQueuedExact(cfg, src, first.state, env, net + multiset(first.sent));
      AppendRequests(net, first.sent, StartQueued(cfg, first.state, env).sent);
    }
  }

  // ── Storing a chunk ─────────────────────────────────────────────────────

  lemma StoredExact(src: map<string, PendingFile>, net: multiset<Request>, t: Transfer, index: nat, chunk: Bytes)
    requires WellFormed(src) && FromListing(src, t.file) && ExactFile(net, t) && Request(Ref(t.file), index) in net
    ensures index < t.next && index !in t.received
    ensures ExactFile(net - multiset{Request(Ref(t.file), index)} + multiset(Advance(t, Ref(t.file))),
        Stored(t, index, chunk))
    ensures |net| + Outstanding(Stored(t, index, chunk)) + 1 == |net| + |Advance(t, Ref(t.file))| + Outstanding(t)
  {
    var q, asked, t1 := Request(Ref(t.file), index), Advance(t, Ref(t.file)), Stored(t, index, chunk);
    var net' := net - multiset{q} + multiset(asked);
    assert net[q] == 1;
    StoredCount(t, index, chunk);
    ReceivedBelow(t.(received := t1.received));
    AskIsPlain(src, t.file.name, t.next);
    forall i: nat ensures net'[Request(Ref(t.file), i)] == if i < t1.next && i !in t1.received then 1 else 0 {
      CountAfter(net, t, index, i);
    }
  }

  lemma StoredCount(t: Transfer, index: nat, chunk: Bytes)
    requires index !in t.received
    ensures |Stored(t, index, chunk).received| == |t.received| + 1
  {
    var t1 := Stored(t, index, chunk);
    assert t1.received.Keys == t.received.Keys + {index};
    assert |t1.received| == |t1.received.Keys| && |t.received| == |t.received.Keys|;
  }

  /** How often chunk `i` is asked for once the answer for `index` has been handled. */
  lemma CountAfter(net: multiset<Request>, t: Transfer, index: nat, i: nat)
    requires ExactFile(net, t) && index < t.next && index !in t.received
    requires Ask(Ref(t.file), t.next) == Request(Ref(t.file), t.next)
    ensures (net - multiset{Request(Ref(t.file), index)} + multiset(Advance(t, Ref(t.file))))[Request(Ref(t.file), i)]
         == if i < (if t.next < t.file.total then t.next + 1 else t.next) && i !in t.received
             && i != index then 1 else 0
  {
    assert net[Request(Ref(t.file), i)] == if i < t.next && i !in t.received then 1 else 0;
  }

  lemma ReceivedBelow(t: Transfer)
    requires forall i | i in t.received :: i < t.next
    ensures |t.received| <= t.next
  {
    SubsetSize(t.received.Keys, Below(t.next));
    assert |t.received| == |t.received.Keys|;
  }

  lemma StoringExact(src: map<string, PendingFile>, s: State, net: multiset<Request>, n: string, index: nat,
          chunk: Bytes)
    requires ActiveListed(src, s.active) && Exact(s.active, net)
    requires n in s.active && Request(Ref(s.active[n].file), index) in net
    ensures var after := AfterStoring(s, net, n, index, chunk); Exact(after.s.active, after.net)
  {
    var t := s.active[n];
    var q, asked := Request(Ref(t.file), index), Advance(t, Ref(t.file));
    StoredExact(src, net, t, index, chunk);
    AskIsPlain(src, n, t.next);
    forall p: Request ensures p.ref != Ref(t.file) ==> (net - multiset{q} + multiset(asked))[p] == net[p] {
    }
    hide ExactFile, Exact, Stored;
    UpdateExact(src, s.active, net, n, Stored(t, index, chunk), net - multiset{q} + multiset(asked));
  }

  // ── Completing a file ───────────────────────────────────────────────────

  /** A finished file has no request out. */
  lemma FinishedHasNone(net: multiset<Request>, t: Transfer)
    requires ExactFile(net, t) && Missing(t.received, t.file.total) == []
    ensures Outstanding(t) == 0 && forall i: nat :: net[Request(Ref(t.file), i)] == 0
  {
    NoneMissing(t.received, t.file.total);
    CountingWithinRange(t.received, t.file.total);
  }

  lemma RetiredExact(src: map<string, PendingFile>, active: map<string, Transfer>, net: multiset<Request>, n: string)
    requires ActiveListed(src, active) && Exact(active, net)
    requires n in active && Missing(active[n].received, active[n].file.total) == []
    ensures Exact(active - {n}, net)
  {
    hide ExactFile, Owned, Outstanding, Missing, SumOver;
    FinishedHasNone(net, active[n]);
    SumWithout(active, Outstanding, n);
    forall q | q in net ensures Owned(active - {n}, q.ref) {
      assert q == Request(q.ref, q.index);
      OtherOwner(active, n, q.ref);
    }
  }

  lemma OtherOwner(active: map<string, Transfer>, n: string, ref: FileRef)
    requires Owned(active, ref) && n in active && Ref(active[n].file) != ref
    ensures Owned(active - {n}, ref)
  {
    var m :| m in active && Ref(active[m].file) == ref;
    assert Ref((active - {n})[m].file) == ref;
  }

  lemma CompleteExact(cfg: Config, src: map<string, PendingFile>, s: State, net: multiset<Request>, n: string, env: Env)
    requires WellFormed(src) && Known(cfg, src, s) && Placed(s) && Exact(s.active, net) && n in s.active
    requires HoleFreeStarts(s.active, Complete(cfg, s, n, env).state.active)
    ensures var o := Complete(cfg, s, n, env); Exact(o.state.active, net + multiset(o.sent))
  {
    hide Complete, Exact, Known, Placed, WellFormed, HoleFree, Missing, Retired;
    var files := CompleteCases(cfg, s, n, env);
    var s1 := Retired(s, n, files);
    RetiredPlaced(cfg, src, s, n, files);
    if Complete(cfg, s, n, env) == Out(s.(files := files), []) {
      assert net + multiset([]) == net;
    } else {
      KnownIsListed(cfg, src, s);
      RetiredExact(src, s.active, net, n);
      StartQueuedAdds(cfg, s1, env);
      hide StartQueued, InQueue;
      StartQueuedExact(cfg, src, s1, env, net);
    }
  }

  // ── Every undisturbed run ───────────────────────────────────────────────

  lemma AcceptExact(cfg: Config, src: map<string, PendingFile>, s: State, net: multiset<Request>, n: string,
                    index: nat, chunk: Bytes, digest: Bytes32, env: Env)
    requires WellFormed(src) && Known(cfg, src, s) && Placed(s) && Exact(s.active, net)
    requires n in s.active && Request(Ref(s.active[n].file), index) in net
    requires Ask(Ref(s.active[n].file), index) == Request(Ref(s.active[n].file), index)
    requires HoleFreeStarts(s.active, Accept(cfg, s, n, Ref(s.active[n].file), index, chunk, digest, env).state.active)
    ensures var o := Accept(cfg, s, n, Ref(s.active[n].file), index, chunk, digest, env);
      Exact(o.state.active, net - multiset{Request(Ref(s.active[n].file), index)} + multiset(o.sent))
  {
    hide Known, Exact, Complete, Placed, Missing, WellFormed, HoleFree, Accept, Advance;
    var t := s.active[n];
    var q, after, asked := Request(Ref(t.file), index), AfterStoring(s, net, n, index, chunk), Advance(t, Ref(t.file));
    AcceptCases(cfg, s, net, n, index, chunk, digest, env);
    ActiveIsKnown(cfg, src, s, n);
    if index < |t.file.hashes| && t.file.hashes[index] == digest {
      AfterStoringKnown(cfg, src, s, net, n, index, chunk);
      KnownIsListed(cfg, src, s);
      StoringExact(src, s, net, n, index, chunk);
      assert after.s.active.Keys == s.active.Keys && after.net == net - multiset{q} + multiset(asked);
      var done := Complete(cfg, after.s, n, env);
      if Accept(cfg, s, n, Ref(t.file), index, chunk, digest, env) != Out(after.s, asked) {
        CompleteExact(cfg, src, after.s, after.net, n, env);
        AppendRequests(net - multiset{q}, asked, done.sent);
      }
    } else {
      RepeatedRequest(net, q);
    }
  }

  lemma RepeatedRequest(net: multiset<Request>, q: Request)
    requires q in net
    ensures net - multiset{q} + multiset([q]) == net
  {
  }

  lemma AnswerExact(cfg: Config, src: map<string, PendingFile>, s: State, net: multiset<Request>, q: Request,
          data: Bytes, env: Env)
    requires WellFormed(src) && Known(cfg, src, s) && Placed(s) && Exact(s.active, net)
    requires q in net && KnownRequest(src, q)
    requires HoleFreeStarts(s.active, OnResponse(cfg, s, q.ref, q.index, data, env).state.active)
    ensures var o := OnResponse(cfg, s, q.ref, q.index, data, env);
      Exact(o.state.active, net - multiset{q} + multiset(o.sent))
  {
    var n :| n in src && Ref(src[n]) == q.ref;
    var a := OpenResponse(cfg, s, q.ref, q.index, data);
    AnswerResolves(cfg, src, s, n, q.index, data);
    RepeatsItself(src, q);
    KnownIsListed(cfg, src, s);
    OwnerIs(src, s.active, n);
    hide OpenResponse, Accept, Known, Exact, KnownRequest, Placed, WellFormed, OnResponse, HoleFreeStarts;
    ResponseCases(cfg, s, q, data, env);
    if a.Arrived? {
      AcceptExact(cfg, src, s, net, n, q.index, a.chunk, a.digest, env);
    } else {
      RepeatedRequest(net, q);
    }
  }

  lemma QueueExact(cfg: Config, src: map<string, PendingFile>, s: State, net: multiset<Request>,
          files: seq<PendingFile>, env: Env)
    requires WellFormed(src) && Known(cfg, src, s) && Placed(s) && Exact(s.active, net)
    requires forall k | 0 <= k < |files| :: FileKnown(cfg, src, s.inbound, files[k])
    requires HoleFreeStarts(s.active, StartQueued(cfg, Enqueue(cfg, s, files), env).state.active)
    ensures var o := StartQueued(cfg, Enqueue(cfg, s, files), env); Exact(o.state.active, net + multiset(o.sent))
  {
    EnqueueKnown(cfg, src, s, files);
    EnqueueKeeps(cfg, s, files);
    EnqueuePlaces(cfg, s, files);
    StartQueuedExact(cfg, src, Enqueue(cfg, s, files), env, net);
  }

  lemma PlainManifestExact(cfg: Config, src: map<string, PendingFile>, s: State, net: multiset<Request>,
          entries: seq<FileEntry>, env: Env)
    requires WellFormed(src) && Known(cfg, src, s) && Placed(s) && Exact(s.active, net)
    requires forall k | 0 <= k < |entries| :: FromListing(src, Plain(entries[k]))
    requires HoleFreeStarts(s.active, OnManifest(cfg, s, entries, env).state.active)
    ensures var o := OnManifest(cfg, s, entries, env); Exact(o.state.active, net + multiset(o.sent))
  {
    hide Exact, Known, Placed, HoleFreeStarts, Enqueue, StartQueued, PlainFiles, WellFormed;
    if entries == [] {
      assert net + multiset([]) == net;
    } else {
      ListedKnown(cfg, src, s, entries);
      QueueExact(cfg, src, s, net, PlainFiles(entries), env);
    }
  }

  lemma SealedManifestExact(cfg: Config, src: map<string, PendingFile>, s: State, net: multiset<Request>,
          entries: seq<EncryptedEntry>, env: Env)
    requires WellFormed(src) && Known(cfg, src, s) && Placed(s) && Exact(s.active, net)
    requires Static(src, ListedSealed(entries, env))
    requires HoleFreeStarts(s.active, OnEncryptedManifest(cfg, s, entries, env).state.active)
    ensures var o := OnEncryptedManifest(cfg, s, entries, env); Exact(o.state.active, net + multiset(o.sent))
  {
    hide Exact, Known, Placed, HoleFreeStarts, Enqueue, StartQueued, SealedFiles, WellFormed, InboundIds;
    if cfg.key.None? || entries == [] {
      assert net + multiset([]) == net;
    } else {
      var s1 := s.(inbound := InboundIds(entries));
      NewIdsKeepKnown(cfg, src, s, entries);
      SamePlaces(s, s1);
      QueueExact(cfg, src, s1, net, SealedFiles(entries), env);
    }
  }

  lemma ListedKnown(cfg: Config, src: map<string, PendingFile>, s: State, entries: seq<FileEntry>)
    requires forall k | 0 <= k < |entries| :: FromListing(src, Plain(entries[k]))
    ensures forall k | 0 <= k < |entries| :: FileKnown(cfg, src, s.inbound, PlainFiles(entries)[k])
  {
  }


  /** No request is lost and no file stalls; bad answers, new manifests and changes on disk may happen. */
  ghost predicate Undisturbed(cfg: Config, src: map<string, PendingFile>, sys: Sys, events: seq<NetEvent>) {
    events == [] || (
      var rest, e := events[..|events| - 1], events[|events| - 1];
      && Undisturbed(cfg, src, sys, rest)
      && Static(src, e) && AsRequested(e) && Enabled(NetRun(cfg, sys, rest), e) && !e.Lose? && !e.Silence?)
  }

  lemma StepExact(cfg: Config, src: map<string, PendingFile>, sys: Sys, e: NetEvent)
    requires Sound(cfg, src, sys) && Exact(sys.s.active, sys.net)
    requires Static(src, e) && AsRequested(e) && Enabled(sys, e) && !e.Lose? && !e.Silence?
    requires HoleFreeStarts(sys.s.active, NetStep(cfg, sys, e).s.active)
    ensures Exact(NetStep(cfg, sys, e).s.active, NetStep(cfg, sys, e).net)
  {
    hide Exact, Known, Placed, OnResponse, NetStep, KnownRequest, WellFormed, HoleFreeStarts;
    match e
    case Answer(req, _, _, data, env) =>
      assert req in sys.net;
      NetStepAnswer(cfg, sys, e);
      AnswerExact(cfg, src, sys.s, sys.net, req, data, env);
    case FolderChange(files) =>
      NetStepOther(cfg, sys, e);
      assert sys.net + multiset([]) == sys.net;
    case Listed(entries, env) =>
      NetStepOther(cfg, sys, e);
      PlainManifestExact(cfg, src, sys.s, sys.net, entries, env);
    case ListedSealed(entries, env) =>
      NetStepOther(cfg, sys, e);
      SealedManifestExact(cfg, src, sys.s, sys.net, entries, env);
  }

  /**
    In both protocols, an event keeps the windows exact exactly when no head of the queue that
    gets its turn has a chunk here already at or above its first edge.
   */
  lemma StepExactly(cfg: Config, src: map<string, PendingFile>, sys: Sys, e: NetEvent)
    requires Sound(cfg, src, sys) && Exact(sys.s.active, sys.net)
    requires Static(src, e) && AsRequested(e) && Enabled(sys, e) && !e.Lose? && !e.Silence?
    ensures Exact(NetStep(cfg, sys, e).s.active, NetStep(cfg, sys, e).net) <==> TurnOk(cfg, sys.s, e, HoleFree)
  {
    var after := NetStep(cfg, sys, e);
    TurnExactly(cfg, src, sys, e, HoleFree);
    hide NetStep, Sound, Static, Owned, TurnOk;
    assert HoleFreeStarts(sys.s.active, after.s.active) <==> StartsOk(sys.s.active, after.s.active, HoleFree);
    if Exact(after.s.active, after.net) {
      assert forall n | n in after.s.active :: ExactFile(after.net, after.s.active[n]);
    } else if HoleFreeStarts(sys.s.active, after.s.active) {
      StepExact(cfg, src, sys, e);
    }
  }

  /** In the whole run. */
  ghost predicate HoleFreeRun(cfg: Config, sys: Sys, events: seq<NetEvent>) {
    events == [] || (
      var rest := events[..|events| - 1];
      && HoleFreeRun(cfg, sys, rest)
      && HoleFreeStarts(NetRun(cfg, sys, rest).s.active, NetRun(cfg, sys, events).s.active))
  }

  lemma {:induction false} UndisturbedRunsStayExact(cfg: Config, src: map<string, PendingFile>,
          files: map<string, Bytes>, events: seq<NetEvent>)
    requires WellFormed(src) && HoleFreeRun(cfg, Sys(Fresh(files), multiset{}), events)
    requires Undisturbed(cfg, src, Sys(Fresh(files), multiset{}), events)
    ensures var end := NetRun(cfg, Sys(Fresh(files), multiset{}), events);
      Sound(cfg, src, end) && Exact(end.s.active, end.net)
  {
    var start := Sys(Fresh(files), multiset{});
    if events == [] {
    } else {
      hide NetStep, Sound, Exact, HoleFreeStarts, Static;
      var rest, e := events[..|events| - 1], events[|events| - 1];
      UndisturbedRunsStayExact(cfg, src, files, rest);
      StepExact(cfg, src, NetRun(cfg, start, rest), e);
      NetStepSound(cfg, src, NetRun(cfg, start, rest), e);
    }
  }

  lemma WindowIsFull(net: multiset<Request>, t: Transfer)
    requires ExactFile(net, t) && t.next <= t.file.total
    ensures Outstanding(t) == Min(WINDOW, |Missing(t.received, t.file.total)|)
  {
    CountingWithinRange(t.received, t.file.total);
  }

  /**
    At every moment of such a run, in either protocol, exactly the chunks between the received
    ones and the edge are asked for, once each: min(WINDOW, chunks still missing) per active
    file, none for any other file, and so never more than MAX_CONCURRENT_FILES * WINDOW = 12.
   */
  lemma ExactWindow(cfg: Config, src: map<string, PendingFile>, files: map<string, Bytes>, events: seq<NetEvent>)
    requires WellFormed(src) && HoleFreeRun(cfg, Sys(Fresh(files), multiset{}), events)
    requires Undisturbed(cfg, src, Sys(Fresh(files), multiset{}), events)
    ensures var end := NetRun(cfg, Sys(Fresh(files), multiset{}), events);
      && (forall n | n in end.s.active :: ExactFile(end.net, end.s.active[n])
            && Outstanding(end.s.active[n]) == Min(WINDOW, |Missing(end.s.active[n].received,
                end.s.active[n].file.total)|))
      && (forall q | q in end.net :: Owned(end.s.active, q.ref))
      && |end.net| <= MAX_CONCURRENT_FILES * WINDOW
  {
    UndisturbedRunsStayExact(cfg, src, files, events);
    var end := NetRun(cfg, Sys(Fresh(files), multiset{}), events);
    TwelveAtMost(cfg, src, end);
  }

  lemma TwelveAtMost(cfg: Config, src: map<string, PendingFile>, sys: Sys)
    requires Sound(cfg, src, sys) && Exact(sys.s.active, sys.net)
    ensures forall n | n in sys.s.active ::
      Outstanding(sys.s.active[n]) == Min(WINDOW, |Missing(sys.s.active[n].received, sys.s.active[n].file.total)|)
    ensures |sys.net| <= WINDOW * |sys.s.active| <= MAX_CONCURRENT_FILES * WINDOW
  {
    hide Outstanding, ExactFile, Missing, FileKnown, IdsKnown, WellFormed, KnownRequest, Owned;
    var active := sys.s.active;
    forall n | n in active
      ensures Outstanding(active[n]) == Min(WINDOW, |Missing(active[n].received, active[n].file.total)|)
    {
      assert TransferKnown(cfg, src, sys.s.inbound, active[n]);
      WindowIsFull(sys.net, active[n]);
    }
    SumWithinWindow(active, Outstanding);
    assert |active| == |active.Keys|;
  }

  // ── Where holes come from ───────────────────────────────────────────────

  /** A transfer as the scheduler starts it, from what some folder holds. */
  ghost predicate JustBegun(P: Primitives, t: Transfer) {
    exists files :: t == Begun(t.file, Reusable(P, files, t.file))
  }

  ghost predicate StartsFresh(P: Primitives, before: map<string, Transfer>, after: map<string, Transfer>) {
    forall n | n in after && n !in before :: JustBegun(P, after[n])
  }

  lemma {:induction false} StartQueuedFresh(cfg: Config, s: State, env: Env)
    requires Placed(s)
    ensures StartsFresh(cfg.P, s.active, StartQueued(cfg, s, env).state.active)
    decreases |s.queue|
  {
    if |s.active| < MAX_CONCURRENT_FILES && s.queue != [] {
      var first, file := StartOne(cfg, s, env).state, s.queue[0];
      StartOneCases(cfg, s, env);
      StartOnePlaces(cfg, s, env);
      StartQueuedUnfolds(cfg, s, env);
      StartQueuedFresh(cfg, first, env);
      StartQueuedAdds(cfg, first, env);
      BegunIs(file, Reusable(cfg.P, s.files, file));
      hide StartOne, StartQueued, Reusable, Begun, Placed;
      forall n | n in StartQueued(cfg, first, env).state.active && n !in s.active
        ensures JustBegun(cfg.P, StartQueued(cfg, first, env).state.active[n])
      {
        if n in first.active { assert first.active[n] == Begun(file, Reusable(cfg.P, s.files, file)); }
      }
    }
  }

  lemma CompleteFresh(cfg: Config, s: State, n: string, env: Env)
    requires Placed(s) && n in s.active
    ensures StartsFresh(cfg.P, s.active, Complete(cfg, s, n, env).state.active)
  {
    var files := CompleteCases(cfg, s, n, env);
    var s1 := Retired(s, n, files);
    SubsetSize(s1.active.Keys, s.active.Keys);
    assert |s1.active| == |s1.active.Keys| && |s.active| == |s.active.Keys|;
    hide Complete, JustBegun, StartQueued;
    StartQueuedFresh(cfg, s1, env);
  }

  lemma AcceptFresh(cfg: Config, s: State, n: string, via: FileRef, index: nat, chunk: Bytes, digest: Bytes32, env: Env)
    requires Placed(s) && n in s.active
    ensures StartsFresh(cfg.P, s.active, Accept(cfg, s, n, via, index, chunk, digest, env).state.active)
  {
    hide Complete, JustBegun, Advance, CountedComplete;
    var s1 := s.(active := s.active[n := Stored(s.active[n], index, chunk)]);
    assert s1.active.Keys == s.active.Keys;
    assert |s1.active| == |s1.active.Keys| && |s.active| == |s.active.Keys|;
    CompleteFresh(cfg, s1, n, env);
  }

  lemma StepStartsFresh(cfg: Config, s: State, e: NetEvent)
    requires Placed(s) && !e.Lose?
    ensures StartsFresh(cfg.P, s.active, Step(cfg, s, ToEvent(e)).state.active)
  {
    hide JustBegun, StartQueued, OpenResponse, OnTick, Enqueue, InboundIds, Complete, Accept;
    match e
    case Answer(_, ref, index, data, env) =>
      var a := OpenResponse(cfg, s, ref, index, data);
      if a.Arrived? { AcceptFresh(cfg, s, a.name, ref, Ask(ref, index).index, a.chunk, a.digest, env); }
    case Silence(silent) => TickKeepsLog(s, silent);
    case FolderChange(_) =>
    case Listed(entries, env) =>
      EnqueuePlaces(cfg, s, PlainFiles(entries));
      EnqueueKeeps(cfg, s, PlainFiles(entries));
      StartQueuedFresh(cfg, Enqueue(cfg, s, PlainFiles(entries)), env);
    case ListedSealed(entries, env) =>
      var s1 := s.(inbound := InboundIds(entries));
      EnqueuePlaces(cfg, s1, SealedFiles(entries));
      EnqueueKeeps(cfg, s1, SealedFiles(entries));
      StartQueuedFresh(cfg, Enqueue(cfg, s1, SealedFiles(entries)), env);
  }

  /** A file that shares no chunk with the folder has no hole; an encrypted one never has. */
  lemma EncryptedHasNoHole(P: Primitives, t: Transfer)
    requires JustBegun(P, t) && t.file.fileId.Some?
    ensures HoleFree(t)
  {
  }

  /** In the encrypted protocol the condition always holds. */
  lemma {:induction false} EncryptedRunsAreHoleFree(cfg: Config, src: map<string, PendingFile>,
                                                    files: map<string, Bytes>, events: seq<NetEvent>)
    requires WellFormed(src) && AllEncrypted(src) && Undisturbed(cfg, src, Sys(Fresh(files), multiset{}), events)
    ensures Sound(cfg, src, NetRun(cfg, Sys(Fresh(files), multiset{}), events))
    ensures HoleFreeRun(cfg, Sys(Fresh(files), multiset{}), events)
  {
    var start := Sys(Fresh(files), multiset{});
    if events == [] {
    } else {
      var rest, e := events[..|events| - 1], events[|events| - 1];
      var before := NetRun(cfg, start, rest);
      hide NetStep, Known, KnownRequest, Static, Placed, HoleFreeStarts;
      EncryptedRunsAreHoleFree(cfg, src, files, rest);
      NetStepSound(cfg, src, before, e);
      EncryptedStepHoleFree(cfg, src, before, e);
    }
  }

  lemma EncryptedStepHoleFree(cfg: Config, src: map<string, PendingFile>, sys: Sys, e: NetEvent)
    requires AllEncrypted(src) && Sound(cfg, src, sys) && Sound(cfg, src, NetStep(cfg, sys, e)) && !e.Lose?
    ensures HoleFreeStarts(sys.s.active, NetStep(cfg, sys, e).s.active)
  {
    hide Step, HoleFree, JustBegun, WellFormed, KnownRequest;
    StepStartsFresh(cfg, sys.s, e);
    var after := NetStep(cfg, sys, e).s;
    forall n | n in after.active && n !in sys.s.active ensures HoleFree(after.active[n]) {
      assert TransferKnown(cfg, src, after.inbound, after.active[n]);
      EncryptedHasNoHole(cfg.P, after.active[n]);
    }
  }
}
