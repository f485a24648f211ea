/**
  The shape of the windows when files may start with chunks that were found locally: what an
  undisturbed run keeps in both protocols, as long as no file is brought back.
 */
module Steadiness {
  import opened Basics
  import opened Reassembly
  import opened Download
  import opened TransferSafety
  import opened Network
  import opened Liveness
  import opened Window
  import opened Recovery
  import opened History

  /** Below the edge every chunk that is not here is asked for once, above it none; an open window is full. */
  ghost predicate Steady(net: multiset<Request>, t: Transfer) {
    && t.next <= t.file.total && (forall i | i in t.received :: i < t.file.total)
    && (forall i: nat :: net[Request(Ref(t.file), i)] <= 1)
    && (forall i: nat :: t.next <= i ==> net[Request(Ref(t.file), i)] == 0)
    && (forall i: nat :: i < t.next && i !in t.received ==> net[Request(Ref(t.file), i)] == 1)
    && (t.next < t.file.total ==> CountRef(net, Ref(t.file)) == WINDOW)
  }

  ghost predicate AllSteady(active: map<string, Transfer>, net: multiset<Request>) {
    forall n | n in active :: Steady(net, active[n])
  }

  lemma {:induction false} CountSame(net: multiset<Request>, net': multiset<Request>, ref: FileRef)
    requires forall q: Request | q.ref == ref :: net[q] == net'[q]
    ensures CountRef(net, ref) == CountRef(net', ref)
    decreases |net|
  {
    UnaskedCounts(net, ref);
    UnaskedCounts(net', ref);
    if !Unasked(net, ref) {
      var q :| q in net && q.ref == ref;
      assert net'[q] > 0;
      CountWithout(net, ref, q);
      CountWithout(net', ref, q);
      CountSame(net - multiset{q}, net' - multiset{q}, ref);
    } else {
      assert Unasked(net', ref) by {
        forall q | q in net' ensures q.ref != ref {
          assert q.ref == ref ==> net[q] == net'[q];
        }
      }
    }
  }

  /** Requests for other files do not matter. */
  lemma SteadyElsewhere(net: multiset<Request>, net': multiset<Request>, t: Transfer)
    requires Steady(net, t) && forall q: Request | q.ref == Ref(t.file) :: net[q] == net'[q]
    ensures Steady(net', t)
  {
    CountSame(net, net', Ref(t.file));
    hide CountRef;
    assert forall i: nat :: net'[Request(Ref(t.file), i)] == net[Request(Ref(t.file), i)];
  }

  lemma OthersSteady(src: map<string, PendingFile>, active: map<string, Transfer>, net: multiset<Request>, n: string,
                     net': multiset<Request>)
    requires ActiveListed(src, active) && n in src
    requires forall m | m in active && m != n :: Steady(net, active[m])
    requires forall q: Request | q.ref != Ref(src[n]) :: net[q] == net'[q]
    ensures forall m | m in active && m != n :: Steady(net', active[m])
  {
    hide Steady;
    forall m | m in active && m != n ensures Steady(net', active[m]) {
      RefsDiffer(src, m, n);
      SteadyElsewhere(net, net', active[m]);
    }
  }

  // ── Starting ────────────────────────────────────────────────────────────

  /** A file for which nothing was out starts with a steady window. */
  lemma BegunSteady(src: map<string, PendingFile>, net: multiset<Request>, n: string, received: map<nat, Bytes>)
    requires WellFormed(src) && n in src && Unasked(net, Ref(src[n])) && Missing(received, src[n].total) != []
    requires forall i | i in received :: i < src[n].total
    ensures Steady(net + multiset(AskAll(Ref(src[n]), FirstWindow(Missing(received, src[n].total)))),
        Begun(src[n], received))
  {
    var t, idx := Begun(src[n], received), FirstWindow(Missing(received, src[n].total));
    var net' := net + multiset(AskAll(Ref(src[n]), idx));
    WindowIsMissing(src[n], received);
    WindowKnown(src, n, received);
    WindowSize(src[n], received);
    hide Begun, FirstWindow, CountRef;
    assert forall i: nat :: i in idx <==> i < t.next && i !in received;
    AskedExactly(src, net, n, idx);
    IsSteady(net', t, idx);
  }

  lemma IsSteady(net: multiset<Request>, t: Transfer, idx: seq<nat>)
    requires t.next <= t.file.total && forall i | i in t.received :: i < t.file.total
    requires forall i: nat :: net[Request(Ref(t.file), i)] == if i in idx then 1 else 0
    requires forall i: nat :: i in idx <==> i < t.next && i !in t.received
    requires t.next < t.file.total ==> CountRef(net, Ref(t.file)) == WINDOW
    ensures Steady(net, t)
  {
    hide CountRef;
  }

  /** One request for each chunk, where there was none. */
  lemma AskedExactly(src: map<string, PendingFile>, net: multiset<Request>, n: string, idx: seq<nat>)
    requires WellFormed(src) && n in src && Unasked(net, Ref(src[n])) && Ascending(idx)
    requires forall i | i in idx :: i < src[n].total
    ensures var net' := net + multiset(AskAll(Ref(src[n]), idx));
      && CountRef(net', Ref(src[n])) == |idx|
      && forall i: nat :: net'[Request(Ref(src[n]), i)] == if i in idx then 1 else 0
  {
    hide AskAll, CountRef, CountSent, WellFormed;
    var ref, asked := Ref(src[n]), AskAll(Ref(src[n]), idx);
    UnaskedCounts(net, ref);
    CountPlus(net, asked, ref);
    CountAsked(ref, idx, ref);
    forall i: nat ensures (net + multiset(asked))[Request(ref, i)] == if i in idx then 1 else 0 {
      AskedOnce(src, n, idx, Request(ref, i));
      assert Request(ref, i) !in net;
    }
  }

  lemma WindowSize(file: PendingFile, received: map<nat, Bytes>)
    ensures var t := Begun(file, received);
      && t.file == file && t.received == received
      && (t.next < file.total ==> |FirstWindow(Missing(received, file.total))| == WINDOW)
  {
  }

  lemma StartOneSteady(cfg: Config, src: map<string, PendingFile>, s: State, env: Env, net: multiset<Request>)
    requires WellFormed(src) && Known(cfg, src, s) && Placed(s) && s.queue != [] && AllSteady(s.active, net)
    requires WaitingQuiet(Sys(s, net))
    ensures var o := StartOne(cfg, s, env);
      AllSteady(o.state.active, net + multiset(o.sent)) && WaitingQuiet(Sys(o.state, net + multiset(o.sent)))
  {
    var file, o := s.queue[0], StartOne(cfg, s, env);
    var received := Reusable(cfg.P, s.files, file);
    hide StartOne, AskAll, Begun, Missing, Reusable, Steady, FirstWindow, Unasked, WellFormed, Known;
    assert Unasked(net, Ref(file));
    WaitingIsListed(cfg, src, s, 0);
    KnownIsListed(cfg, src, s);
    StartOneCases(cfg, s, env);
    RestStaysQuiet(cfg, src, s, net, o, FirstWindow(Missing(received, file.total)));
    hide WaitingQuiet, Placed, AllSteady, ActiveListed;
    assert net + multiset([]) == net;
    if o.state.active != s.active || o.sent != [] {
      BegunWithin(cfg, src, s, file);
      OneMoreSteady(src, s.active, net, file.name, received);
    }
  }

  lemma OneMoreSteady(src: map<string, PendingFile>, active: map<string, Transfer>, net: multiset<Request>, n: string,
                      received: map<nat, Bytes>)
    requires ActiveListed(src, active) && AllSteady(active, net) && n in src && Unasked(net, Ref(src[n]))
    requires Missing(received, src[n].total) != [] && forall i | i in received :: i < src[n].total
    ensures AllSteady(active[n := Begun(src[n], received)],
                      net + multiset(AskAll(Ref(src[n]), FirstWindow(Missing(received, src[n].total)))))
  {
    hide AskAll, Begun, Missing, Steady, FirstWindow, Unasked;
    var asked := AskAll(Ref(src[n]), FirstWindow(Missing(received, src[n].total)));
    BegunSteady(src, net, n, received);
    AskedElsewhere(net, Ref(src[n]), FirstWindow(Missing(received, src[n].total)));
    OthersSteady(src, active, net, n, net + multiset(asked));
  }

  lemma BegunWithin(cfg: Config, src: map<string, PendingFile>, s: State, file: PendingFile)
    requires WellFormed(src) && FromListing(src, file)
    ensures forall i | i in Reusable(cfg.P, s.files, file) :: i < file.total
  {
    ReusableIsOk(cfg, s.files, file);
  }

  lemma AskedElsewhere(net: multiset<Request>, ref: FileRef, idx: seq<nat>)
    ensures forall q: Request | q.ref != ref :: net[q] == (net + multiset(AskAll(ref, idx)))[q]
  {
    forall q: Request | q.ref != ref ensures q !in AskAll(ref, idx) {
    }
  }

  /** The files behind the first one are still not asked for. */
  lemma RestStaysQuiet(cfg: Config, src: map<string, PendingFile>, s: State, net: multiset<Request>, o: Out,
                       idx: seq<nat>)
    requires WellFormed(src) && Known(cfg, src, s) && Placed(s) && s.queue != [] && WaitingQuiet(Sys(s, net))
    requires o.state.queue == s.queue[1..]
    requires o.sent == [] || o.sent == AskAll(Ref(s.queue[0]), idx)
    ensures WaitingQuiet(Sys(o.state, net + multiset(o.sent)))
  {
    WaitingIsListed(cfg, src, s, 0);
    forall k | 0 <= k < |o.state.queue| ensures Unasked(net + multiset(o.sent), Ref(o.state.queue[k])) {
      assert o.state.queue[k] == s.queue[k + 1] && s.queue[0].name != s.queue[k + 1].name;
      WaitingIsListed(cfg, src, s, k + 1);
      RefsDiffer(src, s.queue[0].name, s.queue[k + 1].name);
      assert Unasked(net, Ref(s.queue[k + 1]));
      forall q | q in net + multiset(o.sent) ensures q.ref != Ref(o.state.queue[k]) {
        assert q in net || q in o.sent;
      }
    }
  }

  lemma {:induction false} StartQueuedSteady(cfg: Config, src: map<string, PendingFile>, s: State, env: Env,
                                             net: multiset<Request>)
    requires WellFormed(src) && Known(cfg, src, s) && Placed(s) && AllSteady(s.active, net) && WaitingQuiet(Sys(s, net))
    ensures var o := StartQueued(cfg, s, env); AllSteady(o.state.active, net + multiset(o.sent))
    decreases |s.queue|
  {
    hide Known, Placed, StartOne, WellFormed, AllSteady, WaitingQuiet;
    if |s.active| >= MAX_CONCURRENT_FILES || s.queue == [] {
      assert net + multiset([]) == net;
    } else {
      var first := StartOne(cfg, s, env);
      StartOneKnown(cfg, src, s, env);
      StartOnePlaces(cfg, s, env);
      StartOneSteady(cfg, src, s, env, net);
      StartQueuedSteady(cfg, src, first.state, env, net + multiset(first.sent));
      AppendRequests(net, first.sent, StartQueued(cfg, first.state, env).sent);
    }
  }

  // ── Storing and completing ──────────────────────────────────────────────

  lemma StoredSteady(net: multiset<Request>, t: Transfer, index: nat, chunk: Bytes)
    requires Steady(net, t) && Request(Ref(t.file), index) in net && Ask(Ref(t.file), t.next)
        == Request(Ref(t.file), t.next)
    ensures Steady(net - multiset{Request(Ref(t.file), index)} + multiset(Advance(t, Ref(t.file))),
        Stored(t, index, chunk))
  {
    var q, asked, t1 := Request(Ref(t.file), index), Advance(t, Ref(t.file)), Stored(t, index, chunk);
    var net' := net - multiset{q} + multiset(asked);
    hide CountRef, CountSent, Advance;
    WindowKept(net, t, index);
    forall i: nat ensures net'[Request(Ref(t.file), i)] <= 1
      && (t1.next <= i ==> net'[Request(Ref(t.file), i)] == 0)
      && (i < t1.next && i !in t1.received ==> net'[Request(Ref(t.file), i)] == 1)
    {
      AskedNow(net, t, index, i);
    }
  }

  lemma WindowKept(net: multiset<Request>, t: Transfer, index: nat)
    requires Request(Ref(t.file), index) in net && Ask(Ref(t.file), t.next) == Request(Ref(t.file), t.next)
    ensures t.next < t.file.total ==>
              CountRef(net - multiset{Request(Ref(t.file), index)} + multiset(Advance(t, Ref(t.file))), Ref(t.file))
              == CountRef(net, Ref(t.file))
  {
    hide CountRef, CountSent;
    CountWithout(net, Ref(t.file), Request(Ref(t.file), index));
    CountPlus(net - multiset{Request(Ref(t.file), index)}, Advance(t, Ref(t.file)), Ref(t.file));
    CountOne(Request(Ref(t.file), t.next), Ref(t.file));
  }

  lemma AskedNow(net: multiset<Request>, t: Transfer, index: nat, i: nat)
    requires Steady(net, t) && Request(Ref(t.file), index) in net
    requires Ask(Ref(t.file), t.next) == Request(Ref(t.file), t.next)
    ensures var net' := net - multiset{Request(Ref(t.file), index)} + multiset(Advance(t, Ref(t.file)));
      net'[Request(Ref(t.file), i)]
      == net[Request(Ref(t.file), i)] - (if i == index then 1 else 0) + (if i == t.next < t.file.total then 1 else 0)
    ensures index < t.next && net[Request(Ref(t.file), i)] <= 1
    ensures t.next <= i ==> net[Request(Ref(t.file), i)] == 0
    ensures i < t.next && i !in t.received ==> net[Request(Ref(t.file), i)] == 1
  {
    hide CountRef;
    assert net[Request(Ref(t.file), index)] == 1;
  }

  lemma StoringSteady(cfg: Config, src: map<string, PendingFile>, s: State, net: multiset<Request>, n: string,
                      index: nat, chunk: Bytes)
    requires WellFormed(src) && Known(cfg, src, s) && Placed(s) && AllSteady(s.active, net) && WaitingQuiet(Sys(s, net))
    requires n in s.active && Request(Ref(s.active[n].file), index) in net
    ensures var after := AfterStoring(s, net, n, index, chunk);
      AllSteady(after.s.active, after.net) && WaitingQuiet(after)
  {
    hide Steady, Known, Unasked;
    var t, after := s.active[n], AfterStoring(s, net, n, index, chunk);
    ActiveIsKnown(cfg, src, s, n);
    KnownIsListed(cfg, src, s);
    AskIsPlain(src, n, t.next);
    StoredSteady(net, t, index, chunk);
    OthersSteady(src, s.active, net, n, after.net);
    forall k | 0 <= k < |s.queue| ensures Unasked(after.net, Ref(s.queue[k])) {
      WaitingIsListed(cfg, src, s, k);
      RefsDiffer(src, n, s.queue[k].name);
      StaysUnasked(net, Request(Ref(t.file), index), Advance(t, Ref(t.file)), Ref(s.queue[k]));
    }
  }

  lemma StaysUnasked(net: multiset<Request>, q: Request, more: seq<Request>, ref: FileRef)
    requires Unasked(net, ref) && forall r | r in more :: r.ref != ref
    ensures Unasked(net - multiset{q} + multiset(more), ref)
  {
  }

  lemma CompleteSteady(cfg: Config, src: map<string, PendingFile>, s: State, net: multiset<Request>, n: string,
      env: Env)
    requires WellFormed(src) && Known(cfg, src, s) && Placed(s) && AllSteady(s.active, net) && WaitingQuiet(Sys(s, net))
    requires n in s.active
    ensures var o := Complete(cfg, s, n, env); AllSteady(o.state.active, net + multiset(o.sent))
  {
    hide Complete, Known, Placed, WellFormed, Missing, Steady, Unasked;
    var files := CompleteCases(cfg, s, n, env);
    RetiredPlaced(cfg, src, s, n, files);
    StartQueuedSteady(cfg, src, Retired(s, n, files), env, net);
    assert net + multiset([]) == net;
    hide StartQueued;
  }

  lemma AcceptSteady(cfg: Config, src: map<string, PendingFile>, s: State, net: multiset<Request>, n: string,
                     index: nat, chunk: Bytes, digest: Bytes32, env: Env)
    requires WellFormed(src) && Known(cfg, src, s) && Placed(s) && AllSteady(s.active, net) && WaitingQuiet(Sys(s, net))
    requires n in s.active && Request(Ref(s.active[n].file), index) in net
    requires Ask(Ref(s.active[n].file), index) == Request(Ref(s.active[n].file), index)
    ensures var o := Accept(cfg, s, n, Ref(s.active[n].file), index, chunk, digest, env);
      AllSteady(o.state.active, net - multiset{Request(Ref(s.active[n].file), index)} + multiset(o.sent))
  {
    hide Known, Complete, Placed, Missing, WellFormed, Accept, Advance, AllSteady, WaitingQuiet;
    var t := s.active[n];
    var q, after, asked := Request(Ref(t.file), index), AfterStoring(s, net, n, index, chunk), Advance(t, Ref(t.file));
    AcceptCases(cfg, s, net, n, index, chunk, digest, env);
    ActiveIsKnown(cfg, src, s, n);
    if index < |t.file.hashes| && t.file.hashes[index] == digest {
      AfterStoringKnown(cfg, src, s, net, n, index, chunk);
      StoringSteady(cfg, src, s, net, n, index, chunk);
      CompleteSteady(cfg, src, after.s, after.net, n, env);
      AppendRequests(net - multiset{q}, asked, Complete(cfg, after.s, n, env).sent);
    } else {
      RepeatedRequest(net, q);
    }
  }

  // ── Every undisturbed run ───────────────────────────────────────────────

  lemma AnswerSteady(cfg: Config, src: map<string, PendingFile>, s: State, net: multiset<Request>, q: Request,
                     data: Bytes, env: Env)
    requires WellFormed(src) && Known(cfg, src, s) && Placed(s) && AllSteady(s.active, net) && WaitingQuiet(Sys(s, net))
    requires q in net && KnownRequest(src, q)
    ensures var o := OnResponse(cfg, s, q.ref, q.index, data, env);
      AllSteady(o.state.active, net - multiset{q} + multiset(o.sent))
  {
    var n :| n in src && Ref(src[n]) == q.ref;
    var a := OpenResponse(cfg, s, q.ref, q.index, data);
    AnswerResolves(cfg, src, s, n, q.index, data);
    RepeatsItself(src, q);
    KnownIsListed(cfg, src, s);
    hide OpenResponse, Accept, Known, KnownRequest, Placed, WellFormed, OnResponse, Steady, WaitingQuiet;
    ResponseCases(cfg, s, q, data, env);
    if a.Arrived? {
      AcceptSteady(cfg, src, s, net, n, q.index, a.chunk, a.digest, env);
    } else if a.Ignored? {
      forall m | m in s.active ensures Steady(net - multiset{q} + multiset([]), s.active[m]) {
        RefsDiffer(src, m, n);
        SteadyElsewhere(net, net - multiset{q} + multiset([]), s.active[m]);
      }
    } else {
      RepeatedRequest(net, q);
    }
  }

  lemma OffersSteady(cfg: Config, src: map<string, PendingFile>, s: State, net: multiset<Request>,
                     offered: seq<PendingFile>, env: Env)
    requires WellFormed(src) && Known(cfg, src, s) && Placed(s) && AllSteady(s.active, net) && WaitingQuiet(Sys(s, net))
    requires forall k | 0 <= k < |offered| :: FileKnown(cfg, src, s.inbound, offered[k])
    requires forall k | 0 <= k < |offered| && Wanted(cfg, s, offered[k]) :: Unasked(net, Ref(offered[k]))
    ensures var o := StartQueued(cfg, Enqueue(cfg, s, offered), env); AllSteady(o.state.active, net + multiset(o.sent))
  {
    hide Wanted, Unasked, StartQueued, Enqueue, Placed, AllSteady;
    var s1 := Enqueue(cfg, s, offered);
    EnqueueKnown(cfg, src, s, offered);
    EnqueueKeeps(cfg, s, offered);
    EnqueuePlaces(cfg, s, offered);
    forall k | 0 <= k < |s1.queue| ensures Unasked(net, Ref(s1.queue[k])) {
      var n := s1.queue[k].name;
      WaitingIsListed(cfg, src, s1, k);
      EnqueueOrigins(cfg, s, offered, n);
      if InQueue(s.queue, n) {
        var j :| 0 <= j < |s.queue| && s.queue[j].name == n;
        WaitingIsListed(cfg, src, s, j);
      } else {
        var j :| 0 <= j < |offered| && offered[j].name == n && Wanted(cfg, s, offered[j]);
        assert FileKnown(cfg, src, s.inbound, offered[j]);
      }
    }
    StartQueuedSteady(cfg, src, s1, env, net);
  }

  lemma ManifestSteady(cfg: Config, src: map<string, PendingFile>, sys: Sys, e: NetEvent)
    requires Sound(cfg, src, sys) && AllSteady(sys.s.active, sys.net) && WaitingQuiet(sys)
    requires Static(src, e) && !Recalls(cfg, sys, e) && (e.Listed? || e.ListedSealed?)
    ensures var o := Step(cfg, sys.s, ToEvent(e)); AllSteady(o.state.active, sys.net + multiset(o.sent))
  {
    hide Wanted, Unasked, StartQueued, Enqueue, Placed, AllSteady, Known, WellFormed, KnownRequest, InboundIds;
    assert sys.net + multiset([]) == sys.net;
    if e.Listed? && e.entries != [] {
      ListedKnown(cfg, src, sys.s, e.entries);
      NoneRecalled(cfg, sys, e);
      assert Offered(cfg, e) == PlainFiles(e.entries);
      OffersSteady(cfg, src, sys.s, sys.net, PlainFiles(e.entries), e.env);
    } else if e.ListedSealed? && cfg.key.Some? && e.sealedEntries != [] {
      var s1 := sys.s.(inbound := InboundIds(e.sealedEntries));
      NewIdsKeepKnown(cfg, src, sys.s, e.sealedEntries);
      SamePlaces(sys.s, s1);
      NoneRecalled(cfg, sys, e);
      assert Offered(cfg, e) == SealedFiles(e.sealedEntries);
      SameWanted(cfg, sys.s, s1);
      OffersSteady(cfg, src, s1, sys.net, SealedFiles(e.sealedEntries), e.env);
    }
  }

  lemma NoneRecalled(cfg: Config, sys: Sys, e: NetEvent)
    requires !Recalls(cfg, sys, e)
    ensures forall k | 0 <= k < |Offered(cfg, e)| && Wanted(cfg, sys.s, Offered(cfg, e)[k]) ::
              Unasked(sys.net, Ref(Offered(cfg, e)[k]))
  {
  }

  lemma StepSteady(cfg: Config, src: map<string, PendingFile>, sys: Sys, e: NetEvent)
    requires Sound(cfg, src, sys) && AllSteady(sys.s.active, sys.net) && WaitingQuiet(sys) && !Recalls(cfg, sys, e)
    requires Static(src, e) && AsRequested(e) && Enabled(sys, e) && !e.Lose? && !e.Silence?
    ensures AllSteady(NetStep(cfg, sys, e).s.active, NetStep(cfg, sys, e).net)
  {
    hide AllSteady, Known, Placed, OnResponse, NetStep, KnownRequest, WellFormed, WaitingQuiet, Recalls, Step;
    match e
    case Answer(req, _, _, data, env) =>
      assert req in sys.net;
      NetStepAnswer(cfg, sys, e);
      AnswerSteady(cfg, src, sys.s, sys.net, req, data, env);
    case FolderChange(files) =>
      FolderOnly(cfg, sys, e);
    case Listed(_, _) =>
      NetStepOther(cfg, sys, e);
      ManifestSteady(cfg, src, sys, e);
    case ListedSealed(_, _) =>
      NetStepOther(cfg, sys, e);
      ManifestSteady(cfg, src, sys, e);
  }

  lemma FolderOnly(cfg: Config, sys: Sys, e: NetEvent)
    requires e.FolderChange?
    ensures NetStep(cfg, sys, e).s.active == sys.s.active && NetStep(cfg, sys, e).net == sys.net
  {
    assert sys.net - multiset{} + multiset([]) == sys.net;
  }

  /**
    In every run without losses, stalls and recalls, in both protocols, the chunks below the
    edge that have not come in are asked for once, and a window that is still open is full.
   */
  lemma {:induction false} UndisturbedRunsStaySteady(cfg: Config, src: map<string, PendingFile>,
          files: map<string, Bytes>, events: seq<NetEvent>)
    requires WellFormed(src) && Undisturbed(cfg, src, Sys(Fresh(files), multiset{}), events)
    requires NoRecalls(cfg, Sys(Fresh(files), multiset{}), events)
    ensures var end := NetRun(cfg, Sys(Fresh(files), multiset{}), events);
      Sound(cfg, src, end) && AllSteady(end.s.active, end.net) && WaitingQuiet(end)
  {
    if events != [] {
      hide NetStep, Sound, WaitingQuiet, Recalls, Static, AllSteady;
      var rest, e := events[..|events| - 1], events[|events| - 1];
      var before := NetRun(cfg, Sys(Fresh(files), multiset{}), rest);
      UndisturbedRunsStaySteady(cfg, src, files, rest);
      NetStepSound(cfg, src, before, e);
      StepStaysQuiet(cfg, src, before, e);
      StepSteady(cfg, src, before, e);
    }
  }
}
