/**
  The window's edge: every request out for a file that is being downloaded is for a chunk below
  the edge, unless the file is started again while requests from an earlier download of it are
  still out above its first window; and when that cannot happen.
 */
module Edge {
  import opened Basics
  import opened Reassembly
  import opened Download
  import opened TransferSafety
  import opened Network
  import opened Liveness
  import opened Turns
  import opened Recovery
  import opened History

  ghost predicate FileBelow(net: multiset<Request>, t: Transfer) {
    forall q | q in net && q.ref == Ref(t.file) :: q.index < t.next
  }

  ghost predicate BelowEdge(active: map<string, Transfer>, net: multiset<Request>) {
    forall n | n in active :: FileBelow(net, active[n])
  }

  /** What is still out for the files just started lies below their first edge. */
  ghost predicate CleanStarts(before: map<string, Transfer>, after: map<string, Transfer>, net: multiset<Request>) {
    forall n | n in after && n !in before :: FileBelow(net, after[n])
  }

  lemma BelowPlus(net: multiset<Request>, sent: seq<Request>, t: Transfer)
    requires FileBelow(net, t) && forall q | q in sent && q.ref == Ref(t.file) :: q.index < t.next
    ensures FileBelow(net + multiset(sent), t)
  {
  }

  /** The first requests of a file lie below its first edge. */
  lemma FirstWindowBelow(src: map<string, PendingFile>, n: string, received: map<nat, Bytes>)
    requires WellFormed(src) && n in src
    ensures forall q | q in AskAll(Ref(src[n]), FirstWindow(Missing(received, src[n].total))) ::
              q.ref == Ref(src[n]) && q.index < Begun(src[n], received).next
  {
    var needed := Missing(received, src[n].total);
    var window := FirstWindow(needed);
    forall k | 0 <= k < |window|
      ensures AskAll(Ref(src[n]), window)[k].index < Begun(src[n], received).next
    {
      assert needed[k] in needed;
      AskIsPlain(src, n, needed[k]);
    }
  }

  lemma StartOneBelow(cfg: Config, src: map<string, PendingFile>, s: State, env: Env, net: multiset<Request>)
    requires WellFormed(src) && Known(cfg, src, s) && Placed(s) && s.queue != [] && BelowEdge(s.active, net)
    requires CleanStarts(s.active, StartOne(cfg, s, env).state.active, net)
    ensures BelowEdge(StartOne(cfg, s, env).state.active, net + multiset(StartOne(cfg, s, env).sent))
  {
    var file, o := s.queue[0], StartOne(cfg, s, env);
    assert FileKnown(cfg, src, s.inbound, file) && file.name !in s.active;
    StartOneCases(cfg, s, env);
    FirstWindowBelow(src, file.name, Reusable(cfg.P, s.files, file));
    hide StartOne, Reusable, AskAll, FirstWindow, Missing, FileBelow;
    forall n | n in o.state.active ensures FileBelow(net + multiset(o.sent), o.state.active[n]) {
      if n in s.active {
        assert TransferKnown(cfg, src, s.inbound, s.active[n]);
        RefsDiffer(src, n, file.name);
      }
      BelowPlus(net, o.sent, o.state.active[n]);
    }
  }

  lemma {:induction false} StartQueuedBelow(cfg: Config, src: map<string, PendingFile>, s: State, env: Env,
          net: multiset<Request>)
    requires WellFormed(src) && Known(cfg, src, s) && Placed(s) && BelowEdge(s.active, net)
    requires CleanStarts(s.active, StartQueued(cfg, s, env).state.active, net)
    ensures BelowEdge(StartQueued(cfg, s, env).state.active, net + multiset(StartQueued(cfg, s, env).sent))
    decreases |s.queue|
  {
    var all := StartQueued(cfg, s, env);
    if |s.active| < MAX_CONCURRENT_FILES && s.queue != [] {
      var first := StartOne(cfg, s, env);
      var rest := StartQueued(cfg, first.state, env);
      StartOneKnown(cfg, src, s, env);
      StartOnePlaces(cfg, s, env);
      StartQueuedAdds(cfg, first.state, env);
      LaterStartsClean(cfg, src, s, env, net);
      hide StartOne, Known, Placed, FileBelow;
      StartOneBelow(cfg, src, s, env, net);
      StartQueuedBelow(cfg, src, first.state, env, net + multiset(first.sent));
      AppendRequests(net, first.sent, rest.sent);
    }
  }

  /** The requests of the file just started are not those of the files after it. */
  lemma LaterStartsClean(cfg: Config, src: map<string, PendingFile>, s: State, env: Env, net: multiset<Request>)
    requires WellFormed(src) && Known(cfg, src, s) && Placed(s) && s.queue != [] && |s.active| < MAX_CONCURRENT_FILES
    requires CleanStarts(s.active, StartQueued(cfg, s, env).state.active, net)
    ensures var first := StartOne(cfg, s, env);
      && CleanStarts(s.active, first.state.active, net)
      && CleanStarts(first.state.active, StartQueued(cfg, first.state, env).state.active, net + multiset(first.sent))
  {
    var file, first := s.queue[0], StartOne(cfg, s, env);
    var rest := StartQueued(cfg, first.state, env);
    assert FileKnown(cfg, src, s.inbound, file);
    StartOneCases(cfg, s, env);
    StartOneKnown(cfg, src, s, env);
    StartOnePlaces(cfg, s, env);
    StartQueuedAdds(cfg, first.state, env);
    StartQueuedUnfolds(cfg, s, env);
    StartQueuedKnown(cfg, src, first.state, env);
    FirstWindowBelow(src, file.name, Reusable(cfg.P, s.files, file));
    hide StartOne, StartQueued, Reusable, AskAll, FirstWindow, Missing, FileBelow, FileKnown;
    forall n | n in rest.state.active && n !in first.state.active
      ensures FileBelow(net + multiset(first.sent), rest.state.active[n])
    {
      assert TransferKnown(cfg, src, rest.state.inbound, rest.state.active[n]);
      if first.sent != [] { SameRefSameName(src, rest.state.active[n].file, file); }
      BelowPlus(net, first.sent, rest.state.active[n]);
    }
  }

  lemma SameRefSameName(src: map<string, PendingFile>, f: PendingFile, g: PendingFile)
    requires WellFormed(src) && FromListing(src, f) && FromListing(src, g)
    ensures Ref(f) == Ref(g) ==> f.name == g.name
  {
    RefsDiffer(src, f.name, g.name);
  }

  lemma CompleteBelow(cfg: Config, src: map<string, PendingFile>, s: State, name: string, env: Env,
          net: multiset<Request>)
    requires WellFormed(src) && Known(cfg, src, s) && Placed(s) && name in s.active && BelowEdge(s.active, net)
    requires CleanStarts(s.active, Complete(cfg, s, name, env).state.active, net)
    ensures BelowEdge(Complete(cfg, s, name, env).state.active, net + multiset(Complete(cfg, s, name, env).sent))
  {
    hide Complete, StartQueued, FileBelow, WellFormed, TransferKnown, FileKnown, IdsKnown;
    var files := CompleteCases(cfg, s, name, env);
    var s1 := Retired(s, name, files);
    SubsetSize(s1.active.Keys, s.active.Keys);
    assert |s1.active| == |s1.active.Keys| && |s.active| == |s.active.Keys|;
    assert Known(cfg, src, s1) && Placed(s1) && BelowEdge(s1.active, net);
    StartQueuedAdds(cfg, s1, env);
    assert !InQueue(s1.queue, name);
    hide Known, Placed, InQueue;
    assert net + multiset([]) == net;
    if Complete(cfg, s, name, env) == StartQueued(cfg, s1, env) {
      StartQueuedBelow(cfg, src, s1, env, net);
    }
  }

  lemma StoringBelow(cfg: Config, src: map<string, PendingFile>, s: State, n: string, index: nat, chunk: Bytes,
          net: multiset<Request>)
    requires WellFormed(src) && Known(cfg, src, s) && n in s.active && BelowEdge(s.active, net)
    ensures var after := AfterStoring(s, net, n, index, chunk); BelowEdge(after.s.active, after.net)
  {
    var t, after := s.active[n], AfterStoring(s, net, n, index, chunk);
    assert TransferKnown(cfg, src, s.inbound, t);
    AskIsPlain(src, n, t.next);
    forall m | m in after.s.active ensures FileBelow(after.net, after.s.active[m]) {
      assert TransferKnown(cfg, src, s.inbound, s.active[m]);
      SameRefSameName(src, s.active[m].file, t.file);
      assert FileBelow(net, s.active[m]);
    }
  }

  /** Storing asks on for a file that is active already, so it does not concern the ones about to start. */
  lemma StoringStartsClean(cfg: Config, src: map<string, PendingFile>, s: State, n: string, index: nat, chunk: Bytes,
                           net: multiset<Request>, end: State)
    requires WellFormed(src) && Known(cfg, src, s) && n in s.active && Known(cfg, src, end)
    requires CleanStarts(s.active, end.active, net)
    ensures var after := AfterStoring(s, net, n, index, chunk); CleanStarts(after.s.active, end.active, after.net)
  {
    var t, after := s.active[n], AfterStoring(s, net, n, index, chunk);
    assert TransferKnown(cfg, src, s.inbound, t);
    forall m | m in end.active && m !in after.s.active ensures FileBelow(after.net, end.active[m]) {
      assert TransferKnown(cfg, src, end.inbound, end.active[m]);
      SameRefSameName(src, end.active[m].file, t.file);
      assert FileBelow(net, end.active[m]);
    }
  }

  lemma KnownIndex(src: map<string, PendingFile>, file: PendingFile, index: nat)
    requires WellFormed(src) && FromListing(src, file) && KnownRequest(src, Request(Ref(file), index))
    ensures index < file.total
  {
    var n :| n in src && Ref(src[n]) == Ref(file) && index < src[n].total;
    RefsDiffer(src, n, file.name);
  }

  lemma AcceptBelow(cfg: Config, src: map<string, PendingFile>, s: State, net: multiset<Request>, n: string,
                    index: nat, chunk: Bytes, digest: Bytes32, env: Env)
    requires WellFormed(src) && Known(cfg, src, s) && Placed(s) && n in s.active && BelowEdge(s.active, net)
    requires Request(Ref(s.active[n].file), index) in net && KnownRequest(src, Request(Ref(s.active[n].file), index))
    requires CleanStarts(s.active, Accept(cfg, s, n, Ref(s.active[n].file), index, chunk, digest, env).state.active,
        net)
    ensures var o := Accept(cfg, s, n, Ref(s.active[n].file), index, chunk, digest, env);
      BelowEdge(o.state.active, net - multiset{Request(Ref(s.active[n].file), index)} + multiset(o.sent))
  {
    var t := s.active[n];
    var q, o := Request(Ref(t.file), index), Accept(cfg, s, n, Ref(t.file), index, chunk, digest, env);
    var after := AfterStoring(s, net, n, index, chunk);
    RepeatsItself(src, q);
    AcceptCases(cfg, s, net, n, index, chunk, digest, env);
    AcceptKnown(cfg, src, s, n, index, chunk, digest, env);
    assert TransferKnown(cfg, src, s.inbound, t);
    if index < |t.file.hashes| && t.file.hashes[index] == digest {
      KnownIndex(src, t.file, index);
      AfterStoringKnown(cfg, src, s, net, n, index, chunk);
      var asked, done := Advance(t, Ref(t.file)), Complete(cfg, after.s, n, env);
      assert after.net == net - multiset{q} + multiset(asked);
      hide Accept, Complete, FileBelow, BelowEdge, CleanStarts, Known, Placed, AfterStoring, KnownRequest;
      StoringBelow(cfg, src, s, n, index, chunk, net);
      StoringStartsClean(cfg, src, s, n, index, chunk, net, o.state);
      if o != Out(after.s, asked) {
        CompleteBelow(cfg, src, after.s, n, env, after.net);
        AppendRequests(net - multiset{q}, asked, done.sent);
      }
    } else {
      assert net - multiset{q} + multiset([q]) == net;
    }
  }

  // ── Whole events ────────────────────────────────────────────────────────

  lemma AnswerBelow(cfg: Config, src: map<string, PendingFile>, s: State, net: multiset<Request>, q: Request,
          data: Bytes, env: Env)
    requires WellFormed(src) && Known(cfg, src, s) && Placed(s) && BelowEdge(s.active, net)
    requires q in net && KnownRequest(src, q)
    requires CleanStarts(s.active, OnResponse(cfg, s, q.ref, q.index, data, env).state.active, net)
    ensures var o := OnResponse(cfg, s, q.ref, q.index, data, env);
      BelowEdge(o.state.active, net - multiset{q} + multiset(o.sent))
  {
    var n :| n in src && Ref(src[n]) == q.ref;
    var a, o := OpenResponse(cfg, s, q.ref, q.index, data), OnResponse(cfg, s, q.ref, q.index, data, env);
    AnswerResolves(cfg, src, s, n, q.index, data);
    RepeatsItself(src, q);
    ResponseCases(cfg, s, q, data, env);
    if a.Arrived? {
      hide OpenResponse, OnResponse, Accept, KnownRequest, Known, BelowEdge, CleanStarts;
      AcceptBelow(cfg, src, s, net, n, q.index, a.chunk, a.digest, env);
    } else {
      hide OpenResponse, OnResponse;
      assert forall r | r in net - multiset{q} + multiset(o.sent) :: r in net;
      assert forall m | m in s.active :: FileBelow(net, s.active[m]);
    }
  }

  lemma StalledBelow(cfg: Config, src: map<string, PendingFile>, s: State, net: multiset<Request>, name: string)
    requires WellFormed(src) && Known(cfg, src, s) && BelowEdge(s.active, net)
    ensures BelowEdge(Stalled(s, name).state.active, net + multiset(Stalled(s, name).sent))
  {
    var o := Stalled(s, name);
    if name in s.active && Again(s.active[name]) != [] {
      var t := s.active[name];
      assert TransferKnown(cfg, src, s.inbound, t);
      ReopenedBelow(src, t);
      hide AskAll, Again, Reopened, Missing;
      forall m | m in o.state.active ensures FileBelow(net + multiset(o.sent), o.state.active[m]) {
        assert TransferKnown(cfg, src, s.inbound, s.active[m]);
        SameRefSameName(src, s.active[m].file, t.file);
        assert FileBelow(net, s.active[m]);
      }
    }
  }

  lemma ReopenedBelow(src: map<string, PendingFile>, t: Transfer)
    requires WellFormed(src) && FromListing(src, t.file) && Again(t) != []
    ensures Reopened(t).file == t.file && Reopened(t).next >= t.next
    ensures forall q | q in AskAll(Ref(t.file), Again(t)) :: q.ref == Ref(t.file) && q.index < Reopened(t).next
  {
    var again := Again(t);
    var missing := Missing(t.received, t.file.total);
    SmallestMissing(t);
    forall k | 0 <= k < |again| ensures AskAll(Ref(t.file), again)[k] == Request(Ref(t.file), again[k])
        && again[k] < Reopened(t).next {
      assert again[k] == missing[k] && missing[k] in missing && again[k] in again;
      AskIsPlain(src, t.file.name, again[k]);
    }
  }

  lemma {:induction false} TickBelow(cfg: Config, src: map<string, PendingFile>, s: State, net: multiset<Request>,
          silent: seq<string>)
    requires WellFormed(src) && Known(cfg, src, s) && BelowEdge(s.active, net)
    ensures BelowEdge(OnTick(s, silent).state.active, net + multiset(OnTick(s, silent).sent))
  {
    hide BelowEdge, Known, Stalled, WellFormed;
    if silent == [] {
      assert net + multiset([]) == net;
    } else {
      var rest, last := silent[..|silent| - 1], silent[|silent| - 1];
      var before := OnTick(s, rest);
      TickKnown(cfg, src, s, rest);
      TickBelow(cfg, src, s, net, rest);
      StalledBelow(cfg, src, before.state, net + multiset(before.sent), last);
      AppendRequests(net, before.sent, Stalled(before.state, last).sent);
    }
  }

  lemma ManifestBelow(cfg: Config, src: map<string, PendingFile>, s: State, net: multiset<Request>, e: NetEvent)
    requires WellFormed(src) && Known(cfg, src, s) && Placed(s) && Static(src, e) && (e.Listed? || e.ListedSealed?)
    requires BelowEdge(s.active, net) && CleanStarts(s.active, Step(cfg, s, ToEvent(e)).state.active, net)
    ensures var o := Step(cfg, s, ToEvent(e)); BelowEdge(o.state.active, net + multiset(o.sent))
  {
    hide StartQueued, Enqueue, Known, Placed, FileBelow;
    assert net + multiset([]) == net;
    if e.Listed? && e.entries != [] {
      var files := PlainFiles(e.entries);
      PlainEnqueued(cfg, src, s, e);
      EnqueueKeeps(cfg, s, files);
      EnqueuePlaces(cfg, s, files);
      StartQueuedBelow(cfg, src, Enqueue(cfg, s, files), e.env, net);
    } else if e.ListedSealed? && cfg.key.Some? && e.sealedEntries != [] {
      var s1, files := s.(inbound := InboundIds(e.sealedEntries)), SealedFiles(e.sealedEntries);
      SealedEnqueued(cfg, src, s, e);
      EnqueueKeeps(cfg, s1, files);
      EnqueuePlaces(cfg, s1, files);
      StartQueuedBelow(cfg, src, Enqueue(cfg, s1, files), e.env, net);
    }
  }

  lemma PlainEnqueued(cfg: Config, src: map<string, PendingFile>, s: State, e: NetEvent)
    requires WellFormed(src) && Known(cfg, src, s) && Static(src, e) && e.Listed?
    ensures Known(cfg, src, Enqueue(cfg, s, PlainFiles(e.entries)))
  {
    EnqueueKnown(cfg, src, s, PlainFiles(e.entries));
  }

  lemma SealedEnqueued(cfg: Config, src: map<string, PendingFile>, s: State, e: NetEvent)
    requires WellFormed(src) && Known(cfg, src, s) && Placed(s) && Static(src, e) && e.ListedSealed? && cfg.key.Some?
    ensures var s1 := s.(inbound := InboundIds(e.sealedEntries));
      Placed(s1) && Known(cfg, src, Enqueue(cfg, s1, SealedFiles(e.sealedEntries)))
  {
    var s1 := s.(inbound := InboundIds(e.sealedEntries));
    NewIdsKeepKnown(cfg, src, s, e.sealedEntries);
    EnqueueKnown(cfg, src, s1, SealedFiles(e.sealedEntries));
  }

  /**
    Every event keeps all requests for active files below their edges exactly when, for each head
    of the queue that starts in its turn, nothing is out at or above the edge it starts with.
   */
  lemma NetStepBelowExactly(cfg: Config, src: map<string, PendingFile>, sys: Sys, e: NetEvent)
    requires Sound(cfg, src, sys) && Static(src, e) && AsRequested(e) && Enabled(sys, e)
        && BelowEdge(sys.s.active, sys.net)
    ensures BelowEdge(NetStep(cfg, sys, e).s.active, NetStep(cfg, sys, e).net)
       <==> TurnOk(cfg, sys.s, e, t => FileBelow(sys.net, t))
  {
    hide NetStep, TurnOk, Sound, Static, BelowEdge;
    var after, ok := NetStep(cfg, sys, e), (t: Transfer) => FileBelow(sys.net, t);
    TurnExactly(cfg, src, sys, e, ok);
    assert StartsOk(sys.s.active, after.s.active, ok) <==> CleanStarts(sys.s.active, after.s.active, sys.net);
    if CleanStarts(sys.s.active, after.s.active, sys.net) {
      CleanStepBelow(cfg, src, sys, e);
    }
    if BelowEdge(after.s.active, after.net) {
      StepWasClean(cfg, src, sys, e);
    }
  }

  lemma LossBelow(cfg: Config, sys: Sys, e: NetEvent)
    requires e.Lose? && BelowEdge(sys.s.active, sys.net)
    ensures BelowEdge(NetStep(cfg, sys, e).s.active, NetStep(cfg, sys, e).net)
  {
    assert forall n | n in sys.s.active :: FileBelow(sys.net, sys.s.active[n]);
  }

  lemma CleanAnswerBelow(cfg: Config, src: map<string, PendingFile>, sys: Sys, e: NetEvent)
    requires Sound(cfg, src, sys) && e.Answer? && AsRequested(e) && Enabled(sys, e) && BelowEdge(sys.s.active, sys.net)
    requires CleanStarts(sys.s.active, NetStep(cfg, sys, e).s.active, sys.net)
    ensures BelowEdge(NetStep(cfg, sys, e).s.active, NetStep(cfg, sys, e).net)
  {
    hide OnResponse, NetStep, BelowEdge, CleanStarts, Known, WellFormed, KnownRequest;
    assert e.req in sys.net;
    NetStepAnswer(cfg, sys, e);
    AnswerBelow(cfg, src, sys.s, sys.net, e.req, e.data, e.env);
  }

  lemma CleanOtherBelow(cfg: Config, src: map<string, PendingFile>, sys: Sys, e: NetEvent)
    requires Sound(cfg, src, sys) && Static(src, e) && !e.Answer? && !e.Lose? && BelowEdge(sys.s.active, sys.net)
    requires CleanStarts(sys.s.active, NetStep(cfg, sys, e).s.active, sys.net)
    ensures BelowEdge(NetStep(cfg, sys, e).s.active, NetStep(cfg, sys, e).net)
  {
    hide OnTick, OnManifest, OnEncryptedManifest, NetStep, BelowEdge, CleanStarts, Known, Static, Placed, WellFormed;
    NetStepOther(cfg, sys, e);
    match e
    case Silence(silent) => TickBelow(cfg, src, sys.s, sys.net, silent);
    case FolderChange(_) => assert sys.net + multiset([]) == sys.net;
    case Listed(_, _) => ManifestBelow(cfg, src, sys.s, sys.net, e);
    case ListedSealed(_, _) => ManifestBelow(cfg, src, sys.s, sys.net, e);
  }

  lemma CleanStepBelow(cfg: Config, src: map<string, PendingFile>, sys: Sys, e: NetEvent)
    requires Sound(cfg, src, sys) && Static(src, e) && AsRequested(e) && Enabled(sys, e)
        && BelowEdge(sys.s.active, sys.net)
    requires CleanStarts(sys.s.active, NetStep(cfg, sys, e).s.active, sys.net)
    ensures BelowEdge(NetStep(cfg, sys, e).s.active, NetStep(cfg, sys, e).net)
  {
    hide NetStep, BelowEdge, CleanStarts, Sound;
    if e.Lose? {
      LossBelow(cfg, sys, e);
    } else if e.Answer? {
      CleanAnswerBelow(cfg, src, sys, e);
    } else {
      CleanOtherBelow(cfg, src, sys, e);
    }
  }

  /** A request that is out for a file being started is not the one answered in the same event. */
  lemma StepWasClean(cfg: Config, src: map<string, PendingFile>, sys: Sys, e: NetEvent)
    requires Sound(cfg, src, sys) && Static(src, e) && AsRequested(e) && Enabled(sys, e)
    requires BelowEdge(NetStep(cfg, sys, e).s.active, NetStep(cfg, sys, e).net)
    ensures CleanStarts(sys.s.active, NetStep(cfg, sys, e).s.active, sys.net)
  {
    var after := NetStep(cfg, sys, e);
    NetStepSound(cfg, src, sys, e);
    forall n | n in after.s.active && n !in sys.s.active ensures FileBelow(sys.net, after.s.active[n]) {
      assert TransferKnown(cfg, src, after.s.inbound, after.s.active[n]) && FileBelow(after.net, after.s.active[n]);
      forall q | q in sys.net && q.ref == Ref(after.s.active[n].file) ensures q in after.net {
        StaysOut(cfg, src, sys, e, n, q);
      }
    }
  }

  lemma StaysOut(cfg: Config, src: map<string, PendingFile>, sys: Sys, e: NetEvent, n: string, q: Request)
    requires Sound(cfg, src, sys) && AsRequested(e) && Enabled(sys, e) && n in src && q in sys.net
        && q.ref == Ref(src[n])
    requires n in NetStep(cfg, sys, e).s.active && n !in sys.s.active
    ensures q in NetStep(cfg, sys, e).net
  {
    if e.Answer? && e.req == q {
      AnswerResolves(cfg, src, sys.s, n, q.index, e.data);
      NetStepAnswer(cfg, sys, e);
      RepeatsItself(src, q);
      ResponseCases(cfg, sys.s, q, e.data, e.env);
      hide OpenResponse, OnResponse, NetStep;
    } else {
      assert q !in Consumed(e) || e.Lose?;
    }
  }

  /** A file for which no request is out never violates it. */
  lemma QuietStartsAreClean(before: map<string, Transfer>, after: map<string, Transfer>, net: multiset<Request>)
    requires QuietStarts(before, after, net)
    ensures CleanStarts(before, after, net)
  {
  }

  /** So in a state where requests are only out for active files, no event violates it. */
  lemma OwnedRequestsStayBelow(cfg: Config, src: map<string, PendingFile>, sys: Sys, e: NetEvent)
    requires Sound(cfg, src, sys) && Static(src, e) && AsRequested(e) && Enabled(sys, e)
        && BelowEdge(sys.s.active, sys.net)
    requires forall n, q | n in src && n !in sys.s.active && q in sys.net :: q.ref != Ref(src[n])
    ensures BelowEdge(NetStep(cfg, sys, e).s.active, NetStep(cfg, sys, e).net)
  {
    hide NetStep, BelowEdge, Known, Placed, KnownRequest, FileBelow;
    NetStepSound(cfg, src, sys, e);
    var after := NetStep(cfg, sys, e).s;
    forall n | n in after.active && n !in sys.s.active ensures Unasked(sys.net, Ref(after.active[n].file)) {
      ActiveIsKnown(cfg, src, after, n);
    }
    QuietStartsAreClean(sys.s.active, after.active, sys.net);
    CleanStepBelow(cfg, src, sys, e);
  }

  /**
    In every run, whatever is lost, stalls, fails or is removed, no request for an active file
    is ever at or above its edge, as long as no manifest brings back a file while a request for
    it is still out.
   */
  lemma {:induction false} RequestsStayBelowEdge(cfg: Config, src: map<string, PendingFile>, files: map<string, Bytes>,
                                                 events: seq<NetEvent>)
    requires WellFormed(src) && Plausible(cfg, src, Sys(Fresh(files), multiset{}), events)
    requires NoRecalls(cfg, Sys(Fresh(files), multiset{}), events)
    ensures var end := NetRun(cfg, Sys(Fresh(files), multiset{}), events);
      BelowEdge(end.s.active, end.net)
  {
    if events != [] {
      hide NetStep, BelowEdge, CleanStarts, QuietStarts, Static, Sound, WaitingQuiet, Recalls;
      var rest, e := events[..|events| - 1], events[|events| - 1];
      var before := NetRun(cfg, Sys(Fresh(files), multiset{}), rest);
      RequestsStayBelowEdge(cfg, src, files, rest);
      RunsStayQuiet(cfg, src, files, rest);
      StartsQuietly(cfg, src, before, e);
      QuietStartsAreClean(before.s.active, NetStep(cfg, before, e).s.active, before.net);
      CleanStepBelow(cfg, src, before, e);
    }
  }
}
