/**
  When the limit of twelve requests is exceeded. While nothing stalls and no file is brought
  back, each file keeps its own window; three full windows and a waiting file lead beyond the
  limit exactly when one of the three files has a hole.
 */
module Twelve {
  import opened Basics
  import opened Reassembly
  import opened Download
  import opened TransferSafety
  import opened Network
  import opened Writing
  import opened Liveness
  import opened Window
  import opened Recovery
  import opened History
  import opened Overrun
  import opened Steadiness

  // ── Counting ────────────────────────────────────────────────────────────

  lemma {:induction false} CountThreeRefs(net: multiset<Request>, a: FileRef, b: FileRef, c: FileRef)
    requires a != b && a != c && b != c
    ensures CountRef(net, a) + CountRef(net, b) + CountRef(net, c) <= |net|
    decreases |net|
  {
    if net != multiset{} {
      var q :| q in net;
      CountWithout(net, a, q);
      CountWithout(net, b, q);
      CountWithout(net, c, q);
      CountThreeRefs(net - multiset{q}, a, b, c);
    }
  }

  /** One request for each of these chunks, and no other for the file. */
  lemma {:induction false} CountIs(net: multiset<Request>, ref: FileRef, idx: seq<nat>)
    requires Ascending(idx) && forall i: nat :: net[Request(ref, i)] == if i in idx then 1 else 0
    ensures CountRef(net, ref) == |idx|
  {
    if idx == [] {
      UnaskedCounts(net, ref);
      forall q | q in net ensures q.ref != ref {
        assert net[Request(q.ref, q.index)] > 0;
      }
    } else {
      var rest, last := idx[..|idx| - 1], idx[|idx| - 1];
      var q := Request(ref, last);
      assert idx == rest + [last] && last !in rest && last in idx;
      assert net[q] == 1;
      CountWithout(net, ref, q);
      forall i: nat ensures (net - multiset{q})[Request(ref, i)] == if i in rest then 1 else 0 {
        assert net[Request(ref, i)] == if i in idx then 1 else 0;
      }
      CountIs(net - multiset{q}, ref, rest);
    }
  }

  lemma {:induction false} NothingLeftOut(active: map<string, Transfer>, net: multiset<Request>)
    requires forall q | q in net :: Owned(active, q.ref)
    ensures LeftOut(active, net) == 0
    decreases |net|
  {
    if net != multiset{} {
      var q :| q in net && LeftOut(active, net) == (if Owned(active, q.ref) then 0 else 1)
          + LeftOut(active, net - multiset{q});
      hide Owned;
      NothingLeftOut(active, net - multiset{q});
    }
  }

  // ── Three full windows ──────────────────────────────────────────────────

  /** A chunk is here that the window has still to pass, or that is asked for nevertheless. */
  ghost predicate HasHole(net: multiset<Request>, t: Transfer) {
    exists h :: h in t.received && (t.next <= h || Request(Ref(t.file), h) in net)
  }

  /** Without a hole the window is exact. */
  lemma SteadyIsExact(net: multiset<Request>, t: Transfer)
    requires Steady(net, t) && !HasHole(net, t) && CountRef(net, Ref(t.file)) == WINDOW
    ensures ExactFile(net, t) && Outstanding(t) == WINDOW == CountRef(net, Ref(t.file))
  {
    hide CountRef;
    var needed := Missing(t.received, t.next);
    NoneAskedTwice(net, t);
    CountIs(net, Ref(t.file), needed);
    CountingWithinRange(t.received, t.next);
  }

  lemma NoneAskedTwice(net: multiset<Request>, t: Transfer)
    requires Steady(net, t) && !HasHole(net, t)
    ensures forall i: nat :: net[Request(Ref(t.file), i)] == if i < t.next && i !in t.received then 1 else 0
    ensures forall i | i in t.received :: i < t.next
  {
    hide CountRef;
    forall i: nat ensures net[Request(Ref(t.file), i)] == if i < t.next && i !in t.received then 1 else 0 {
      assert i in t.received ==> Request(Ref(t.file), i) !in net;
    }
  }

  /** A hole in a steady file is what leads to requests left out. */
  lemma SteadyHole(cfg: Config, src: map<string, PendingFile>, sys: Sys, n: string) returns (h: nat)
    requires Sound(cfg, src, sys) && n in sys.s.active && Steady(sys.net, sys.s.active[n])
    requires sys.s.active[n].file.fileId.None? && Missing(sys.s.active[n].received, sys.s.active[n].file.total) != []
    requires HasHole(sys.net, sys.s.active[n])
    ensures Holed(sys, n, h)
  {
    var t := sys.s.active[n];
    h :| h in t.received && (t.next <= h || Request(Ref(t.file), h) in sys.net);
    ActiveIsKnown(cfg, src, sys.s, n);
    hide CountRef, Known, Missing;
    assert Ref(t.file) == ByName(n);
    SteadyFlows(sys.net, t);
    hide FileFlows;
    assert sys.net[Request(ByName(n), h)] <= 1;
  }

  lemma SteadyFlows(net: multiset<Request>, t: Transfer)
    requires Steady(net, t)
    ensures FileFlows(net, t)
  {
    UnaskedCounts(net, Ref(t.file));
    hide CountRef;
    if t.next < t.file.total {
      var q :| q in net && q.ref == Ref(t.file);
      assert Request(Ref(t.file), q.index) in net;
    }
    forall i | 0 <= i < t.next ensures i in t.received || Request(Ref(t.file), i) in net {
      assert i !in t.received ==> net[Request(Ref(t.file), i)] == 1;
    }
  }

  // ── Without a hole ──────────────────────────────────────────────────────

  /** Replies labelled as requested to requests that are out: with any data, and any write may fail. */
  ghost predicate Replies(cfg: Config, sys: Sys, events: seq<NetEvent>)
    decreases |events|
  {
    events == [] || (
      var e := events[0];
      && e.Answer? && AsRequested(e) && Enabled(sys, e) && Replies(cfg, NetStep(cfg, sys, e), events[1..]))
  }

  /** The windows are exact and at most one file waits, or none waits and the limit is kept. */
  ghost predicate Calm(cfg: Config, src: map<string, PendingFile>, sys: Sys) {
    && Sound(cfg, src, sys)
    && (|| (Exact(sys.s.active, sys.net) && |sys.s.queue| <= 1)
        || (sys.s.queue == [] && |sys.net| <= MAX_CONCURRENT_FILES * WINDOW))
  }

  function NoneWaiting(s: State): State {
    s.(queue := [])
  }

  /** What happens with one file waiting, next to what happens with none. */
  ghost predicate Aside(o: Out, o0: Out, queue: seq<PendingFile>) {
    || (o.state.active == o0.state.active && o.sent == o0.sent && |o.state.queue| <= 1)
    || (o.state.queue == [] && |o0.state.active| < MAX_CONCURRENT_FILES && |o.sent| <= |o0.sent| + WINDOW)
  }

  lemma StartAside(cfg: Config, s: State, env: Env)
    requires |s.queue| <= 1
    ensures Aside(StartQueued(cfg, s, env), StartQueued(cfg, NoneWaiting(s), env), s.queue)
  {
    if |s.active| < MAX_CONCURRENT_FILES && s.queue != [] {
      var first := StartOne(cfg, s, env);
      StartOneCases(cfg, s, env);
      hide StartOne, Begun, Missing, Reusable;
      assert StartQueued(cfg, first.state, env) == Out(first.state, []);
      assert StartQueued(cfg, s, env) == Out(first.state, first.sent + []);
    }
  }

  lemma CompleteAside(cfg: Config, s: State, n: string, env: Env)
    requires |s.queue| <= 1 && n in s.active
    ensures Aside(Complete(cfg, s, n, env), Complete(cfg, NoneWaiting(s), n, env), s.queue)
  {
    hide StartQueued, ReassembleOutcome, Gather, Aside;
    var t := s.active[n];
    var files := ReassembleOutcome(cfg.P, s.files, cfg.vault, t.file.name, t.file.total, t.received, env.draw).1;
    StartAside(cfg, Retired(s, n, files), env);
    assert NoneWaiting(Retired(s, n, files)) == Retired(NoneWaiting(s), n, files);
    SameAside(s, []);
    SameAside(s.(files := files), []);
  }

  lemma SameAside(s: State, sent: seq<Request>)
    requires |s.queue| <= 1
    ensures Aside(Out(s, sent), Out(NoneWaiting(s), sent), s.queue)
  {
  }

  lemma MoreSent(o: Out, o0: Out, queue: seq<PendingFile>, asked: seq<Request>)
    requires Aside(o, o0, queue)
    ensures Aside(Out(o.state, asked + o.sent), Out(o0.state, asked + o0.sent), queue)
  {
  }

  lemma AcceptAside(cfg: Config, s: State, n: string, via: FileRef, index: nat, chunk: Bytes, digest: Bytes32, env: Env)
    requires |s.queue| <= 1 && n in s.active
    ensures Aside(Accept(cfg, s, n, via, index, chunk, digest, env),
                  Accept(cfg, NoneWaiting(s), n, via, index, chunk, digest, env), s.queue)
  {
    hide Complete, Aside, CountedComplete, Advance;
    var t := s.active[n];
    var s1 := s.(active := s.active[n := Stored(t, index, chunk)]);
    SameAside(s, [Ask(via, index)]);
    SameAside(s1, Advance(t, via));
    CompleteAside(cfg, s1, n, env);
    MoreSent(Complete(cfg, s1, n, env), Complete(cfg, NoneWaiting(s1), n, env), s.queue, Advance(t, via));
  }

  lemma AnswerAside(cfg: Config, s: State, ref: FileRef, index: nat, data: Bytes, env: Env)
    requires |s.queue| <= 1
    ensures Aside(OnResponse(cfg, s, ref, index, data, env), OnResponse(cfg, NoneWaiting(s), ref, index, data, env),
        s.queue)
  {
    var a := OpenResponse(cfg, s, ref, index, data);
    assert OpenResponse(cfg, NoneWaiting(s), ref, index, data) == a;
    hide OpenResponse, Accept, Aside;
    if a.Arrived? { AcceptAside(cfg, s, a.name, ref, Ask(ref, index).index, a.chunk, a.digest, env); }
    SameAside(s, []);
    SameAside(s, [Ask(ref, index)]);
  }

  /** With nothing waiting an answer is replaced by one request at most. */
  lemma OneForOne(cfg: Config, s: State, ref: FileRef, index: nat, data: Bytes, env: Env)
    requires s.queue == []
    ensures var o := OnResponse(cfg, s, ref, index, data, env); o.state.queue == [] && |o.sent| <= 1
  {
    hide ReassembleOutcome, Gather, OpenResponse, CountedComplete;
  }

  lemma StepStaysCalm(cfg: Config, src: map<string, PendingFile>, sys: Sys, e: NetEvent)
    requires Calm(cfg, src, sys) && e.Answer? && AsRequested(e) && Enabled(sys, e)
    ensures Calm(cfg, src, NetStep(cfg, sys, e))
  {
    hide NetStep, OnResponse, Exact, Known, KnownRequest, WellFormed;
    NetStepSound(cfg, src, sys, e);
    NetStepAnswer(cfg, sys, e);
    assert e.req in sys.net;
    if sys.s.queue == [] && |sys.net| <= MAX_CONCURRENT_FILES * WINDOW {
      OneForOne(cfg, sys.s, e.req.ref, e.req.index, e.data, e.env);
      Replaced(sys.net, e.req, OnResponse(cfg, sys.s, e.req.ref, e.req.index, e.data, e.env).sent);
    } else {
      ExactStaysCalm(cfg, src, sys, e);
    }
  }

  lemma Replaced(net: multiset<Request>, q: Request, sent: seq<Request>)
    requires q in net
    ensures |net - multiset{q} + multiset(sent)| == |net| - 1 + |sent|
  {
    assert |multiset(sent)| == |sent|;
  }

  lemma ExactStaysCalm(cfg: Config, src: map<string, PendingFile>, sys: Sys, e: NetEvent)
    requires Sound(cfg, src, sys) && Exact(sys.s.active, sys.net) && |sys.s.queue| <= 1
    requires e.Answer? && AsRequested(e) && Enabled(sys, e)
    ensures Calm(cfg, src, NetStep(cfg, sys, e))
  {
    hide NetStep, OnResponse, Exact, KnownRequest, WellFormed;
    var sys0 := Sys(NoneWaiting(sys.s), sys.net);
    var o, o0 := OnResponse(cfg, sys.s, e.req.ref, e.req.index, e.data, e.env),
      OnResponse(cfg, sys0.s, e.req.ref, e.req.index, e.data, e.env);
    assert e.req in sys.net;
    NetStepSound(cfg, src, sys, e);
    NetStepAnswer(cfg, sys, e);
    NetStepAnswer(cfg, sys0, e);
    NothingStarts(cfg, src, sys0, e);
    hide Known, Placed;
    StepExact(cfg, src, sys0, e);
    NetStepSound(cfg, src, sys0, e);
    TwelveAtMost(cfg, src, NetStep(cfg, sys0, e));
    AnswerAside(cfg, sys.s, e.req.ref, e.req.index, e.data, e.env);
    Replaced(sys.net, e.req, o.sent);
    Replaced(sys.net, e.req, o0.sent);
  }

  lemma NothingStarts(cfg: Config, src: map<string, PendingFile>, sys: Sys, e: NetEvent)
    requires Sound(cfg, src, sys) && sys.s.queue == [] && e.Answer?
    ensures HoleFreeStarts(sys.s.active, NetStep(cfg, sys, e).s.active)
  {
    hide NetStep, Sound, HoleFree;
    StepOrigins(cfg, src, sys, e);
  }

  lemma CalmKeepsTwelve(cfg: Config, src: map<string, PendingFile>, sys: Sys)
    requires Calm(cfg, src, sys)
    ensures |sys.net| <= MAX_CONCURRENT_FILES * WINDOW
  {
    hide Exact, Sound;
    if Exact(sys.s.active, sys.net) { TwelveAtMost(cfg, src, sys); }
  }

  /** So no run of replies exceeds the limit. */
  lemma {:induction false} RepliesKeepTwelve(cfg: Config, src: map<string, PendingFile>, sys: Sys,
      events: seq<NetEvent>)
    requires Calm(cfg, src, sys) && Replies(cfg, sys, events)
    ensures |NetRun(cfg, sys, events).net| <= MAX_CONCURRENT_FILES * WINDOW
    decreases |events|
  {
    hide NetStep, Calm, Exact;
    if events == [] {
      CalmKeepsTwelve(cfg, src, sys);
    } else {
      StepStaysCalm(cfg, src, sys, events[0]);
      RepliesKeepTwelve(cfg, src, NetStep(cfg, sys, events[0]), events[1..]);
      NetRunCons(cfg, sys, events[0], events[1..]);
      assert [events[0]] + events[1..] == events;
    }
  }

  // ── With a hole ─────────────────────────────────────────────────────────

  /** Each event is the good answer for one of the files. */
  ghost predicate AllGood(cfg: Config, events: seq<NetEvent>, contents: map<string, seq<Bytes>>) {
    forall k | 0 <= k < |events| :: exists n :: n in contents && GoodAnswer(cfg, events[k], n, contents[n])
  }

  lemma {:induction false} ServedIsGood(cfg: Config, sys: Sys, events: seq<NetEvent>, n: string,
                                        contents: map<string, seq<Bytes>>)
    requires n in contents && Served(cfg, sys, events, n, contents[n])
    ensures Replies(cfg, sys, events) && AllGood(cfg, events, contents)
    decreases |events|
  {
    if events != [] {
      hide NetStep;
      ServedIsGood(cfg, NetStep(cfg, sys, events[0]), events[1..], n, contents);
      forall k | 0 <= k < |events| ensures exists m :: m in contents && GoodAnswer(cfg, events[k], m, contents[m]) {
        if k > 0 { assert events[k] == events[1..][k - 1]; }
      }
    }
  }

  /** A plaintext file being downloaded, with a full window, of which nothing but its own chunks is here. */
  ghost predicate Loading(cfg: Config, sys: Sys, n: string, chunks: seq<Bytes>) {
    && n in sys.s.active && n !in sys.s.files
    && var t := sys.s.active[n];
    && Steady(sys.net, t) && CountRef(sys.net, Ref(t.file)) == WINDOW && Missing(t.received, t.file.total) != []
    && PlainSource(cfg, t.file, chunks) && Faithful(t, chunks) && Storable(cfg, t)
  }

  /** Whichever file is finished first, the waiting one then lacks a window of chunks. */
  ghost predicate Hungry(cfg: Config, sys: Sys, contents: map<string, seq<Bytes>>, file: PendingFile) {
    forall n, after | n in sys.s.active && n in contents
        && FolderAfter(cfg, sys.s.files, n, sys.s.active[n], contents[n], after) ::
      file.name !in after && |Missing(Reusable(cfg.P, after, file), file.total)| >= WINDOW
  }

  /** Three files with full windows, nothing else asked for, and one more waiting. */
  ghost predicate ThreeLoading(cfg: Config, src: map<string, PendingFile>, sys: Sys,
      contents: map<string, seq<Bytes>>) {
    && Sound(cfg, src, sys) && |sys.s.active| == MAX_CONCURRENT_FILES && |sys.s.queue| == 1
    && (forall n | n in sys.s.active :: n in contents && Loading(cfg, sys, n, contents[n]))
    && (forall q | q in sys.net :: Owned(sys.s.active, q.ref))
    && Hungry(cfg, sys, contents, sys.s.queue[0])
  }

  lemma NoHoleIsCalm(cfg: Config, src: map<string, PendingFile>, sys: Sys, contents: map<string, seq<Bytes>>)
    requires ThreeLoading(cfg, src, sys, contents)
    requires forall n | n in sys.s.active :: !HasHole(sys.net, sys.s.active[n])
    ensures Calm(cfg, src, sys)
  {
    hide Loading, Hungry, ExactFile, Outstanding, CountRef, Known, Placed, KnownRequest, HasHole, Owned, LeftOut,
        SumOver, WellFormed;
    var active := sys.s.active;
    forall n | n in active ensures ExactFile(sys.net, active[n])
      && Outstanding(active[n]) == CountRef(sys.net, Ref(active[n].file))
    {
      LoadingIsExact(cfg, sys, n, contents[n]);
    }
    KnownIsListed(cfg, src, sys.s);
    AllRequests(src, active, sys.net);
    NothingLeftOut(active, sys.net);
    SumSame(active, Outstanding, (t: Transfer) => CountRef(sys.net, Ref(t.file)));
  }

  lemma LoadingIsExact(cfg: Config, sys: Sys, n: string, chunks: seq<Bytes>)
    requires Loading(cfg, sys, n, chunks) && !HasHole(sys.net, sys.s.active[n])
    ensures ExactFile(sys.net, sys.s.active[n])
    ensures Outstanding(sys.s.active[n]) == CountRef(sys.net, Ref(sys.s.active[n].file))
  {
    hide Steady, HasHole, PlainSource, Faithful, Storable, Missing;
    SteadyIsExact(sys.net, sys.s.active[n]);
  }

  /** Two more files beside one of three. */
  lemma OtherTwo(active: map<string, Transfer>, n: string) returns (a: string, b: string)
    requires |active| == 3 && n in active
    ensures a in active && b in active && a != n && b != n && a != b
  {
    var rest := active.Keys - {n};
    assert |active.Keys| == 3 && |rest| == 2;
    a :| a in rest;
    assert |rest - {a}| == 1;
    b :| b in rest - {a};
  }

  /** When the file with the hole is done, the waiting one starts with a full window beside what is left. */
  lemma WaitingStarts(cfg: Config, s: State)
    requires |s.active| < MAX_CONCURRENT_FILES && |s.queue| == 1 && s.queue[0].name !in s.files
    requires |Missing(Reusable(cfg.P, s.files, s.queue[0]), s.queue[0].total)| >= WINDOW
    ensures |StartQueued(cfg, s, Quiet()).sent| == WINDOW
  {
    hide Missing, Reusable, Begun, AskAll;
    var first := StartOne(cfg, s, Quiet());
    assert StartQueued(cfg, first.state, Quiet()) == Out(first.state, []);
  }

  lemma HoleExceeds(cfg: Config, src: map<string, PendingFile>, sys: Sys, contents: map<string, seq<Bytes>>, n: string)
    returns (events: seq<NetEvent>)
    requires ThreeLoading(cfg, src, sys, contents) && n in sys.s.active && HasHole(sys.net, sys.s.active[n])
    ensures Replies(cfg, sys, events) && AllGood(cfg, events, contents)
    ensures |NetRun(cfg, sys, events).net| > MAX_CONCURRENT_FILES * WINDOW
  {
    hide NetRun, StartQueued, Missing, Reusable, CountRef, HasHole, Served, PlainSource, Storable, Faithful, Known,
        Placed, WellFormed, FolderAfter, Owned, Steady;
    assert Loading(cfg, sys, n, contents[n]);
    var t, chunks := sys.s.active[n], contents[n];
    PlainHasNoId(cfg, t.file, chunks);
    ActiveIsKnown(cfg, src, sys.s, n);
    var h := SteadyHole(cfg, src, sys, n);
    AskedWithin(cfg, src, sys, n, chunks);
    hide Holed, KnownRequest;
    var left := HoleLeavesRequests(cfg, sys, n, h, 0, chunks);
    events := left.events;
    ServedIsGood(cfg, sys, events, n, contents);
    LeftActive(sys.s.active, n, left.s.active);
    HungryAfter(cfg, sys, contents, n, left.s.files);
    WaitingStarts(cfg, left.s);
    NineLeft(cfg, src, sys, contents, n, left.net);
    SizeOf(left.net, StartQueued(cfg, left.s, Quiet()).sent);
  }

  lemma HungryAfter(cfg: Config, sys: Sys, contents: map<string, seq<Bytes>>, n: string, after: map<string, Bytes>)
    requires |sys.s.queue| == 1 && Hungry(cfg, sys, contents, sys.s.queue[0]) && n in sys.s.active && n in contents
    requires FolderAfter(cfg, sys.s.files, n, sys.s.active[n], contents[n], after)
    ensures var file := sys.s.queue[0];
      file.name !in after && |Missing(Reusable(cfg.P, after, file), file.total)| >= WINDOW
  {
    hide FolderAfter;
  }

  lemma PlainHasNoId(cfg: Config, file: PendingFile, chunks: seq<Bytes>)
    requires PlainSource(cfg, file, chunks)
    ensures file.fileId.None? && |chunks| == file.total
  {
  }

  lemma LeftActive(active: map<string, Transfer>, n: string, after: map<string, Transfer>)
    requires n in active && after == active - {n}
    ensures |after| == |active| - 1
  {
    assert after.Keys == active.Keys - {n};
    assert |after| == |after.Keys| && |active| == |active.Keys|;
  }

  lemma SizeOf(net: multiset<Request>, sent: seq<Request>)
    ensures |net + multiset(sent)| == |net| + |sent|
  {
    assert |multiset(sent)| == |sent|;
  }

  lemma AskedWithin(cfg: Config, src: map<string, PendingFile>, sys: Sys, n: string, chunks: seq<Bytes>)
    requires Sound(cfg, src, sys) && n in sys.s.active && PlainSource(cfg, sys.s.active[n].file, chunks)
    ensures forall q | q in sys.net && q.ref == ByName(n) :: q.index < |chunks|
  {
    ActiveIsKnown(cfg, src, sys.s, n);
    hide Known, Placed;
    forall q | q in sys.net && q.ref == ByName(n) ensures q.index < |chunks| {
      var m :| m in src && Ref(src[m]) == q.ref && q.index < src[m].total;
      RefsDiffer(src, m, n);
    }
  }

  /** One request for the finished file, and the windows of the other two. */
  lemma NineLeft(cfg: Config, src: map<string, PendingFile>, sys: Sys, contents: map<string, seq<Bytes>>, n: string,
                 net: multiset<Request>)
    requires ThreeLoading(cfg, src, sys, contents) && n in sys.s.active && Ref(sys.s.active[n].file) == ByName(n)
    requires exists q :: q in net && q.ref == ByName(n)
    requires forall q: Request | q.ref != ByName(n) :: net[q] == sys.net[q]
    ensures |net| >= 1 + 2 * WINDOW
  {
    var a, b := OtherTwo(sys.s.active, n);
    assert Loading(cfg, sys, a, contents[a]) && Loading(cfg, sys, b, contents[b]);
    ActiveIsKnown(cfg, src, sys.s, n);
    ActiveIsKnown(cfg, src, sys.s, a);
    ActiveIsKnown(cfg, src, sys.s, b);
    RefsDiffer(src, a, n);
    RefsDiffer(src, b, n);
    RefsDiffer(src, a, b);
    hide CountRef, PlainSource, Known, Placed, KnownRequest, Missing, Storable, Faithful, Hungry;
    CountSame(net, sys.net, Ref(src[a]));
    CountSame(net, sys.net, Ref(src[b]));
    UnaskedCounts(net, ByName(n));
    CountThreeRefs(net, ByName(n), Ref(src[a]), Ref(src[b]));
  }

  /**
    Three full windows and a file waiting: some run of good answers exceeds the limit exactly
    when one of the three files has a hole. And if none has, no run of any replies does.
   */
  lemma TwelveExactly(cfg: Config, src: map<string, PendingFile>, sys: Sys, contents: map<string, seq<Bytes>>)
    requires ThreeLoading(cfg, src, sys, contents)
    ensures (exists n :: n in sys.s.active && HasHole(sys.net, sys.s.active[n])) <==>
            exists events :: Replies(cfg, sys, events) && AllGood(cfg, events, contents)
                             && |NetRun(cfg, sys, events).net| > MAX_CONCURRENT_FILES * WINDOW
    ensures (forall n | n in sys.s.active :: !HasHole(sys.net, sys.s.active[n])) ==>
              forall events | Replies(cfg, sys, events) ::
                |NetRun(cfg, sys, events).net| <= MAX_CONCURRENT_FILES * WINDOW
  {
    hide ThreeLoading, HasHole, Replies, AllGood, NetRun, Calm;
    if n :| n in sys.s.active && HasHole(sys.net, sys.s.active[n]) {
      var events := HoleExceeds(cfg, src, sys, contents, n);
    } else {
      NoHoleIsCalm(cfg, src, sys, contents);
      forall events | Replies(cfg, sys, events)
        ensures |NetRun(cfg, sys, events).net| <= MAX_CONCURRENT_FILES * WINDOW
      {
        RepliesKeepTwelve(cfg, src, sys, events);
      }
    }
  }
}
