/**
  Recovery from lost requests: the window's edge never moves back, stall ticks ask for the
  smallest missing chunks, and few rounds of them finish a file.
 */
module Recovery {
  import opened Basics
  import opened Crypto
  import opened Paths
  import opened Reassembly
  import opened Download
  import opened TransferSafety
  import opened Network
  import opened Writing
  import opened Liveness

  // ── The edge never moves back, whatever arrives ─────────────────────────

  /** Downloads that are still there have lost nothing and their edge has not moved back. */
  ghost predicate Forward(before: map<string, Transfer>, after: map<string, Transfer>) {
    forall n | n in before && n in after ::
      && after[n].file == before[n].file
      && after[n].next >= before[n].next
      && before[n].received.Keys <= after[n].received.Keys
  }

  lemma CompleteForward(cfg: Config, s: State, name: string, env: Env)
    requires Placed(s) && name in s.active
    ensures Forward(s.active, Complete(cfg, s, name, env).state.active)
  {
    var files := CompleteCases(cfg, s, name, env);
    hide Complete;
    var s1 := Retired(s, name, files);
    SubsetSize(s1.active.Keys, s.active.Keys);
    assert |s1.active| == |s1.active.Keys| && |s.active| == |s.active.Keys|;
    StartQueuedAdds(cfg, s1, env);
  }

  lemma AcceptForward(cfg: Config, s: State, name: string, via: FileRef, index: nat, chunk: Bytes, digest: Bytes32,
          env: Env)
    requires Placed(s) && name in s.active
    ensures Forward(s.active, Accept(cfg, s, name, via, index, chunk, digest, env).state.active)
  {
    var s1 := s.(active := s.active[name := Stored(s.active[name], index, chunk)]);
    assert |s1.active| == |s1.active.Keys| && |s.active| == |s.active.Keys| && s1.active.Keys == s.active.Keys;
    hide Complete;
    CompleteForward(cfg, s1, name, env);
    StoredIsForward(s.active, name, index, chunk);
    ForwardTransitive(s.active, s1.active, Complete(cfg, s1, name, env).state.active);
    hide Forward;
  }

  lemma StoredIsForward(active: map<string, Transfer>, name: string, index: nat, chunk: Bytes)
    requires name in active
    ensures Forward(active, active[name := Stored(active[name], index, chunk)])
    ensures Forward(active, active)
  {
  }

  lemma ForwardTransitive(a: map<string, Transfer>, b: map<string, Transfer>, c: map<string, Transfer>)
    requires Forward(a, b) && Forward(b, c) && a.Keys <= b.Keys
    ensures Forward(a, c)
  {
  }

  lemma {:induction false} TickForward(s: State, silent: seq<string>)
    ensures Forward(s.active, OnTick(s, silent).state.active)
  {
    if silent != [] {
      TickForward(s, silent[..|silent| - 1]);
      TickKeepsLog(s, silent[..|silent| - 1]);
    }
  }

  /** In every step of every run. */
  lemma StepMovesForward(cfg: Config, s: State, e: Event)
    requires Scheduled(s)
    ensures Forward(s.active, Step(cfg, s, e).state.active)
  {
    hide StartQueued, Enqueue, Accept, OpenResponse, OnTick, InboundIds;
    match e
    case Manifest(entries, env) =>
      EnqueueKeeps(cfg, s, PlainFiles(entries));
      EnqueuePlaces(cfg, s, PlainFiles(entries));
      StartQueuedAdds(cfg, Enqueue(cfg, s, PlainFiles(entries)), env);
    case EncryptedManifest(entries, env) =>
      var s1 := s.(inbound := InboundIds(entries));
      EnqueueKeeps(cfg, s1, SealedFiles(entries));
      EnqueuePlaces(cfg, s1, SealedFiles(entries));
      StartQueuedAdds(cfg, Enqueue(cfg, s1, SealedFiles(entries)), env);
    case Response(ref, index, data, env) =>
      match OpenResponse(cfg, s, ref, index, data) {
        case Arrived(name, chunk, digest) =>
          AcceptForward(cfg, s, name, ref, Ask(ref, index).index, chunk, digest, env);
        case _ =>
      }
    case Tick(silent) => TickForward(s, silent);
    case Closed =>
    case FolderChanged(files) =>
  }

  // ── Rounds of re-requests, inside any run ───────────────────────────────

  ghost predicate Done(s: State, file: PendingFile) {
    exists k | 0 <= k < |s.log| :: s.log[k].Finished? && s.log[k].file == file
  }

  /** The file is being downloaded, lacks a chunk, and what it has can be written. */
  ghost predicate Going(cfg: Config, s: State, file: PendingFile) {
    && Scheduled(s) && file.name in s.active
    && var t := s.active[file.name];
    && t.file == file && Storable(cfg, t)
    && (forall i | i in t.received :: i < file.total)
    && Missing(t.received, file.total) != []
  }

  /** One hash per chunk and, in vault mode, what the format needs. */
  ghost predicate Suitable(cfg: Config, file: PendingFile) {
    && |file.hashes| == file.total
    && (cfg.vault.on ==> cfg.vault.key.Some? && SealsCorrectly(cfg.P) && !Unsafe(file.name) && file.total < U32)
  }

  /** The connection stays, writing this file does not fail, and chunks are not too big to be stored. */
  predicate Kind(cfg: Config, file: PendingFile, e: Event) {
    match e
    case Closed => false
    case Response(ref, index, data, env) =>
      && file.name !in env.failing
      && (match Opened(cfg, ref, index, data) case Some(chunk) => FitsRecord(cfg, chunk) case None => true)
    case _ => true
  }

  predicate AllKind(cfg: Config, file: PendingFile, events: seq<Event>) {
    forall k | 0 <= k < |events| :: Kind(cfg, file, events[k])
  }

  /** Finished, or still going with nothing lost. */
  ghost predicate NotBack(cfg: Config, s: State, s': State, file: PendingFile)
    requires file.name in s.active
  {
    || Done(s', file)
    || (Going(cfg, s', file) && s.active[file.name].received.Keys <= s'.active[file.name].received.Keys)
  }

  lemma DoneStays(s: State, s': State, file: PendingFile)
    requires Done(s, file) && s.log <= s'.log
    ensures Done(s', file)
  {
    var k :| 0 <= k < |s.log| && s.log[k].Finished? && s.log[k].file == file;
    assert s'.log[k] == s.log[k];
  }

  /** A complete file is written and reported finished. */
  lemma CompleteIsDone(cfg: Config, s: State, file: PendingFile, env: Env)
    requires Placed(s) && Suitable(cfg, file) && file.name in s.active && s.active[file.name].file == file
    requires Storable(cfg, s.active[file.name]) && file.name !in env.failing
    requires Missing(s.active[file.name].received, file.total) == []
    ensures Done(Complete(cfg, s, file.name, env).state, file) && s.log <= Complete(cfg, s, file.name, env).state.log
  {
    hide StartQueued, Gather, ReassembleOutcome, Missing;
    var t := s.active[file.name];
    WriteSucceeds(cfg, s.files, t, env.draw);
    var (_, files) := ReassembleOutcome(cfg.P, s.files, cfg.vault, t.file.name, t.file.total, t.received, env.draw);
    var s1 := Retired(s, file.name, files);
    SubsetSize(s1.active.Keys, s.active.Keys);
    assert |s1.active| == |s1.active.Keys| && |s.active| == |s.active.Keys|;
    assert s1.log[|s.log|] == Finished(file, Gather(t.received, file.total));
    StartQueuedAdds(cfg, s1, env);
    DoneStays(s1, StartQueued(cfg, s1, env).state, file);
  }

  /** Another file is completed: written or not, this one goes on. */
  lemma OtherCompletes(cfg: Config, s: State, m: string, file: PendingFile, env: Env)
    requires Placed(s) && m in s.active && m != file.name && file.name in s.active
    ensures var s' := Complete(cfg, s, m, env).state;
      file.name in s'.active && s'.active[file.name] == s.active[file.name] && s.log <= s'.log
  {
    hide Complete, StartQueued;
    var files := CompleteCases(cfg, s, m, env);
    var s1 := Retired(s, m, files);
    SubsetSize(s1.active.Keys, s.active.Keys);
    assert |s1.active| == |s1.active.Keys| && |s.active| == |s.active.Keys|;
    StartQueuedAdds(cfg, s1, env);
  }

  lemma StoringGoesOn(cfg: Config, s: State, m: string, index: nat, chunk: Bytes, file: PendingFile)
    requires Going(cfg, s, file) && Suitable(cfg, file) && m in s.active
    requires index < |s.active[m].file.hashes| && FitsRecord(cfg, chunk)
    ensures var s1 := s.(active := s.active[m := Stored(s.active[m], index, chunk)]);
      && Scheduled(s1) && s1.active[file.name].file == file && Storable(cfg, s1.active[file.name])
      && (forall i | i in s1.active[file.name].received :: i < file.total)
      && s.active[file.name].received.Keys <= s1.active[file.name].received.Keys
  {
    hide Missing;
    var s1 := s.(active := s.active[m := Stored(s.active[m], index, chunk)]);
    assert s1.active.Keys == s.active.Keys;
    assert |s1.active| == |s1.active.Keys| && |s.active| == |s.active.Keys|;
  }

  lemma AcceptGoesOn(cfg: Config, s: State, m: string, via: FileRef, index: nat, chunk: Bytes, digest: Bytes32,
      env: Env, file: PendingFile)
    requires Going(cfg, s, file) && Suitable(cfg, file) && m in s.active && FitsRecord(cfg, chunk)
        && file.name !in env.failing
    ensures var s' := Accept(cfg, s, m, via, index, chunk, digest, env).state;
      && NotBack(cfg, s, s', file) && s.log <= s'.log
      && (m == file.name && index < |file.hashes| && digest == file.hashes[index] ==>
            Done(s', file) || index in s'.active[file.name].received)
  {
    hide Complete, Missing, Storable, Suitable, Advance, Done;
    var t := s.active[m];
    if index < |t.file.hashes| && t.file.hashes[index] == digest {
      var s1 := s.(active := s.active[m := Stored(t, index, chunk)]);
      var s2 := Complete(cfg, s1, m, env).state;
      StoringGoesOn(cfg, s, m, index, chunk, file);
      if m == file.name {
        CountingWithinRange(s1.active[m].received, file.total);
        if Missing(s1.active[m].received, file.total) == [] { CompleteIsDone(cfg, s1, file, env); }
      } else {
        OtherCompletes(cfg, s1, m, file, env);
        CompleteSchedules(cfg, s1, m, env);
      }
    }
  }

  /** In every event the file stays as it is, comes closer, or is finished. */
  lemma StepNotBack(cfg: Config, s: State, e: Event, file: PendingFile)
    requires Going(cfg, s, file) && Suitable(cfg, file) && Kind(cfg, file, e)
    ensures NotBack(cfg, s, Step(cfg, s, e).state, file) && s.log <= Step(cfg, s, e).state.log
  {
    hide StartQueued, Accept, OpenResponse, OnTick, Enqueue, InboundIds, Opened, Done, Storable, Missing, Suitable,
        FitsRecord;
    match e
    case Manifest(entries, env) =>
      var s1 := Enqueue(cfg, s, PlainFiles(entries));
      EnqueueGoesOn(cfg, s, PlainFiles(entries), env, file);
    case EncryptedManifest(entries, env) =>
      var s0 := s.(inbound := InboundIds(entries));
      EnqueueGoesOn(cfg, s0, SealedFiles(entries), env, file);
    case Response(ref, index, data, env) =>
      var a := OpenResponse(cfg, s, ref, index, data);
      if a.Arrived? {
        AcceptGoesOn(cfg, s, a.name, ref, Ask(ref, index).index, a.chunk, a.digest, env, file);
      }
    case Tick(silent) =>
      TickKeepsLog(s, silent);
      TickSchedules(s, silent);
      TickStorable(cfg, s, silent, file.name);
    case FolderChanged(files) =>
  }

  lemma TickStorable(cfg: Config, s: State, silent: seq<string>, n: string)
    requires n in s.active && Storable(cfg, s.active[n])
    ensures n in OnTick(s, silent).state.active && Storable(cfg, OnTick(s, silent).state.active[n])
  {
    TickKeepsLog(s, silent);
    hide OnTick;
  }

  lemma EnqueueGoesOn(cfg: Config, s: State, entries: seq<PendingFile>, env: Env, file: PendingFile)
    requires Placed(s) && file.name in s.active && s.active[file.name].file == file
        && Storable(cfg, s.active[file.name])
    requires (forall i | i in s.active[file.name].received :: i < file.total)
        && Missing(s.active[file.name].received, file.total) != []
    ensures var s' := StartQueued(cfg, Enqueue(cfg, s, entries), env).state;
      Going(cfg, s', file) && s'.active[file.name] == s.active[file.name] && s.log <= s'.log
  {
    hide StartQueued, Enqueue, Storable, Missing;
    EnqueueKeeps(cfg, s, entries);
    EnqueuePlaces(cfg, s, entries);
    var s1 := Enqueue(cfg, s, entries);
    StartQueuedAdds(cfg, s1, env);
    StartQueuedSchedules(cfg, s1, env);
  }

  lemma AcceptLog(cfg: Config, s: State, m: string, via: FileRef, index: nat, chunk: Bytes, digest: Bytes32, env: Env)
    requires Scheduled(s) && m in s.active
    ensures s.log <= Accept(cfg, s, m, via, index, chunk, digest, env).state.log
  {
    hide StartQueued, Complete, Advance, CountedComplete;
    var s1 := s.(active := s.active[m := Stored(s.active[m], index, chunk)]);
    assert s1.active.Keys == s.active.Keys;
    assert |s1.active| == |s1.active.Keys| && |s.active| == |s.active.Keys|;
    var files := CompleteCases(cfg, s1, m, env);
    var s2 := Retired(s1, m, files);
    SubsetSize(s2.active.Keys, s1.active.Keys);
    assert |s2.active| == |s2.active.Keys|;
    StartQueuedAdds(cfg, s2, env);
  }

  lemma LogOnlyGrows(cfg: Config, s: State, e: Event)
    requires Scheduled(s) && !e.Closed?
    ensures s.log <= Step(cfg, s, e).state.log
  {
    hide StartQueued, OpenResponse, OnTick, Enqueue, InboundIds, Accept;
    match e
    case Manifest(entries, env) =>
      EnqueueKeeps(cfg, s, PlainFiles(entries));
      EnqueuePlaces(cfg, s, PlainFiles(entries));
      StartQueuedAdds(cfg, Enqueue(cfg, s, PlainFiles(entries)), env);
    case EncryptedManifest(entries, env) =>
      var s1 := s.(inbound := InboundIds(entries));
      EnqueueKeeps(cfg, s1, SealedFiles(entries));
      EnqueuePlaces(cfg, s1, SealedFiles(entries));
      StartQueuedAdds(cfg, Enqueue(cfg, s1, SealedFiles(entries)), env);
    case Response(ref, index, data, env) =>
      var a := OpenResponse(cfg, s, ref, index, data);
      if a.Arrived? { AcceptLog(cfg, s, a.name, ref, Ask(ref, index).index, a.chunk, a.digest, env); }
    case Tick(silent) => TickKeepsLog(s, silent);
    case FolderChanged(_) =>
  }

  /** So it is over any sequence of such events. */
  lemma {:induction false} RunNotBack(cfg: Config, s: State, events: seq<Event>, file: PendingFile)
    requires Scheduled(s) && Suitable(cfg, file) && AllKind(cfg, file, events) && (Done(s, file) || Going(cfg, s, file))
    ensures var s' := Run(cfg, s, events);
      Scheduled(s') && (if Done(s, file) then Done(s', file) else NotBack(cfg, s, s', file))
  {
    hide Step, Done, Going, Suitable, Kind, Scheduled;
    if events != [] {
      var rest, e := events[..|events| - 1], events[|events| - 1];
      var before := Run(cfg, s, rest);
      RunNotBack(cfg, s, rest, file);
      StepSchedules(cfg, before, e);
      assert Kind(cfg, file, e);
      NotClosed(cfg, file, e);
      if Done(before, file) {
        LogOnlyGrows(cfg, before, e);
        DoneStays(before, Step(cfg, before, e).state, file);
      } else {
        StepNotBack(cfg, before, e, file);
      }
    }
  }

  lemma NotClosed(cfg: Config, file: PendingFile, e: Event)
    requires Kind(cfg, file, e)
    ensures !e.Closed?
  {
  }

  /** A stall check, any events, an answer for chunk `index` of the file, and any events again. */
  datatype Round = Round(before: seq<Event>, index: nat, data: Bytes, env: Env, after: seq<Event>)

  ghost function Checked(s: State, file: PendingFile): State {
    OnTick(s, [file.name]).state
  }

  ghost function AtAnswer(cfg: Config, s: State, file: PendingFile, r: Round): State {
    Run(cfg, Checked(s, file), r.before)
  }

  ghost function AfterRound(cfg: Config, s: State, file: PendingFile, r: Round): State {
    Run(cfg, Step(cfg, AtAnswer(cfg, s, file, r), Response(Ref(file), r.index, r.data, r.env)).state, r.after)
  }

  /** The answer opens to a chunk of the file with the hash listed for its position. */
  predicate Answers(cfg: Config, s: State, file: PendingFile, index: nat, data: Bytes) {
    && Ask(Ref(file), index).index == index
    && var a := OpenResponse(cfg, s, Ref(file), index, data);
    a.Arrived? && a.name == file.name && index < |file.hashes| && a.digest == file.hashes[index]
  }

  /**
    The answer is to one of the chunks the stall check asked for and, if the file is still going
    when it comes, good.
   */
  ghost predicate GoodRound(cfg: Config, s: State, file: PendingFile, r: Round) {
    && AllKind(cfg, file, r.before) && AllKind(cfg, file, r.after)
    && Kind(cfg, file, Response(Ref(file), r.index, r.data, r.env))
    && (Going(cfg, s, file) ==> r.index in Again(s.active[file.name]))
    && (Going(cfg, AtAnswer(cfg, s, file, r), file) ==> Answers(cfg, AtAnswer(cfg, s, file, r), file, r.index, r.data))
  }

  ghost function MissingIn(s: State, file: PendingFile): nat
    requires file.name in s.active
  {
    |Missing(s.active[file.name].received, file.total)|
  }

  lemma FewerMissing(a: map<nat, Bytes>, b: map<nat, Bytes>, total: nat, i: nat)
    requires a.Keys <= b.Keys && i < total && i !in a && i in b
    requires forall j | j in b :: j < total
    ensures |Missing(b, total)| < |Missing(a, total)|
  {
    hide Missing;
    CountingWithinRange(a, total);
    CountingWithinRange(b, total);
    SubsetSize(a.Keys + {i}, b.Keys);
    assert |a| == |a.Keys| && |b| == |b.Keys|;
  }

  lemma CheckGoesOn(cfg: Config, s: State, file: PendingFile)
    requires Scheduled(s) && Suitable(cfg, file) && (Done(s, file) || Going(cfg, s, file))
    ensures Scheduled(Checked(s, file)) && (Done(s, file) ==> Done(Checked(s, file), file))
    ensures !Done(s, file) ==>
              && Going(cfg, Checked(s, file), file)
              && s.active[file.name].received == Checked(s, file).active[file.name].received
  {
    hide OnTick, Missing, Storable;
    TickSchedules(s, [file.name]);
    TickKeepsLog(s, [file.name]);
    if Going(cfg, s, file) { TickStorable(cfg, s, [file.name], file.name); }
    if Done(s, file) { DoneStays(s, Checked(s, file), file); }
  }

  lemma AnswerGoesOn(cfg: Config, s: State, file: PendingFile, index: nat, data: Bytes, env: Env)
    requires Going(cfg, s, file) && Suitable(cfg, file) && Kind(cfg, file, Response(Ref(file), index, data, env))
    requires Answers(cfg, s, file, index, data)
    ensures var s' := Step(cfg, s, Response(Ref(file), index, data, env)).state;
      && Scheduled(s') && NotBack(cfg, s, s', file)
      && (!Done(s', file) ==> index in s'.active[file.name].received)
  {
    hide Accept, OpenResponse, Opened, Done, Missing, Storable, Suitable, FitsRecord;
    var a := OpenResponse(cfg, s, Ref(file), index, data);
    AcceptGoesOn(cfg, s, a.name, Ref(file), index, a.chunk, a.digest, env, file);
    AcceptSchedules(cfg, s, a.name, Ref(file), index, a.chunk, a.digest, env);
  }

  /** A good round finishes the file or leaves at least one chunk fewer missing. */
  lemma RoundShrinks(cfg: Config, s: State, file: PendingFile, r: Round)
    requires Scheduled(s) && Suitable(cfg, file) && (Done(s, file) || Going(cfg, s, file)) && GoodRound(cfg, s, file, r)
    ensures var s' := AfterRound(cfg, s, file, r);
      && Scheduled(s')
      && (Done(s', file) || (Going(cfg, s', file) && !Done(s, file) && MissingIn(s', file) < MissingIn(s, file)))
  {
    hide Run, Step, Done, Suitable, Kind, Scheduled, Answers, OnTick, Missing, Storable;
    var s1, s2 := Checked(s, file), AtAnswer(cfg, s, file, r);
    var e := Response(Ref(file), r.index, r.data, r.env);
    var s3 := Step(cfg, s2, e).state;
    CheckGoesOn(cfg, s, file);
    RunNotBack(cfg, s1, r.before, file);
    StepSchedules(cfg, s2, e);
    if Done(s2, file) {
      LogOnlyGrows(cfg, s2, e);
      DoneStays(s2, s3, file);
    } else {
      AnswerGoesOn(cfg, s2, file, r.index, r.data, r.env);
    }
    RunNotBack(cfg, s3, r.after, file);
    var s4 := AfterRound(cfg, s, file, r);
    if !Done(s4, file) {
      AgainIsMissing(s.active[file.name]);
      FewerMissing(s.active[file.name].received, s4.active[file.name].received, file.total, r.index);
    }
  }

  ghost predicate GoodRounds(cfg: Config, s: State, file: PendingFile, rs: seq<Round>)
    decreases |rs|
  {
    rs == [] || (GoodRound(cfg, s, file, rs[0]) && GoodRounds(cfg, AfterRound(cfg, s, file, rs[0]), file, rs[1..]))
  }

  ghost function AfterRounds(cfg: Config, s: State, file: PendingFile, rs: seq<Round>): State
    decreases |rs|
  {
    if rs == [] then s else AfterRounds(cfg, AfterRound(cfg, s, file, rs[0]), file, rs[1..])
  }

  /**
    However many requests were lost, and whatever else happens in between: as many good rounds
    as there are missing chunks, each delivering just one chunk asked for again, finish the file.
   */
  lemma {:induction false} RoundsFinish(cfg: Config, s: State, file: PendingFile, rs: seq<Round>)
    requires Scheduled(s) && Suitable(cfg, file) && GoodRounds(cfg, s, file, rs)
    requires Done(s, file) || (Going(cfg, s, file) && |rs| >= MissingIn(s, file))
    ensures Done(AfterRounds(cfg, s, file, rs), file)
    decreases |rs|
  {
    hide GoodRound, AfterRound, Done, Scheduled, Suitable;
    if rs == [] {
      SomethingMissing(cfg, s, file);
    } else {
      RoundShrinks(cfg, s, file, rs[0]);
      RoundsFinish(cfg, AfterRound(cfg, s, file, rs[0]), file, rs[1..]);
    }
  }

  lemma SomethingMissing(cfg: Config, s: State, file: PendingFile)
    ensures Going(cfg, s, file) ==> MissingIn(s, file) > 0
  {
  }

  /** In the plaintext protocol without a key, an answer is good when its data has the listed hash. */
  lemma PlainChunkAnswers(cfg: Config, s: State, file: PendingFile, index: nat, data: Bytes)
    requires file.name in s.active && file.fileId.None? && cfg.key.None?
    ensures Answers(cfg, s, file, index, data) <==> index < |file.hashes| && cfg.P.hash(data) == file.hashes[index]
  {
  }

  // ── How many requests can be out ────────────────────────────────────────

  /** The requests for one file among those in flight. */
  ghost function CountRef(net: multiset<Request>, ref: FileRef): nat
    decreases |net|
  {
    if net == multiset{} then 0 else
    var q :| q in net;
    (if q.ref == ref then 1 else 0) + CountRef(net - multiset{q}, ref)
  }

  lemma RemoveTwo(net: multiset<Request>, p: Request, q: Request)
    ensures net - multiset{q} - multiset{p} == net - multiset{p} - multiset{q}
  {
  }

  lemma {:induction false} CountWithout(net: multiset<Request>, ref: FileRef, p: Request)
    requires p in net
    ensures CountRef(net, ref) == (if p.ref == ref then 1 else 0) + CountRef(net - multiset{p}, ref)
    decreases |net|
  {
    var q :| q in net && CountRef(net, ref) == (if q.ref == ref then 1 else 0) + CountRef(net - multiset{q}, ref);
    if q != p {
      CountWithout(net - multiset{q}, ref, p);
      CountWithout(net - multiset{p}, ref, q);
      RemoveTwo(net, p, q);
    }
  }

  function CountSent(sent: seq<Request>, ref: FileRef): nat {
    if sent == [] then 0 else CountSent(sent[..|sent| - 1], ref) + if sent[|sent| - 1].ref == ref then 1 else 0
  }

  lemma {:induction false} CountPlus(net: multiset<Request>, sent: seq<Request>, ref: FileRef)
    ensures CountRef(net + multiset(sent), ref) == CountRef(net, ref) + CountSent(sent, ref)
  {
    if sent == [] {
      assert net + multiset([]) == net;
    } else {
      var rest, last := sent[..|sent| - 1], sent[|sent| - 1];
      CountPlus(net, rest, ref);
      hide CountRef;
      assert sent == rest + [last];
      CountWithout(net + multiset(sent), ref, last);
      assert net + multiset(sent) - multiset{last} == net + multiset(rest);
    }
  }

  lemma {:induction false} CountSentPlus(a: seq<Request>, b: seq<Request>, ref: FileRef)
    ensures CountSent(a + b, ref) == CountSent(a, ref) + CountSent(b, ref)
  {
    if b == [] {
      assert a + b == a;
    } else {
      CountSentPlus(a, b[..|b| - 1], ref);
      assert (a + b)[..|a + b| - 1] == a + b[..|b| - 1];
    }
  }

  lemma {:induction false} CountAsked(to: FileRef, idx: seq<nat>, ref: FileRef)
    ensures CountSent(AskAll(to, idx), ref) == if to == ref then |idx| else 0
  {
    if idx != [] {
      CountAsked(to, idx[..|idx| - 1], ref);
      assert AskAll(to, idx)[..|idx| - 1] == AskAll(to, idx[..|idx| - 1]);
    }
  }

  /** One when the step put the file into the table of downloads. */
  function Started(before: map<string, Transfer>, after: map<string, Transfer>, n: string): nat {
    if n in after && n !in before then 1 else 0
  }

  /** The scheduler sends at most one window for a file, and only when it starts it. */
  lemma {:induction false} StartQueuedSends(cfg: Config, src: map<string, PendingFile>, s: State, env: Env, n: string)
    requires WellFormed(src) && Known(cfg, src, s) && Placed(s) && n in src
    ensures var o := StartQueued(cfg, s, env);
      CountSent(o.sent, Ref(src[n])) <= WINDOW * Started(s.active, o.state.active, n)
    decreases |s.queue|
  {
    assert s.queue != [] ==> FileKnown(cfg, src, s.inbound, s.queue[0]) && s.queue[0].name !in s.active;
    hide StartOne, Known, AskAll, Missing, Reusable, Begun, Placed, WellFormed, FirstWindow;
    if |s.active| < MAX_CONCURRENT_FILES && s.queue != [] {
      var file, first := s.queue[0], StartOne(cfg, s, env);
      StartOneCases(cfg, s, env);
      StartOneKnown(cfg, src, s, env);
      StartOnePlaces(cfg, s, env);
      StartQueuedSends(cfg, src, first.state, env, n);
      StartQueuedAdds(cfg, first.state, env);
      CountSentPlus(first.sent, StartQueued(cfg, first.state, env).sent, Ref(src[n]));
      CountAsked(Ref(file), FirstWindow(Missing(Reusable(cfg.P, s.files, file), file.total)), Ref(src[n]));
      RefsDiffer(src, file.name, n);
    }
  }

  lemma CompleteSends(cfg: Config, src: map<string, PendingFile>, s: State, name: string, env: Env, n: string)
    requires WellFormed(src) && Known(cfg, src, s) && Placed(s) && n in src && name in s.active
    ensures var o := Complete(cfg, s, name, env);
      CountSent(o.sent, Ref(src[n])) <= WINDOW * Started(s.active, o.state.active, n)
  {
    var files := CompleteCases(cfg, s, name, env);
    hide Complete;
    var s1 := Retired(s, name, files);
    SubsetSize(s1.active.Keys, s.active.Keys);
    assert |s1.active| == |s1.active.Keys| && |s.active| == |s.active.Keys|;
    StartQueuedSends(cfg, src, s1, env, n);
    StartQueuedAdds(cfg, s1, env);
  }

  /** An answer is replaced by at most one request for the same file. */
  lemma AnswerSends(cfg: Config, src: map<string, PendingFile>, s: State, q: Request, data: Bytes, env: Env, n: string)
    requires WellFormed(src) && Known(cfg, src, s) && Placed(s) && KnownRequest(src, q) && n in src
    ensures var o := OnResponse(cfg, s, q.ref, q.index, data, env);
      CountSent(o.sent, Ref(src[n])) <= (if q.ref == Ref(src[n]) then 1 else 0)
          + WINDOW * Started(s.active, o.state.active, n)
  {
    var m :| m in src && Ref(src[m]) == q.ref;
    var a := OpenResponse(cfg, s, q.ref, q.index, data);
    AnswerResolves(cfg, src, s, m, q.index, data);
    RepeatsItself(src, q);
    ResponseCases(cfg, s, q, data, env);
    CountOne(q, Ref(src[n]));
    hide OpenResponse, OnResponse, Accept, KnownRequest, CountSent;
    if a.Arrived? {
      AcceptSends(cfg, src, s, m, q.index, a.chunk, a.digest, env, n);
    } else {
      assert CountSent([], Ref(src[n])) == 0 by { CountNone(Ref(src[n])); }
    }
  }

  lemma CountNone(ref: FileRef)
    ensures CountSent([], ref) == 0
  {
  }

  lemma CountOne(q: Request, ref: FileRef)
    ensures CountSent([q], ref) == if q.ref == ref then 1 else 0
  {
    assert [q][..0] == [];
  }

  lemma AcceptSends(cfg: Config, src: map<string, PendingFile>, s: State, m: string, index: nat, chunk: Bytes,
          digest: Bytes32, env: Env, n: string)
    requires WellFormed(src) && Known(cfg, src, s) && Placed(s) && n in src && m in s.active
    requires Ask(Ref(s.active[m].file), index) == Request(Ref(s.active[m].file), index)
    ensures var o := Accept(cfg, s, m, Ref(s.active[m].file), index, chunk, digest, env);
      CountSent(o.sent, Ref(src[n])) <= (if Ref(s.active[m].file) == Ref(src[n]) then 1 else 0)
          + WINDOW * Started(s.active, o.state.active, n)
  {
    var t := s.active[m];
    var asked := Advance(t, Ref(t.file));
    assert TransferKnown(cfg, src, s.inbound, t);
    AcceptCases(cfg, s, multiset{}, m, index, chunk, digest, env);
    CountOne(Request(Ref(t.file), index), Ref(src[n]));
    CountOne(Ask(Ref(t.file), t.next), Ref(src[n]));
    CountNone(Ref(src[n]));
    hide CountSent, Accept, Known, Complete, Placed;
    if index < |t.file.hashes| && t.file.hashes[index] == digest {
      AfterStoringKnown(cfg, src, s, multiset{}, m, index, chunk);
      var after := AfterStoring(s, multiset{}, m, index, chunk).s;
      CompleteSends(cfg, src, after, m, env, n);
      CountSentPlus(asked, Complete(cfg, after, m, env).sent, Ref(src[n]));
    }
  }

  /** How often a stall check looks at the file while it is being downloaded. */
  function Checks(active: map<string, Transfer>, silent: seq<string>, n: string): nat {
    if n in active then multiset(silent)[n] else 0
  }

  lemma {:induction false} TickSends(cfg: Config, src: map<string, PendingFile>, s: State, silent: seq<string>,
          n: string)
    requires WellFormed(src) && Known(cfg, src, s) && n in src
    ensures CountSent(OnTick(s, silent).sent, Ref(src[n])) <= WINDOW * Checks(s.active, silent, n)
  {
    if silent != [] {
      var rest, last := silent[..|silent| - 1], silent[|silent| - 1];
      var before := OnTick(s, rest);
      TickSends(cfg, src, s, rest, n);
      TickKnown(cfg, src, s, rest);
      TickKeepsLog(s, rest);
      CountSentPlus(before.sent, Stalled(before.state, last).sent, Ref(src[n]));
      StalledSends(cfg, src, before.state, last, n);
      assert silent == rest + [last];
    }
  }

  lemma StalledSends(cfg: Config, src: map<string, PendingFile>, s: State, m: string, n: string)
    requires WellFormed(src) && Known(cfg, src, s) && n in src
    ensures CountSent(Stalled(s, m).sent, Ref(src[n])) <= if m == n && n in s.active then WINDOW else 0
  {
    if m in s.active {
      var t := s.active[m];
      assert TransferKnown(cfg, src, s.inbound, t);
      CountAsked(Ref(t.file), Again(t), Ref(src[n]));
      RefsDiffer(src, m, n);
    }
  }

  /** The windows granted to a file by one event: starting it, and each stall check on it. */
  ghost function Grants(cfg: Config, sys: Sys, e: NetEvent, n: string): nat {
    Started(sys.s.active, NetStep(cfg, sys, e).s.active, n)
      + if e.Silence? then Checks(sys.s.active, e.silent, n) else 0
  }

  lemma StepSends(cfg: Config, src: map<string, PendingFile>, sys: Sys, e: NetEvent, n: string)
    requires Sound(cfg, src, sys) && Static(src, e) && AsRequested(e) && Enabled(sys, e) && !e.Lose? && n in src
    ensures var o := Step(cfg, sys.s, ToEvent(e));
      CountSent(o.sent, Ref(src[n])) <= WINDOW * (Started(sys.s.active, o.state.active, n)
                                                  + if e.Silence? then Checks(sys.s.active, e.silent, n) else 0)
                                        + if e.Answer? && e.req.ref == Ref(src[n]) then 1 else 0
  {
    hide OnResponse, OnManifest, OnEncryptedManifest, OnTick, KnownRequest, Known, WellFormed;
    match e
    case Answer(req, _, _, data, env) =>
      assert req in sys.net;
      AnswerSends(cfg, src, sys.s, req, data, env, n);
    case Silence(silent) => TickSends(cfg, src, sys.s, silent, n);
    case FolderChange(_) =>
    case Listed(entries, env) => PlainManifestSends(cfg, src, sys.s, entries, env, n);
    case ListedSealed(entries, env) => SealedManifestSends(cfg, src, sys.s, entries, env, n);
  }

  lemma PlainManifestSends(cfg: Config, src: map<string, PendingFile>, s: State, entries: seq<FileEntry>, env: Env,
          n: string)
    requires WellFormed(src) && Known(cfg, src, s) && Placed(s) && n in src && Static(src, Listed(entries, env))
    ensures var o := OnManifest(cfg, s, entries, env);
      CountSent(o.sent, Ref(src[n])) <= WINDOW * Started(s.active, o.state.active, n)
  {
    var files := PlainFiles(entries);
    EnqueueKnown(cfg, src, s, files);
    EnqueueKeeps(cfg, s, files);
    EnqueuePlaces(cfg, s, files);
    StartQueuedSends(cfg, src, Enqueue(cfg, s, files), env, n);
  }

  lemma SealedManifestSends(cfg: Config, src: map<string, PendingFile>, s: State, entries: seq<EncryptedEntry>,
          env: Env, n: string)
    requires WellFormed(src) && Known(cfg, src, s) && Placed(s) && n in src && Static(src, ListedSealed(entries, env))
    ensures var o := OnEncryptedManifest(cfg, s, entries, env);
      CountSent(o.sent, Ref(src[n])) <= WINDOW * Started(s.active, o.state.active, n)
  {
    if cfg.key.Some? {
      var s1, files := s.(inbound := InboundIds(entries)), SealedFiles(entries);
      NewIdsKeepKnown(cfg, src, s, entries);
      EnqueueKnown(cfg, src, s1, files);
      EnqueueKeeps(cfg, s1, files);
      EnqueuePlaces(cfg, s1, files);
      StartQueuedSends(cfg, src, Enqueue(cfg, s1, files), env, n);
    }
  }

  /** Outstanding requests for a file grow by at most one window per grant, losses or not. */
  lemma NetStepCount(cfg: Config, src: map<string, PendingFile>, sys: Sys, e: NetEvent, n: string)
    requires Sound(cfg, src, sys) && Static(src, e) && AsRequested(e) && Enabled(sys, e) && n in src
    ensures CountRef(NetStep(cfg, sys, e).net, Ref(src[n])) <= CountRef(sys.net, Ref(src[n]))
        + WINDOW * Grants(cfg, sys, e, n)
  {
    var ref := Ref(src[n]);
    match e
    case Lose(req) =>
      assert req in sys.net;
      CountWithout(sys.net, ref, req);
    case Answer(req, _, _, data, env) =>
      assert req in sys.net;
      CountWithout(sys.net, ref, req);
      StepSends(cfg, src, sys, e, n);
      CountPlus(sys.net - multiset{req}, Step(cfg, sys.s, ToEvent(e)).sent, ref);
    case _ =>
      StepSends(cfg, src, sys, e, n);
      NetStepOther(cfg, sys, e);
      CountPlus(sys.net, Step(cfg, sys.s, ToEvent(e)).sent, ref);
  }

  /** The sender's listing is static and answers match requests; losses and stalls may happen at any time. */
  ghost predicate Plausible(cfg: Config, src: map<string, PendingFile>, sys: Sys, events: seq<NetEvent>) {
    events == [] || (
      var rest, e := events[..|events| - 1], events[|events| - 1];
      Plausible(cfg, src, sys, rest) && Static(src, e) && AsRequested(e) && Enabled(NetRun(cfg, sys, rest), e))
  }

  ghost function AllGrants(cfg: Config, sys: Sys, events: seq<NetEvent>, n: string): nat {
    if events == [] then 0 else
    var rest := events[..|events| - 1];
    AllGrants(cfg, sys, rest, n) + Grants(cfg, NetRun(cfg, sys, rest), events[|events| - 1], n)
  }

  /**
    In every run, lossy or not, the requests out for a file never exceed one window for each
    time it was started and each stall tick on it.
   */
  lemma {:induction false} OutstandingIsBounded(cfg: Config, src: map<string, PendingFile>, files: map<string, Bytes>,
                                                events: seq<NetEvent>, n: string)
    requires WellFormed(src) && n in src && Plausible(cfg, src, Sys(Fresh(files), multiset{}), events)
    ensures var start := Sys(Fresh(files), multiset{});
      && Sound(cfg, src, NetRun(cfg, start, events))
      && CountRef(NetRun(cfg, start, events).net, Ref(src[n])) <= WINDOW * AllGrants(cfg, start, events, n)
  {
    var start := Sys(Fresh(files), multiset{});
    if events != [] {
      var rest, e := events[..|events| - 1], events[|events| - 1];
      hide NetStep, Sound, CountRef, Grants;
      OutstandingIsBounded(cfg, src, files, rest, n);
      NetStepCount(cfg, src, NetRun(cfg, start, rest), e, n);
      NetStepSound(cfg, src, NetRun(cfg, start, rest), e);
    }
  }
}
