/**
  A download whose file id has gone: a manifest replaces the table of ids, and a file that it
  leaves out keeps its slot and goes on asking, but gets nothing until it is listed again.
 */
module Orphans {
  import opened Basics
  import opened Reassembly
  import opened Download
  import opened TransferSafety
  import opened Network
  import opened Recovery

  /** The file is being downloaded, and no id leads to it. */
  ghost predicate CutOff(s: State, n: string) {
    n in s.active && forall id | id in s.inbound :: s.inbound[id] != n
  }

  /** Not listed again, not answered by name, and the connection stays. */
  predicate LeavesCutOff(n: string, e: Event) {
    match e
    case EncryptedManifest(entries, _) => forall k | 0 <= k < |entries| :: entries[k].name != n
    case Response(ref, _, _, _) => ref != ByName(n)
    case Closed => false
    case _ => true
  }

  /** A manifest cuts off exactly the downloads it does not list, whatever their ids were. */
  lemma {:induction false} ManifestCutsOff(entries: seq<EncryptedEntry>, n: string)
    ensures (forall id | id in InboundIds(entries) :: InboundIds(entries)[id] != n)
         <== (forall k | 0 <= k < |entries| :: entries[k].name != n)
  {
    if entries != [] { ManifestCutsOff(entries[..|entries| - 1], n); }
  }

  /** The download is as it was, and still cut off. */
  ghost predicate Unmoved(s: State, s': State, n: string)
    requires n in s.active
  {
    CutOff(s', n) && s'.active[n].file == s.active[n].file && s'.active[n].received == s.active[n].received
  }

  lemma AcceptUnmoved(cfg: Config, s: State, m: string, via: FileRef, index: nat, chunk: Bytes, digest: Bytes32,
      env: Env, n: string)
    requires Scheduled(s) && m in s.active && n in s.active && m != n
    ensures var s' := Accept(cfg, s, m, via, index, chunk, digest, env).state;
      n in s'.active && s'.active[n] == s.active[n]
  {
    hide Complete, Advance, CountedComplete;
    var s1 := s.(active := s.active[m := Stored(s.active[m], index, chunk)]);
    assert s1.active.Keys == s.active.Keys;
    assert |s1.active| == |s1.active.Keys| && |s.active| == |s.active.Keys|;
    assert s1.active[n].file.name == n;
    OtherCompletes(cfg, s1, m, s1.active[n].file, env);
  }

  lemma {:induction false} StartQueuedKeepsIds(cfg: Config, s: State, env: Env)
    ensures StartQueued(cfg, s, env).state.inbound == s.inbound
    decreases |s.queue|
  {
    if |s.active| < MAX_CONCURRENT_FILES && s.queue != [] {
      StartOneCases(cfg, s, env);
      hide StartOne;
      StartQueuedKeepsIds(cfg, StartOne(cfg, s, env).state, env);
    }
  }

  lemma AnswersKeepIds(cfg: Config, s: State, ref: FileRef, index: nat, data: Bytes, env: Env)
    ensures OnResponse(cfg, s, ref, index, data, env).state.inbound == s.inbound
  {
    hide StartQueued, OpenResponse, Complete, Advance, CountedComplete;
    var a := OpenResponse(cfg, s, ref, index, data);
    if a.Arrived? {
      var s1 := s.(active := s.active[a.name := Stored(s.active[a.name], Ask(ref, index).index, a.chunk)]);
      var files := CompleteCases(cfg, s1, a.name, env);
      StartQueuedKeepsIds(cfg, Retired(s1, a.name, files), env);
    }
  }

  lemma AnswerUnmoved(cfg: Config, s: State, ref: FileRef, index: nat, data: Bytes, env: Env, n: string)
    requires Scheduled(s) && CutOff(s, n) && ref != ByName(n)
    ensures Unmoved(s, OnResponse(cfg, s, ref, index, data, env).state, n)
  {
    AnswersKeepIds(cfg, s, ref, index, data, env);
    var a := OpenResponse(cfg, s, ref, index, data);
    assert a.Arrived? ==> a.name != n;
    hide OpenResponse, Accept;
    if a.Arrived? {
      AcceptUnmoved(cfg, s, a.name, ref, Ask(ref, index).index, a.chunk, a.digest, env, n);
    }
  }

  lemma ManifestUnmoved(cfg: Config, s: State, files: seq<PendingFile>, env: Env, n: string)
    requires Placed(s) && CutOff(s, n)
    ensures Unmoved(s, StartQueued(cfg, Enqueue(cfg, s, files), env).state, n)
  {
    hide StartQueued, Enqueue;
    EnqueueKeeps(cfg, s, files);
    EnqueuePlaces(cfg, s, files);
    StartQueuedAdds(cfg, Enqueue(cfg, s, files), env);
    StartQueuedKeepsIds(cfg, Enqueue(cfg, s, files), env);
  }

  lemma StepUnmoved(cfg: Config, s: State, e: Event, n: string)
    requires Scheduled(s) && CutOff(s, n) && LeavesCutOff(n, e)
    ensures Unmoved(s, Step(cfg, s, e).state, n)
  {
    hide StartQueued, Enqueue, OnResponse, OnTick, InboundIds;
    match e
    case Manifest(entries, env) => ManifestUnmoved(cfg, s, PlainFiles(entries), env, n);
    case EncryptedManifest(entries, env) =>
      var s1 := s.(inbound := InboundIds(entries));
      ManifestCutsOff(entries, n);
      assert Placed(s1);
      ManifestUnmoved(cfg, s1, SealedFiles(entries), env, n);
    case Response(ref, index, data, env) => AnswerUnmoved(cfg, s, ref, index, data, env, n);
    case Tick(silent) => TickKeepsLog(s, silent);
    case FolderChanged(_) =>
  }

  /** A manifest that leaves out a file being downloaded cuts it off. */
  lemma OmittedIsCutOff(cfg: Config, s: State, entries: seq<EncryptedEntry>, env: Env, n: string)
    requires Scheduled(s) && n in s.active && cfg.key.Some? && entries != []
    requires forall k | 0 <= k < |entries| :: entries[k].name != n
    ensures Unmoved(s, Step(cfg, s, EncryptedManifest(entries, env)).state, n)
  {
    hide StartQueued, Enqueue, InboundIds;
    var s1 := s.(inbound := InboundIds(entries));
    ManifestCutsOff(entries, n);
    assert Placed(s1);
    ManifestUnmoved(cfg, s1, SealedFiles(entries), env, n);
  }

  predicate AllLeaveCutOff(n: string, events: seq<Event>) {
    forall k | 0 <= k < |events| :: LeavesCutOff(n, events[k])
  }

  /**
    From then on, and until a manifest lists the file again: whatever else arrives, the
    download keeps its slot and its entry, and nothing it receives is kept.
   */
  lemma {:induction false} CutOffUntilListed(cfg: Config, s: State, n: string, events: seq<Event>)
    requires Scheduled(s) && CutOff(s, n) && AllLeaveCutOff(n, events)
    ensures Scheduled(Run(cfg, s, events)) && Unmoved(s, Run(cfg, s, events), n)
  {
    hide Step, Scheduled, LeavesCutOff;
    if events != [] {
      var rest, e := events[..|events| - 1], events[|events| - 1];
      CutOffUntilListed(cfg, s, n, rest);
      StepSchedules(cfg, Run(cfg, s, rest), e);
      StepUnmoved(cfg, Run(cfg, s, rest), e, n);
    }
  }

  /** And every stall check that finds it silent asks for the same chunks again. */
  lemma {:induction false} StallChecksKeepAsking(s: State, n: string, silent: seq<string>)
    requires n in s.active && n in silent
    ensures forall q | q in AskAll(Ref(s.active[n].file), Again(s.active[n])) :: q in OnTick(s, silent).sent
  {
    hide AskAll, Missing;
    var rest, last := silent[..|silent| - 1], silent[|silent| - 1];
    if n in rest {
      StallChecksKeepAsking(s, n, rest);
    } else {
      assert silent == rest + [last];
      TickKeepsLog(s, rest);
      assert last == n && Again(OnTick(s, rest).state.active[n]) == Again(s.active[n]);
      NothingToAsk(Ref(s.active[n].file));
    }
  }

  lemma NothingToAsk(ref: FileRef)
    ensures AskAll(ref, []) == []
  {
  }

  lemma SameAgain(s: State, s': State, n: string)
    requires n in s.active && Unmoved(s, s', n)
    ensures Again(s'.active[n]) == Again(s.active[n])
  {
  }

  /** Both together: in such a run each stall check on the file repeats the requests of the first. */
  lemma OrphansKeepAsking(cfg: Config, s: State, n: string, events: seq<Event>, silent: seq<string>)
    requires Scheduled(s) && CutOff(s, n) && AllLeaveCutOff(n, events) && n in silent
    ensures var o := Step(cfg, Run(cfg, s, events), Tick(silent));
      forall q | q in AskAll(Ref(s.active[n].file), Again(s.active[n])) :: q in o.sent
  {
    hide Again, AskAll, OnTick, Run;
    CutOffUntilListed(cfg, s, n, events);
    SameAgain(s, Run(cfg, s, events), n);
    StallChecksKeepAsking(Run(cfg, s, events), n, silent);
  }
}
