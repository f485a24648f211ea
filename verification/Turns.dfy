/**
  Which files an event starts, told from the state before it: the scheduler's turn takes the
  queue as the event leaves it, head first, and a head starts unless it is on disk or complete
  from local chunks.
 */
module Turns {
  import opened Basics
  import opened Reassembly
  import opened Download
  import opened TransferSafety
  import opened Network
  import opened Liveness

  /** The head of the queue is about to become a download. */
  ghost predicate HeadStarts(cfg: Config, s: State)
    requires s.queue != []
  {
    s.queue[0].name !in s.files && Missing(Reusable(cfg.P, s.files, s.queue[0]), s.queue[0].total) != []
  }

  /** What it starts as. */
  ghost function HeadTransfer(cfg: Config, s: State): Transfer
    requires s.queue != []
  {
    Begun(s.queue[0], Reusable(cfg.P, s.files, s.queue[0]))
  }

  /** Every head that starts in this turn is all right. */
  ghost predicate HeadsOk(cfg: Config, s: State, env: Env, ok: Transfer -> bool)
    decreases |s.queue|
  {
    |s.active| >= MAX_CONCURRENT_FILES || s.queue == [] || (
      && (HeadStarts(cfg, s) ==> ok(HeadTransfer(cfg, s)))
      && HeadsOk(cfg, StartOne(cfg, s, env).state, env, ok))
  }

  ghost predicate StartsOk(before: map<string, Transfer>, after: map<string, Transfer>, ok: Transfer -> bool) {
    forall n | n in after && n !in before :: ok(after[n])
  }

  lemma OneStart(cfg: Config, s: State, env: Env)
    requires Placed(s) && s.queue != []
    ensures StartOne(cfg, s, env).state.active ==
            if HeadStarts(cfg, s) then s.active[s.queue[0].name := HeadTransfer(cfg, s)] else s.active
    ensures s.queue[0].name !in s.active
  {
    hide Reusable, Missing, Begun;
  }

  lemma {:induction false} HeadsExactly(cfg: Config, s: State, env: Env, ok: Transfer -> bool)
    requires Placed(s)
    ensures HeadsOk(cfg, s, env, ok) <==> StartsOk(s.active, StartQueued(cfg, s, env).state.active, ok)
    decreases |s.queue|
  {
    if |s.active| < MAX_CONCURRENT_FILES && s.queue != [] {
      var first := StartOne(cfg, s, env).state;
      OneStart(cfg, s, env);
      StartOnePlaces(cfg, s, env);
      HeadsExactly(cfg, first, env, ok);
      StartQueuedAdds(cfg, first, env);
      StartQueuedUnfolds(cfg, s, env);
      hide StartOne, StartQueued, HeadStarts, HeadTransfer, Placed;
      if HeadStarts(cfg, s) {
        assert first.active[s.queue[0].name] == HeadTransfer(cfg, s);
      }
    }
  }

  // ── The turn in an event ────────────────────────────────────────────────

  /** The state in which the scheduler runs, if it does. */
  ghost function Turn(cfg: Config, s: State, e: NetEvent): Option<State> {
    match e
    case Listed(entries, _) => if entries == [] then None else Some(Enqueue(cfg, s, PlainFiles(entries)))
    case ListedSealed(entries, _) =>
      if cfg.key.None? || entries == [] then None
      else Some(Enqueue(cfg, s.(inbound := InboundIds(entries)), SealedFiles(entries)))
    case Answer(_, ref, index, data, env) =>
      (match OpenResponse(cfg, s, ref, index, data)
       case Arrived(name, chunk, digest) => Freed(cfg, s, name, Ask(ref, index).index, chunk, digest, env)
       case _ => None)
    case _ => None
  }

  /** A good last chunk whose file can be written frees a slot. */
  ghost function Freed(cfg: Config, s: State, name: string, index: nat, chunk: Bytes, digest: Bytes32, env: Env):
      Option<State>
    requires name in s.active
  {
    var t := s.active[name];
    if !(index < |t.file.hashes| && t.file.hashes[index] == digest) || name in env.failing then None else
    var t1 := Stored(t, index, chunk);
    var (r, files) := ReassembleOutcome(cfg.P, s.files, cfg.vault, t.file.name, t.file.total, t1.received, env.draw);
    if !CountedComplete(t1.received, t.file.total) || r.Err? then None
    else Some(Retired(s.(active := s.active[name := t1]), name, files))
  }

  /** Every file the event starts is all right. */
  ghost predicate TurnOk(cfg: Config, s: State, e: NetEvent, ok: Transfer -> bool) {
    Turn(cfg, s, e).Some? ==> HeadsOk(cfg, Turn(cfg, s, e).value, e.env, ok)
  }

  lemma AcceptTurn(cfg: Config, src: map<string, PendingFile>, s: State, n: string, via: FileRef, index: nat,
                   chunk: Bytes, digest: Bytes32, env: Env, ok: Transfer -> bool)
    requires WellFormed(src) && Known(cfg, src, s) && Placed(s) && n in s.active
    ensures var freed := Freed(cfg, s, n, index, chunk, digest, env);
      (freed.Some? ==> HeadsOk(cfg, freed.value, env, ok))
      <==> StartsOk(s.active, Accept(cfg, s, n, via, index, chunk, digest, env).state.active, ok)
  {
    hide StartQueued, ReassembleOutcome, Gather, Known, Placed, WellFormed, CountedComplete, HeadsOk;
    var t := s.active[n];
    if index < |t.file.hashes| && t.file.hashes[index] == digest {
      var s1 := s.(active := s.active[n := Stored(t, index, chunk)]);
      ActiveIsKnown(cfg, src, s, n);
      AfterStoringKnown(cfg, src, s, multiset{}, n, index, chunk);
      assert AfterStoring(s, multiset{}, n, index, chunk).s == s1;
      var freed := Freed(cfg, s, n, index, chunk, digest, env);
      if freed.Some? {
        RetiredPlaced(cfg, src, s1, n, freed.value.files);
        HeadsExactly(cfg, freed.value, env, ok);
        StartQueuedAdds(cfg, freed.value, env);
      }
    }
  }

  /** So it is known before the event whether the files it starts are all right. */
  lemma TurnExactly(cfg: Config, src: map<string, PendingFile>, sys: Sys, e: NetEvent, ok: Transfer -> bool)
    requires Sound(cfg, src, sys)
    ensures TurnOk(cfg, sys.s, e, ok) <==> StartsOk(sys.s.active, NetStep(cfg, sys, e).s.active, ok)
  {
    hide StartQueued, Enqueue, Accept, OpenResponse, OnTick, Known, Placed, WellFormed, KnownRequest, InboundIds,
        HeadsOk, Freed;
    match e
    case Lose(_) =>
    case Answer(_, ref, index, data, env) =>
      var a := OpenResponse(cfg, sys.s, ref, index, data);
      if a.Arrived? {
        AcceptTurn(cfg, src, sys.s, a.name, ref, Ask(ref, index).index, a.chunk, a.digest, env, ok);
      }
    case Silence(silent) => TickKeepsLog(sys.s, silent);
    case FolderChange(_) =>
    case Listed(entries, env) => OfferedTurn(cfg, sys.s, PlainFiles(entries), env, ok);
    case ListedSealed(entries, env) =>
      var s1 := sys.s.(inbound := InboundIds(entries));
      assert Placed(s1) by { SamePlaces(sys.s, s1); }
      OfferedTurn(cfg, s1, SealedFiles(entries), env, ok);
  }

  lemma OfferedTurn(cfg: Config, s: State, offered: seq<PendingFile>, env: Env, ok: Transfer -> bool)
    requires Placed(s)
    ensures var s1 := Enqueue(cfg, s, offered);
      HeadsOk(cfg, s1, env, ok) <==> StartsOk(s.active, StartQueued(cfg, s1, env).state.active, ok)
  {
    hide StartQueued, Enqueue, Placed, HeadsOk;
    EnqueueKeeps(cfg, s, offered);
    EnqueuePlaces(cfg, s, offered);
    HeadsExactly(cfg, Enqueue(cfg, s, offered), env, ok);
  }
}
