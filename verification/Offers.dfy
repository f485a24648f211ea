/**
  What a manifest puts into the queue and in which order, what a response amounts to, and what is
  left of a connection once it has been closed.
 */
module Offers {
  import opened Basics
  import opened Crypto
  import opened Paths
  import opened Reassembly
  import opened Download

  // ── The queue ───────────────────────────────────────────────────────────

  /** Neither there, nor under way, nor waiting; a container counts for an encrypted entry in vault mode. */
  ghost predicate Lacking(cfg: Config, s: State, file: PendingFile) {
    && file.name !in s.files && file.name !in s.active
    && (file.fileId.Some? && cfg.vault.on ==> Vit(file.name) !in s.files)
    && forall k | 0 <= k < |s.queue| :: s.queue[k].name != file.name
  }

  /** Entry `k` is lacking, and it is the first of its name that is. */
  ghost predicate Picked(cfg: Config, s: State, entries: seq<PendingFile>, k: nat)
    requires k < |entries|
  {
    && Lacking(cfg, s, entries[k])
    && forall j | 0 <= j < k && entries[j].name == entries[k].name :: !Lacking(cfg, s, entries[j])
  }

  ghost function Picks(cfg: Config, s: State, entries: seq<PendingFile>, n: nat): seq<PendingFile>
    requires n <= |entries|
  {
    if n == 0 then []
    else Picks(cfg, s, entries, n - 1) + if Picked(cfg, s, entries, n - 1) then [entries[n - 1]] else []
  }

  /** A manifest queues exactly the entries lacking at its beginning, the first of each name, in its own order. */
  lemma {:induction false} QueuedInOrder(cfg: Config, s: State, entries: seq<PendingFile>)
    ensures Enqueue(cfg, s, entries).queue == s.queue + Picks(cfg, s, entries, |entries|)
    ensures Enqueue(cfg, s, entries) == s.(queue := Enqueue(cfg, s, entries).queue,
                                           queued := s.queued + Picks(cfg, s, entries, |entries|))
  {
    hide Wanted, Lacking;
    if entries != [] {
      var n, front := |entries| - 1, entries[..|entries| - 1];
      QueuedInOrder(cfg, s, front);
      SamePicks(cfg, s, entries, n);
      LackingAfter(cfg, s, front, entries[n]);
    }
  }

  lemma {:induction false} SamePicks(cfg: Config, s: State, entries: seq<PendingFile>, n: nat)
    requires n < |entries|
    ensures Picks(cfg, s, entries[..|entries| - 1], n) == Picks(cfg, s, entries, n)
  {
    hide Lacking;
    if n > 0 {
      SamePicks(cfg, s, entries, n - 1);
      var front := entries[..|entries| - 1];
      assert forall j | 0 <= j < n :: front[j] == entries[j];
    }
  }

  /** What is wanted after some entries was lacking before, and none of them with its name was. */
  lemma LackingAfter(cfg: Config, s: State, entries: seq<PendingFile>, file: PendingFile)
    ensures Wanted(cfg, Enqueue(cfg, s, entries), file) <==>
              Lacking(cfg, s, file) && forall j | 0 <= j < |entries| && entries[j].name == file.name ::
                !Lacking(cfg, s, entries[j])
  {
    WaitingAfter(cfg, s, entries, file.name);
    RestStays(cfg, s, entries);
    hide Enqueue;
  }

  lemma {:induction false} RestStays(cfg: Config, s: State, entries: seq<PendingFile>)
    ensures Enqueue(cfg, s, entries).files == s.files && Enqueue(cfg, s, entries).active == s.active
  {
    if entries != [] { RestStays(cfg, s, entries[..|entries| - 1]); }
  }

  lemma {:induction false} WaitingAfter(cfg: Config, s: State, entries: seq<PendingFile>, name: string)
    ensures InQueue(Enqueue(cfg, s, entries).queue, name) <==>
              InQueue(s.queue, name)
              || exists j | 0 <= j < |entries| && entries[j].name == name :: Lacking(cfg, s, entries[j])
  {
    if entries != [] {
      var front, last := entries[..|entries| - 1], entries[|entries| - 1];
      var before, after := Enqueue(cfg, s, front), Enqueue(cfg, s, entries);
      WaitingAfter(cfg, s, front, name);
      WaitingAfter(cfg, s, front, last.name);
      RestStays(cfg, s, front);
      assert entries == front + [last];
      OneMoreWaiting(before.queue, last, name);
      assert InQueue(after.queue, name) <==>
             InQueue(before.queue, name) || (name == last.name && Wanted(cfg, before, last));
      hide Enqueue;
    }
  }

  lemma OneMoreWaiting(queue: seq<PendingFile>, file: PendingFile, name: string)
    ensures InQueue(queue + [file], name) <==> InQueue(queue, name) || file.name == name
  {
    var all := queue + [file];
    assert all[|queue|] == file;
    assert forall k | 0 <= k < |queue| :: all[k] == queue[k];
  }

  // ── What a response amounts to ──────────────────────────────────────────

  /** The file a response is credited to. */
  function Target(cfg: Config, s: State, ref: FileRef): Option<string> {
    match ref
    case ByName(name) => Some(name)
    case ById(id) => if cfg.key.Some? then Get(s.inbound, id) else None
  }

  /**
    A response that cannot be credited is ignored. One that cannot be opened is asked for again,
    whether its file is being downloaded or not: garbage for a finished file goes on being asked
    for. One that opens counts only for a file being downloaded.
   */
  lemma ResponsesExactly(cfg: Config, s: State, ref: FileRef, index: nat, data: Bytes, env: Env)
    ensures var o, to, plain := OnResponse(cfg, s, ref, index, data, env), Target(cfg, s, ref),
                                Opened(cfg, ref, index, data);
      if to.None? then o == Out(s, [])
      else if plain.None? then o == Out(s, [Ask(ref, index)])
      else if to.value !in s.active then o == Out(s, [])
      else
        var file, i := s.active[to.value].file, Ask(ref, index).index;
        !(i < |file.hashes| && file.hashes[i] == DigestOf(cfg, ref, plain.value)) ==> o == Out(s, [Ask(ref, i)])
  {
    hide Decrypt, ChunkAad, BlindHash, StartQueued, Complete, Stored, Advance, CountedComplete;
  }

  /**
    A chunk with the listed digest is kept, whether it had come before or not, and as long as the
    file is not complete it moves the window by one place and asks for the chunk there, if there is
    one. Nothing else changes.
   */
  lemma TakenInExactly(cfg: Config, s: State, ref: FileRef, index: nat, data: Bytes, env: Env)
    requires Target(cfg, s, ref).Some? && Target(cfg, s, ref).value in s.active && Opened(cfg, ref, index, data).Some?
    requires var t, chunk := s.active[Target(cfg, s, ref).value], Opened(cfg, ref, index, data).value;
      var i := Ask(ref, index).index;
      && i < |t.file.hashes| && t.file.hashes[i] == DigestOf(cfg, ref, chunk)
      && |t.received.Keys + {i}| < t.file.total
    ensures var name, chunk := Target(cfg, s, ref).value, Opened(cfg, ref, index, data).value;
      var t, i := s.active[name], Ask(ref, index).index;
      OnResponse(cfg, s, ref, index, data, env) ==
      Out(s.(active := s.active[name := Transfer(t.file, t.received[i := chunk],
                                                 if t.next < t.file.total then t.next + 1 else t.next)]),
          if t.next < t.file.total then [Ask(ref, t.next)] else [])
  {
    hide Decrypt, ChunkAad, BlindHash, StartQueued, Complete;
    var name, chunk := Target(cfg, s, ref).value, Opened(cfg, ref, index, data).value;
    var received, i := s.active[name].received, Ask(ref, index).index;
    assert received[i := chunk].Keys == received.Keys + {i};
    assert |received[i := chunk]| == |received[i := chunk].Keys|;
  }

  /** What is compared with the listed hash: the hash, blinded if the request was by id. */
  function DigestOf(cfg: Config, ref: FileRef, chunk: Bytes): Bytes32 {
    match ref
    case ByName(_) => cfg.P.hash(chunk)
    case ById(_) => if cfg.key.Some? then BlindHash(cfg.P, cfg.key.value, cfg.P.hash(chunk)) else cfg.P.hash(chunk)
  }

  // ── A closed connection ─────────────────────────────────────────────────

  /** Nothing a response can say changes anything after the connection was closed. */
  lemma ClosedIgnoresAnswers(cfg: Config, s: State, ref: FileRef, index: nat, data: Bytes, env: Env)
    ensures var closed := Step(cfg, s, Closed).state;
      Step(cfg, closed, Response(ref, index, data, env)).state == closed
  {
    hide OnResponse, Opened, DigestOf;
    ResponsesExactly(cfg, Step(cfg, s, Closed).state, ref, index, data, env);
  }

  /** And a manifest finds the receiver as if the peer had never been connected, whatever was going on. */
  lemma ClosedStartsAfresh(cfg: Config, s: State, entries: seq<EncryptedEntry>, listed: seq<FileEntry>, env: Env)
    requires entries != [] && cfg.key.Some?
    ensures var closed, unused := Step(cfg, s, Closed).state, Fresh(s.files);
      && Step(cfg, closed, EncryptedManifest(entries, env)) == Step(cfg, unused, EncryptedManifest(entries, env))
      && Step(cfg, closed, Manifest(listed, env))
         == Step(cfg, unused.(inbound := s.inbound), Manifest(listed, env))
      && Step(cfg, s, Closed).sent == []
  {
    hide StartQueued, Enqueue, InboundIds;
    assert Step(cfg, s, Closed).state == Fresh(s.files).(inbound := s.inbound);
  }
}
