/**
  In which layout a finished file lies. In vault mode a file that came over the network goes into
  a container; one whose chunks were all found locally is written plainly nevertheless.
 */
module Layouts {
  import opened Basics
  import opened Crypto
  import opened Listing
  import opened Reassembly
  import opened Download
  import opened TransferSafety

  /** In a container exactly if the vault is on and the file is one of those being downloaded. */
  ghost predicate LiesAs(cfg: Config, downloads: set<string>, files: map<string, Bytes>, file: PendingFile,
                         content: Bytes)
  {
    if cfg.vault.on && file.name in downloads
    then InContainer(cfg, files, file, content) else Plainly(files, file, content)
  }

  /** The outcomes from position `k` on lie so. */
  ghost predicate NewLie(cfg: Config, downloads: set<string>, s: State, k: nat) {
    forall j | k <= j < |s.log| && s.log[j].Finished? && |s.log[j].content| < U64 ::
      LiesAs(cfg, downloads, s.files, s.log[j].file, s.log[j].content)
  }

  lemma LiesStill(cfg: Config, downloads: set<string>, files: map<string, Bytes>, more: map<string, Bytes>,
                  file: PendingFile, content: Bytes)
    requires LiesAs(cfg, downloads, files, file, content) && Extends(files, more)
    ensures LiesAs(cfg, downloads, more, file, content)
  {
  }

  lemma LocalFileIsPlain(cfg: Config, files: map<string, Bytes>, file: PendingFile, received: map<nat, Bytes>, d: Draw)
    requires file.name !in files && Missing(received, file.total) == []
    ensures var (_, after) := ReassembleOutcome(cfg.P, files, NO_VAULT, file.name, file.total, received, d);
      Extends(files, after) && Plainly(after, file, Gather(received, file.total))
  {
    PlainReassembly(cfg.P, files, file.name, file.total, received, d, None);
  }

  lemma StartOneLies(cfg: Config, downloads: set<string>, s: State, env: Env, k: nat)
    requires s.queue != [] && s.queue[0].name !in downloads && NewLie(cfg, downloads, s, k)
    ensures NewLie(cfg, downloads, StartOne(cfg, s, env).state, k)
  {
    hide StartOne, Reusable, Begun, InContainer, Gather, ReassembleOutcome, Missing;
    var file, s' := s.queue[0], StartOne(cfg, s, env).state;
    var received := Reusable(cfg.P, s.files, file);
    StartOneOutcomes(cfg, s, env);
    if file.name !in s.files && Missing(received, file.total) == [] {
      LocalFileIsPlain(cfg, s.files, file, received, env.draw);
    }
    assert Extends(s.files, s'.files);
    forall j | k <= j < |s'.log| && s'.log[j].Finished? && |s'.log[j].content| < U64
      ensures LiesAs(cfg, downloads, s'.files, s'.log[j].file, s'.log[j].content)
    {
      if j < |s.log| { LiesStill(cfg, downloads, s.files, s'.files, s.log[j].file, s.log[j].content); }
    }
  }

  lemma {:induction false} StartQueuedLies(cfg: Config, downloads: set<string>, s: State, env: Env, k: nat)
    requires NewLie(cfg, downloads, s, k) && forall i | 0 <= i < |s.queue| :: s.queue[i].name !in downloads
    ensures NewLie(cfg, downloads, StartQueued(cfg, s, env).state, k)
    decreases |s.queue|
  {
    hide NewLie, StartOne;
    if |s.active| < MAX_CONCURRENT_FILES && s.queue != [] {
      StartOneLies(cfg, downloads, s, env, k);
      StartQueuedLies(cfg, downloads, StartOne(cfg, s, env).state, env, k);
    }
  }

  lemma ReassembledLies(cfg: Config, downloads: set<string>, files: map<string, Bytes>, t: Transfer, d: Draw)
    requires SealsCorrectly(cfg.P) && t.file.name in downloads
    ensures var (r, after) := ReassembleOutcome(cfg.P, files, cfg.vault, t.file.name, t.file.total, t.received, d);
      var content := Gather(t.received, t.file.total);
      r.Ok? && |content| < U64 ==> LiesAs(cfg, downloads, after, t.file, content)
  {
    var content := Gather(t.received, t.file.total);
    if Missing(t.received, t.file.total) == [] && |content| < U64 {
      if cfg.vault.on {
        if cfg.vault.key.Some? {
          VaultReassembly(cfg.P, files, t.file.name, t.file.total, t.received, d, cfg.vault.key.value);
        }
      } else {
        PlainReassembly(cfg.P, files, t.file.name, t.file.total, t.received, d, cfg.vault.key);
      }
    }
  }

  lemma CompleteLies(cfg: Config, downloads: set<string>, s: State, name: string, env: Env)
    requires SealsCorrectly(cfg.P) && name in s.active && s.active[name].file.name == name && name in downloads
    requires forall i | 0 <= i < |s.queue| :: s.queue[i].name !in downloads
    ensures NewLie(cfg, downloads, Complete(cfg, s, name, env).state, |s.log|)
  {
    hide ReassembleOutcome, Gather, LiesAs, StartQueued;
    var t := s.active[name];
    var (r, files) := ReassembleOutcome(cfg.P, s.files, cfg.vault, t.file.name, t.file.total, t.received, env.draw);
    ReassembledLies(cfg, downloads, s.files, t, env.draw);
    if name !in env.failing && r.Ok? {
      StartQueuedLies(cfg, downloads, Retired(s, name, files), env, |s.log|);
    }
  }

  /**
    Whenever an event reports a file finished, it lies in a container afterwards if the vault is
    on and the file was being downloaded, and plainly if not.
   */
  lemma StepLayout(cfg: Config, s: State, e: Event)
    requires SealsCorrectly(cfg.P) && Placed(s)
    ensures NewLie(cfg, s.active.Keys, Step(cfg, s, e).state, |s.log|)
  {
    hide StartQueued, Complete, LiesAs, OpenResponse, Enqueue, InboundIds, CountedComplete;
    match e
    case Manifest(entries, env) => OfferedLie(cfg, s, PlainFiles(entries), env);
    case EncryptedManifest(entries, env) =>
      var s1 := s.(inbound := InboundIds(entries));
      SamePlaces(s, s1);
      OfferedLie(cfg, s1, SealedFiles(entries), env);
    case Response(ref, index, data, env) =>
      match OpenResponse(cfg, s, ref, index, data) {
        case Arrived(name, chunk, digest) =>
          var s1 := s.(active := s.active[name := Stored(s.active[name], Ask(ref, index).index, chunk)]);
          CompleteLies(cfg, s.active.Keys, s1, name, env);
        case _ =>
      }
    case Tick(silent) => TickKeepsLog(s, silent);
    case Closed =>
    case FolderChanged(files) =>
  }

  lemma OfferedLie(cfg: Config, s: State, offered: seq<PendingFile>, env: Env)
    requires Placed(s)
    ensures NewLie(cfg, s.active.Keys, StartQueued(cfg, Enqueue(cfg, s, offered), env).state, |s.log|)
  {
    hide StartQueued, Enqueue, LiesAs;
    EnqueueKeeps(cfg, s, offered);
    EnqueuePlaces(cfg, s, offered);
    StartQueuedLies(cfg, s.active.Keys, Enqueue(cfg, s, offered), env, |s.log|);
  }
}
