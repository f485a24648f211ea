/**
  Files that need not be downloaded: which chunks the scheduler takes from the folder, and that a
  file of which it finds every chunk there is written without a single request.
 */
module Reuse {
  import opened Basics
  import opened Crypto
  import opened Listing
  import opened Reassembly
  import opened Download

  /** Every announced chunk is listed and held locally. */
  ghost predicate AllHeld(P: Primitives, files: map<string, Bytes>, file: PendingFile) {
    file.fileId.None? && forall i | 0 <= i < file.total ::
      i < |file.hashes| && HeldLocally(P, files, file.hashes[i])
  }

  lemma AllHeldExactly(P: Primitives, files: map<string, Bytes>, file: PendingFile)
    ensures Missing(Reusable(P, files, file), file.total) == [] <==> file.total == 0 || AllHeld(P, files, file)
  {
    hide Reusable, HeldLocally;
    NoneMissing(Reusable(P, files, file), file.total);
    forall i | 0 <= i < file.total
      ensures i in Reusable(P, files, file) <==>
              file.fileId.None? && i < |file.hashes| && HeldLocally(P, files, file.hashes[i])
    {
      ReusableExactly(P, files, file, i);
    }
  }

  /** The file made of chunks that have the listed hashes. */
  ghost predicate MadeOf(P: Primitives, file: PendingFile, cs: seq<Bytes>, content: Bytes) {
    && |cs| == file.total <= |file.hashes| && content == Concat(cs)
    && forall i | 0 <= i < |cs| :: P.hash(cs[i]) == file.hashes[i]
  }

  lemma WrittenAsGathered(cfg: Config, s: State, file: PendingFile, received: map<nat, Bytes>, env: Env)
    requires file.name !in s.files && file.name !in env.failing && Missing(received, file.total) == []
    ensures var content := Gather(received, file.total);
      WrittenLocally(cfg, s, file, received, env)
      == s.(files := s.files[file.name := content], log := s.log + [Finished(file, content)])
  {
    hide Gather;
  }

  /**
    The turn of a file that is not in the folder: no request is sent exactly when it announces no
    chunk or all its chunks are held. Then it is finished at once and takes no slot; it is in the
    folder, made of chunks with the listed hashes, and every other file is as it was.
   */
  lemma HeldFilesCostNothing(cfg: Config, s: State, env: Env)
    requires s.queue != [] && s.queue[0].name !in s.files && s.queue[0].name !in env.failing
    ensures var file, o := s.queue[0], StartOne(cfg, s, env);
      && (o.sent == [] <==> file.total == 0 || AllHeld(cfg.P, s.files, file))
      && (o.sent == [] ==>
            && o.state.active == s.active
            && file.name in o.state.files
            && o.state.log == s.log + [Finished(file, o.state.files[file.name])]
            && o.state.files - {file.name} == s.files
            && (file.total > 0 ==> exists cs :: MadeOf(cfg.P, file, cs, o.state.files[file.name])))
      && (o.sent != [] ==> file.name in o.state.active && o.state.log == s.log && o.state.files == s.files)
  {
    var file := s.queue[0];
    var received := Reusable(cfg.P, s.files, file);
    AllHeldExactly(cfg.P, s.files, file);
    hide Reusable, AllHeld, MadeOf, Gather, Begun, WrittenLocally;
    if Missing(received, file.total) == [] {
      NoneMissing(received, file.total);
      WrittenAsGathered(cfg, Popped(s), file, received, env);
      if file.total > 0 { ReusedIsMadeOf(cfg.P, s.files, file); }
    }
  }

  lemma ReusedIsMadeOf(P: Primitives, files: map<string, Bytes>, file: PendingFile)
    requires file.total > 0 && forall i | 0 <= i < file.total :: i in Reusable(P, files, file)
    ensures var received := Reusable(P, files, file);
      MadeOf(P, file, ChunkList(received, file.total), Gather(received, file.total))
  {
    hide Reusable, HeldLocally;
    var received := Reusable(P, files, file);
    GatherComplete(received, file.total);
    hide Gather;
    forall i | 0 <= i < file.total ensures i < |file.hashes| && P.hash(received[i]) == file.hashes[i] {
      ReusableExactly(P, files, file, i);
    }
    assert file.total - 1 < |file.hashes|;
  }
}
