/**
  One file in transfer: which chunks are missing, and turning the received ones back into a
  file (src/storage.rs:66-116, 709-813).
 */
module Reassembly {
  import opened Basics
  import opened Crypto
  import opened Paths
  import opened VaultFormat
  import opened VaultIo
  import opened Chunking

  /** A manifest entry waiting to be downloaded. `fileId` is None in the plaintext protocol. */
  datatype PendingFile = PendingFile(
    name: string,
    total: nat,
    size: nat,
    hashes: seq<Bytes32>,
    fileId: Option<Bytes16>
  )

  /** A download in progress (`FileTransferState` with its metadata). */
  datatype Transfer = Transfer(file: PendingFile, received: map<nat, Bytes>, next: nat)

  // ── Missing chunks ──────────────────────────────────────────────────────

  /** The chunk numbers below `n` that have not been received, ascending. */
  function Missing(received: map<nat, Bytes>, n: nat): (m: seq<nat>)
    ensures forall i :: i in m <==> 0 <= i < n && i !in received
    ensures forall i, j | 0 <= i < j < |m| :: m[i] < m[j]
  {
    if n == 0 then [] else
    var rest := Missing(received, n - 1);
    assert forall j | 0 <= j < |rest| :: rest[j] in rest;
    if n - 1 in received then rest else rest + [n - 1]
  }

  lemma NoneMissing(received: map<nat, Bytes>, n: nat)
    ensures Missing(received, n) == [] <==> forall i | 0 <= i < n :: i in received
  {
    if Missing(received, n) != [] { assert Missing(received, n)[0] in Missing(received, n); }
  }

  function Below(n: nat): (s: set<nat>)
    ensures |s| == n && forall i: nat :: i in s <==> i < n
  {
    if n == 0 then {} else Below(n - 1) + {n - 1}
  }

  lemma BelowStep(keys: set<nat>, n: nat)
    ensures |keys * Below(n + 1)| == |keys * Below(n)| + if n in keys then 1 else 0
  {
    if n in keys {
      assert keys * Below(n + 1) == keys * Below(n) + {n};
    } else {
      assert keys * Below(n + 1) == keys * Below(n);
    }
  }

  lemma MissingStep(received: map<nat, Bytes>, n: nat)
    ensures |Missing(received, n + 1)| == |Missing(received, n)| + if n in received.Keys then 0 else 1
  {
  }

  lemma {:induction false} MissingCount(received: map<nat, Bytes>, n: nat)
    ensures |Missing(received, n)| + |received.Keys * Below(n)| == n
  {
    if n == 0 {
    } else {
      var i := n - 1;
      MissingCount(received, i);
      BelowStep(received.Keys, i);
      MissingStep(received, i);
      assert |Missing(received, n)| == |Missing(received, i)| + if i in received.Keys then 0 else 1;
    }
  }

  /** Comparing the number of received chunks with the total, as the receiver does. */
  predicate CountedComplete(received: map<nat, Bytes>, total: nat) {
    |received| >= total
  }

  lemma CountingWithinRange(received: map<nat, Bytes>, total: nat)
    requires forall i | i in received :: i < total
    ensures |received| + |Missing(received, total)| == total
    ensures CountedComplete(received, total) <==> Missing(received, total) == []
  {
    MissingCount(received, total);
    assert received.Keys * Below(total) == received.Keys;
    assert |received| == |received.Keys|;
  }

  /**
    Verified chunks have numbers below the number of listed hashes. Counting them tells
    completeness for every possible set of such chunks exactly when the entry lists no
    more hashes than it announces chunks, or announces none.
   */
  lemma CountingIsSoundExactly(hashes: nat, total: nat)
    ensures (forall received: map<nat, Bytes> | (forall i | i in received :: i < hashes) ::
               CountedComplete(received, total) <==> Missing(received, total) == [])
            <==> hashes <= total || total == 0
  {
    if hashes <= total {
      forall received: map<nat, Bytes> | forall i | i in received :: i < hashes
        ensures CountedComplete(received, total) <==> Missing(received, total) == []
      {
        CountingWithinRange(received, total);
      }
    } else if total > 0 {
      var empty: Bytes := [];
      var keys := Below(total + 1) - {0};
      var received := map i | i in keys :: empty;
      assert |received| == |received.Keys| && received.Keys == keys;
      assert 0 in Missing(received, total);
      assert CountedComplete(received, total) && Missing(received, total) != [];
    }
  }

  /** However many chunks there are already, one more never undoes completeness. */
  lemma CountingIsMonotone(received: map<nat, Bytes>, more: map<nat, Bytes>, total: nat)
    requires received.Keys <= more.Keys && CountedComplete(received, total)
    ensures CountedComplete(more, total)
  {
    SubsetSize(received.Keys, more.Keys);
    assert |received| == |received.Keys| && |more| == |more.Keys|;
  }

  // ── Gathering ───────────────────────────────────────────────────────────

  /** The received chunks below `n`, one after the other. */
  function Gather(received: map<nat, Bytes>, n: nat): Bytes {
    if n == 0 then []
    else if n - 1 in received then Gather(received, n - 1) + received[n - 1]
    else Gather(received, n - 1)
  }

  /** The chunks themselves, once none is missing. */
  function ChunkList(received: map<nat, Bytes>, n: nat): (cs: seq<Bytes>)
    requires forall i | 0 <= i < n :: i in received
    ensures |cs| == n
  {
    seq<Bytes>(n, i requires 0 <= i < n => received[i])
  }

  lemma {:induction false} GatherComplete(received: map<nat, Bytes>, n: nat)
    requires forall i | 0 <= i < n :: i in received
    ensures Gather(received, n) == Concat(ChunkList(received, n))
  {
    if n == 0 {
    } else {
      GatherComplete(received, n - 1);
      assert ChunkList(received, n)[..n - 1] == ChunkList(received, n - 1);
    }
  }

  // ── Writing the file ────────────────────────────────────────────────────

  /** What the clock and the generator supply to one reassembly. */
  datatype Draw = Draw(stamp: string, uuid: Bytes16, nonces: nat -> Bytes12)

  /** The folder after a differing file at `name` has been moved aside. */
  function MovedAside(files: map<string, Bytes>, name: string, incoming: Bytes, stamp: string): map<string, Bytes> {
    if name in files && files[name] != incoming
    then (files - {name})[ConflictName(name, stamp) := files[name]]
    else files
  }

  function Settled(received: map<nat, Bytes>, total: nat): (k: nat)
    ensures k <= total
  {
    var m := Missing(received, total);
    if m == [] then total else assert m[0] in m; m[0]
  }

  /** Result and folder of `reassemble_modal`. Plaintext chunks before the first gap are written. */
  function ReassembleOutcome(P: Primitives, files: map<string, Bytes>, vault: Vault, name: string,
                             total: nat, received: map<nat, Bytes>, d: Draw): (Result<string>, map<string, Bytes>)
  {
    var complete := Missing(received, total) == [];
    if vault.on then
      if vault.key.None? then (Err(NoVaultKey), files)
      else if !complete then (Err(MissingChunk), files)
      else WriteOutcome(P, files, name, ChunkList(received, total), Seal(vault.key.value, d.uuid, d.nonces))
    else
      var moved := MovedAside(files, name, Gather(received, total), d.stamp);
      (if complete then Ok(name) else Err(MissingChunk),
       moved[name := Gather(received, Settled(received, total))])
  }

  /** The vault branch's loop over the received chunks. */
  method CollectChunks(total: nat, received: map<nat, Bytes>) returns (r: Result<seq<Bytes>>)
    ensures if Missing(received, total) == [] then r == Ok(ChunkList(received, total)) else r == Err(MissingChunk)
  {
    var chunks: seq<Bytes> := [];
    for i := 0 to total
      invariant forall j | 0 <= j < i :: j in received
      invariant chunks == ChunkList(received, i)
    {
      if i !in received {
        assert i in Missing(received, total);
        return Err(MissingChunk);
      }
      chunks := chunks + [received[i]];
    }
    NoneMissing(received, total);
    return Ok(chunks);
  }

  method ReassembleModal(P: Primitives, folder: Folder, vault: Vault, name: string,
                         total: nat, received: map<nat, Bytes>, d: Draw) returns (r: Result<string>)
    modifies folder
    ensures (r, folder.files) == ReassembleOutcome(P, old(folder.files), vault, name, total, received, d)
  {
    hide WriteOutcome, ConflictName, ChunkList;
    if vault.on {
      if vault.key.None? {
        return Err(NoVaultKey);
      }
      var chunks := CollectChunks(total, received);
      if chunks.Err? {
        return Err(chunks.error);
      }
      r := folder.VaultWrite(P, name, chunks.value, Seal(vault.key.value, d.uuid, d.nonces));
      return;
    }
    var incoming: Bytes := [];
    for i := 0 to total
      invariant incoming == Gather(received, i)
    {
      if i in received {
        incoming := incoming + received[i];
      }
    }
    if name in folder.files && folder.files[name] != incoming {
      var existing := folder.files[name];
      folder.files := (folder.files - {name})[ConflictName(name, d.stamp) := existing];
    }
    ghost var moved := folder.files;
    var out: Bytes := [];
    folder.files := folder.files[name := out];
    for i := 0 to total
      invariant forall j | 0 <= j < i :: j in received
      invariant out == Gather(received, i)
      invariant folder.files == moved[name := out]
    {
      if i !in received {
        FirstGap(received, total, i);
        return Err(MissingChunk);
      }
      out := out + received[i];
      folder.files := folder.files[name := out];
    }
    NoneMissing(received, total);
    return Ok(name);
  }

  lemma FirstGap(received: map<nat, Bytes>, total: nat, i: nat)
    requires i < total && i !in received && forall j | 0 <= j < i :: j in received
    ensures Missing(received, total) != [] && Settled(received, total) == i
  {
    var m := Missing(received, total);
    assert i in m;
    assert m[0] in m;
  }

  // ── What reassembly promises ────────────────────────────────────────────

  /** A complete transfer into the plaintext layout. */
  lemma PlainReassembly(P: Primitives, files: map<string, Bytes>, name: string,
                        total: nat, received: map<nat, Bytes>, d: Draw, key: Option<Bytes32>)
    requires Missing(received, total) == []
    ensures var (r, after) := ReassembleOutcome(P, files, Vault(false, key), name, total, received, d);
      var incoming, aside := Gather(received, total), ConflictName(name, d.stamp);
      var conflict := name in files && files[name] != incoming;
      && r == Ok(name)
      && name in after && after[name] == incoming
      // a differing previous version survives under the conflict name
      && (conflict ==> aside in after && after[aside] == files[name])
      // the same content again changes nothing
      && (name in files && !conflict ==> after == files)
      // and all other files stay exactly when the conflict name was free or held that version already
      && ((forall q | q in files && q != name :: q in after && after[q] == files[q])
          <==> !(conflict && aside in files && files[aside] != files[name]))
  {
    ConflictNameDiffers(name, d.stamp);
  }

  /**
    A transfer with a gap into the plaintext layout fails, and leaves the chunks before the first
    gap under the name. A previous version that differs from all that came in is kept all the same.
   */
  lemma GapLeavesFront(P: Primitives, files: map<string, Bytes>, name: string,
                       total: nat, received: map<nat, Bytes>, d: Draw, key: Option<Bytes32>, gap: nat)
    requires gap < total && gap !in received && forall i | 0 <= i < gap :: i in received
    ensures var (r, after) := ReassembleOutcome(P, files, Vault(false, key), name, total, received, d);
      var aside := ConflictName(name, d.stamp);
      var conflict := name in files && files[name] != Gather(received, total);
      && r == Err(MissingChunk)
      && name in after && after[name] == Concat(ChunkList(received, gap))
      && (conflict ==> aside in after && after[aside] == files[name])
      && forall q | q != name && !(conflict && q == aside) :: Get(after, q) == Get(files, q)
  {
    ConflictNameDiffers(name, d.stamp);
    FirstGap(received, total, gap);
    GatherComplete(received, gap);
    hide Gather, ConflictName, ChunkList;
  }

  /** In vault mode a transfer with a gap, or without a key, changes nothing. */
  lemma GapKeepsVault(P: Primitives, files: map<string, Bytes>, vault: Vault, name: string, total: nat,
                      received: map<nat, Bytes>, d: Draw)
    requires vault.on && (vault.key.None? || exists i :: 0 <= i < total && i !in received)
    ensures var (r, after) := ReassembleOutcome(P, files, vault, name, total, received, d);
      r == Err(if vault.key.None? then NoVaultKey else MissingChunk) && after == files
  {
    NoneMissing(received, total);
  }

  /** Every block of a stored container starts with the nonce drawn for its chunk. */
  lemma StoredNonces(P: Primitives, files: map<string, Bytes>, name: string, total: nat, received: map<nat, Bytes>,
                     d: Draw, key: Bytes32, i: nat)
    requires SealsCorrectly(P) && i < total && |Gather(received, total)| < U64
    requires ReassembleOutcome(P, files, Vault(true, Some(key)), name, total, received, d).0.Ok?
    ensures var after := ReassembleOutcome(P, files, Vault(true, Some(key)), name, total, received, d).1;
      Vit(name) in after && NonceAt(after[Vit(name)], i) == Some(d.nonces(i))
  {
    hide Container, NonceAt, Gather, Fits, WriteOutcome;
    NoneMissing(received, total);
    GatherComplete(received, total);
    var s, chunks := Seal(key, d.uuid, d.nonces), ChunkList(received, total);
    WriteThenRead(P, files, name, chunks, s);
    NonceReached(P, s, chunks, i);
  }

  /**
    A complete transfer into the vault layout: within the format's limits the container
    exports to the gathered bytes. No copy of a previous container is kept.
   */
  lemma VaultReassembly(P: Primitives, files: map<string, Bytes>, name: string,
                        total: nat, received: map<nat, Bytes>, d: Draw, key: Bytes32)
    requires SealsCorrectly(P) && Missing(received, total) == []
    requires |Gather(received, total)| < U64
    ensures var (r, after) := ReassembleOutcome(P, files, Vault(true, Some(key)), name, total, received, d);
      && (r.Ok? <==> !Unsafe(name) && total < U32 && forall i | i in received && i < total :: |received[i]| + 28 < U32)
      && after - {Vit(name)} == files - {Vit(name)}
      && (r.Ok? ==> Vit(name) in after && HoldsExactly(P, key, d.uuid, after[Vit(name)], total,
          Gather(received, total)))
  {
    var s, chunks := Seal(key, d.uuid, d.nonces), ChunkList(received, total);
    GatherComplete(received, total);
    WriteThenRead(P, files, name, chunks, s);
    assert (forall i | 0 <= i < |chunks| :: |chunks[i]| + 28 < U32)
           <==> (forall i | i in received && i < total :: |received[i]| + 28 < U32) by {
      if forall i | 0 <= i < |chunks| :: |chunks[i]| + 28 < U32 {
        forall i | i in received && i < total ensures |received[i]| + 28 < U32 {
          assert chunks[i] == received[i];
        }
      }
    }
    if |chunks| < U32 && Fits(P, s, chunks) {
      RoundTrip(P, s, chunks);
    }
  }

  /**
    Only the vault branch looks at the name. Within the limits of the format the two layouts
    accept the same complete transfers exactly when the name is harmless; for any other name the
    plaintext branch writes there.
   */
  lemma LayoutsAgreeOnSafeNames(P: Primitives, files: map<string, Bytes>, name: string,
                                total: nat, received: map<nat, Bytes>, d: Draw, key: Bytes32)
    requires SealsCorrectly(P) && Missing(received, total) == [] && |Gather(received, total)| < U64
    requires total < U32 && forall i | i in received && i < total :: |received[i]| + 28 < U32
    ensures var (plain, plainly) := ReassembleOutcome(P, files, Vault(false, None), name, total, received, d);
      var (sealed, _) := ReassembleOutcome(P, files, Vault(true, Some(key)), name, total, received, d);
      && (plain.Ok? == sealed.Ok? <==> Harmless(name))
      && name in plainly && plainly[name] == Gather(received, total)
  {
    PlainReassembly(P, files, name, total, received, d, None);
    VaultReassembly(P, files, name, total, received, d, key);
    UnsafeExactly(name);
    hide Harmless, ReassembleOutcome, Gather, Unsafe, HoldsExactly;
  }

  /** The container reads as file `uuid` of `count` chunks and exports to `content`. */
  ghost predicate HoldsExactly(P: Primitives, key: Bytes32, uuid: Bytes16, data: Bytes, count: u32, content: Bytes) {
    ReadHeader(data) == Ok(Header(uuid, count, |content|)) && ExportAt(P, key, uuid, data, count) == Ok(content)
  }
}
