/**
  What the name checks achieve: reading a chunk, serving one and writing a container look at and
  touch nothing but files below the sync folder, whatever names a peer sends.
 */
module Containment {
  import opened Basics
  import opened Crypto
  import opened Paths
  import opened VaultFormat
  import opened VaultIo
  import opened Chunking
  import opened Listing
  import opened Reassembly
  import opened Serving

  /** The folders hold the same files below the root. */
  ghost predicate SameInside(files: map<string, Bytes>, others: map<string, Bytes>) {
    forall q | StaysInside(q) :: (q in files <==> q in others) && (q in files ==> files[q] == others[q])
  }

  /** And the same everywhere else. */
  ghost predicate SameOutside(files: map<string, Bytes>, others: map<string, Bytes>) {
    forall q | !StaysInside(q) :: (q in files <==> q in others) && (q in files ==> files[q] == others[q])
  }

  lemma NothingChanged(files: map<string, Bytes>)
    ensures SameInside(files, files) && SameOutside(files, files)
  {
    hide StaysInside;
  }

  /**
    A chunk is read only under a name that stays inside, and what is read does not depend on any
    file outside. The refusal of a name is exactly that of names that are not harmless.
   */
  lemma ReadsStayInside(P: Primitives, files: map<string, Bytes>, others: map<string, Bytes>, rel: string, i: nat,
                        vault: Vault)
    requires SameInside(files, others)
    ensures LocalChunk(P, files, rel, i, vault).Ok? ==> StaysInside(rel)
    ensures LocalChunk(P, files, rel, i, vault) == LocalChunk(P, others, rel, i, vault)
    ensures !Harmless(rel) ==> LocalChunk(P, files, rel, i, vault) == Err(UnsafePath)
  {
    hide Unsafe, Harmless, StaysInside, ReadChunk, PlainChunk;
    UnsafeExactly(rel);
    if Harmless(rel) { HarmlessStaysInside(rel); }
  }

  /** So a peer is served from below the root only, by name or by id. */
  lemma ServesInsideOnly(o: Sender, ids: map<Bytes16, string>, id: Bytes16, index: u32, name: string, i: nat,
                         nonce: Bytes12)
    ensures ServeEncrypted(o, ids, id, index, nonce).Ok? ==> id in ids && StaysInside(ids[id])
    ensures ServePlain(o.P, o.files, Some(o.key), name, i, nonce).Ok? ==> StaysInside(name)
    ensures ServePlain(o.P, o.files, None, name, i, nonce).Ok? ==> StaysInside(name)
  {
    hide LocalChunk, StaysInside, SameInside;
    NothingChanged(o.files);
    ReadsStayInside(o.P, o.files, o.files, name, i, NO_VAULT);
    if id in ids { ReadsStayInside(o.P, o.files, o.files, ids[id], index, o.vault); }
  }

  /** A container is written, and anything changed at all, only for a name that stays inside, and then inside. */
  lemma WritesStayInside(P: Primitives, files: map<string, Bytes>, rel: string, chunks: seq<Bytes>, s: Seal)
    ensures var (r, after) := WriteOutcome(P, files, rel, chunks, s);
      && (r.Ok? || after != files ==> StaysInside(rel) && StaysInside(Vit(rel)))
      && SameOutside(files, after)
      && (!Harmless(rel) ==> r == Err(UnsafePath) && after == files)
  {
    hide Unsafe, Harmless, StaysInside, Written, Container, FirstTooBig, Vit;
    UnsafeExactly(rel);
    if Harmless(rel) { HarmlessStaysInside(rel); }
  }

  /** The same of a download that ends in vault mode; nothing outside changes, whatever the peer called it. */
  lemma VaultDownloadsStayInside(P: Primitives, files: map<string, Bytes>, key: Option<Bytes32>, name: string,
                                 total: nat, received: map<nat, Bytes>, d: Draw)
    ensures var (r, after) := ReassembleOutcome(P, files, Vault(true, key), name, total, received, d);
      && (r.Ok? || after != files ==> StaysInside(name) && StaysInside(Vit(name)))
      && SameOutside(files, after)
  {
    hide WriteOutcome, StaysInside, SameOutside;
    NothingChanged(files);
    if key.Some? && Missing(received, total) == [] {
      WritesStayInside(P, files, name, ChunkList(received, total), Seal(key.value, d.uuid, d.nonces));
    }
  }
}
