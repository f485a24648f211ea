/**
  Passing files on in vault mode: a file that was received into a container is listed, offered and
  served to the next node exactly as it was listed, offered and served to this one.
 */
module Relay {
  import opened Basics
  import opened Crypto
  import opened Paths
  import opened VaultFormat
  import opened VaultIo
  import opened Chunking
  import opened Listing
  import opened Reassembly
  import opened Download
  import opened Serving
  import opened EndToEnd

  /** What is stored for a complete transfer is a container of our own. */
  lemma StoredIsOwn(P: Primitives, files: map<string, Bytes>, name: string, total: nat, received: map<nat, Bytes>,
                    d: Draw, key: Bytes32)
    requires SealsCorrectly(P) && |Gather(received, total)| < U64
    requires ReassembleOutcome(P, files, Vault(true, Some(key)), name, total, received, d).0.Ok?
    ensures var after := ReassembleOutcome(P, files, Vault(true, Some(key)), name, total, received, d).1;
      var s := Seal(key, d.uuid, d.nonces);
      && Missing(received, total) == [] && (forall i | 0 <= i < total :: i in received) && Harmless(name)
      && Fits(P, s, ChunkList(received, total))
      && Vit(name) in after && after[Vit(name)] == Container(P, s, ChunkList(received, total))
  {
    hide Container, Gather, Fits, WriteOutcome, Harmless, Unsafe;
    NoneMissing(received, total);
    GatherComplete(received, total);
    UnsafeExactly(name);
    WriteThenRead(P, files, name, ChunkList(received, total), Seal(key, d.uuid, d.nonces));
  }

  /** The node after it has stored the file, as a sender under some transport key. */
  function Keeper(P: Primitives, files: map<string, Bytes>, name: string, total: nat, received: map<nat, Bytes>,
                  d: Draw, vaultKey: Bytes32, key: Bytes32): Sender
  {
    var vault := Vault(true, Some(vaultKey));
    Sender(P, ReassembleOutcome(P, files, vault, name, total, received, d).1, vault, key)
  }

  /**
    The file received is in the listing of the node from then on, with the count, the size and the
    hashes of the chunks received, and exactly these chunks are served for it.
   */
  lemma ReceivedFilesAreServed(P: Primitives, files: map<string, Bytes>, name: string, total: nat,
                               received: map<nat, Bytes>, d: Draw, vaultKey: Bytes32, key: Bytes32)
    returns (k: nat)
    requires SealsCorrectly(P) && |Gather(received, total)| < U64 && FileName(name) != ""
    requires ReassembleOutcome(P, files, Vault(true, Some(vaultKey)), name, total, received, d).0.Ok?
    ensures var o := Keeper(P, files, name, total, received, d, vaultKey, key);
      var listing := VaultListing(o.files);
      && (forall i | 0 <= i < total :: i in received)
      && k < |listing|
      && listing[k] == FileMetadata(name, total, |Gather(received, total)|,
                                    HashesOf(P, ChunkList(received, total)), true)
      && Serves(o, listing[k], ChunkList(received, total))
  {
    hide Container, Gather, Fits, ReassembleOutcome, ListVault, Harmless, Unsafe, Serves, HashesOf, VaultListing;
    StoredIsOwn(P, files, name, total, received, d, vaultKey);
    GatherComplete(received, total);
    UnsafeExactly(name);
    var o := Keeper(P, files, name, total, received, d, vaultKey, key);
    var s, chunks := Seal(vaultKey, d.uuid, d.nonces), ChunkList(received, total);
    ListContainer(P, s, name, chunks);
    VaultListedExactly(o.files, name);
    k :| 0 <= k < |VaultListing(o.files)| && VaultListing(o.files)[k].fileName == name;
    VaultFileServes(o, VaultListing(o.files)[k], s, chunks);
  }

  /**
    And if the chunks had the hashes of the entry they were fetched for, blinded under the key this
    node shares with the next one too, its manifest repeats that entry: id, count and hashes.
   */
  lemma EntriesAreRepeated(P: Primitives, files: map<string, Bytes>, file: PendingFile, received: map<nat, Bytes>,
                           d: Draw, vaultKey: Bytes32, key: Bytes32) returns (k: nat)
    requires SealsCorrectly(P) && |Gather(received, file.total)| < U64 && FileName(file.name) != ""
    requires ReassembleOutcome(P, files, Vault(true, Some(vaultKey)), file.name, file.total, received, d).0.Ok?
    requires |file.hashes| == file.total
    requires forall i | i in received && i < file.total :: file.hashes[i] == BlindHash(P, key, P.hash(received[i]))
    ensures var o := Keeper(P, files, file.name, file.total, received, d, vaultKey, key);
      var entries := Entries(P, key, VaultListing(o.files));
      && k < |entries|
      && entries[k] == EncryptedEntry(file.name, BlindName(P, key, file.name), |Gather(received, file.total)|,
                                      file.total % U32, file.hashes)
  {
    hide Gather, ReassembleOutcome, VaultListing, BlindName, BlindHash, Serves;
    k := ReceivedFilesAreServed(P, files, file.name, file.total, received, d, vaultKey, key);
    var hashes := HashesOf(P, ChunkList(received, file.total));
    assert Blinded(P, key, hashes) == file.hashes by {
      forall i | 0 <= i < file.total ensures Blinded(P, key, hashes)[i] == file.hashes[i] {
        assert i in received && hashes[i] == P.hash(received[i]);
      }
    }
  }

  /** Every container was written here, under a harmless name. */
  ghost predicate OwnVault(o: Sender, seals: map<string, Seal>, contents: map<string, seq<Bytes>>) {
    o.vault.on && forall n | n in VaultNames(o.files) ::
      && Harmless(n) && n in seals && n in contents && Vit(n) in o.files
      && o.vault.key == Some(seals[n].key) && Fits(o.P, seals[n], contents[n])
      && o.files[Vit(n)] == Container(o.P, seals[n], contents[n])
  }

  /** A whole vault is served completely, empty files included. */
  lemma VaultServesAll(o: Sender, seals: map<string, Seal>, contents: map<string, seq<Bytes>>)
    requires SealsCorrectly(o.P) && OwnVault(o, seals, contents) && NamesApart(o, VaultNames(o.files))
    ensures ServesAll(o, VaultListing(o.files), contents)
  {
    var listing := VaultListing(o.files);
    hide VaultListing, VaultNames, Harmless, Unsafe, ListVault, Container, Fits, Serves, ApartAsIds, FileName;
    forall k | 0 <= k < |listing|
      ensures listing[k].fileName in VaultNames(o.files)
      ensures listing[k].fileName in contents && Serves(o, listing[k], contents[listing[k].fileName])
    {
      var n := listing[k].fileName;
      VaultListedExactly(o.files, n);
      VaultNamesExactly(o.files, n);
      UnsafeExactly(n);
      ListContainer(o.P, seals[n], n, contents[n]);
      VaultFileServes(o, listing[k], seals[n], contents[n]);
    }
    forall j, k | 0 <= j < k < |listing| ensures listing[j].fileName != listing[k].fileName {
      VaultListedExactly(o.files, listing[j].fileName);
      BeforeIsTotal(listing[j].fileName, listing[k].fileName);
    }
    IdsAreDistinct(o.P, o.key, listing);
  }
}
