/**
  The sorted folder listing and the content index built from it
  (src/storage.rs:453-483, 818-858).
 */
module Listing {
  import opened Basics
  import opened Crypto
  import opened Paths
  import opened VaultIo
  import opened Chunking

  // ── The order of names ──────────────────────────────────────────────────

  /** Strictly before, in lexicographic order. */
  predicate Before(a: string, b: string) {
    if b == "" then false
    else if a == "" then true
    else if a[0] != b[0] then a[0] < b[0]
    else Before(a[1..], b[1..])
  }

  lemma {:induction false} BeforeIsTotal(a: string, b: string)
    ensures Before(a, b) || Before(b, a) <==> a != b
    ensures !(Before(a, b) && Before(b, a))
  {
    if a != "" && b != "" && a[0] == b[0] {
      BeforeIsTotal(a[1..], b[1..]);
      assert a == [a[0]] + a[1..] && b == [b[0]] + b[1..];
    }
  }

  lemma {:induction false} BeforeIsTransitive(a: string, b: string, c: string)
    requires Before(a, b) && Before(b, c)
    ensures Before(a, c)
  {
    if a != "" && a[0] == b[0] == c[0] {
      BeforeIsTransitive(a[1..], b[1..], c[1..]);
    }
  }

  /** They agree before position `k`, where `a` has the smaller character. */
  predicate SmallerAt(a: string, b: string, k: nat) {
    k < |a| && k < |b| && a[..k] == b[..k] && a[k] < b[k]
  }

  /** The beginning of a name comes before it; otherwise the first difference decides. */
  lemma {:induction false} BeforeExactly(a: string, b: string)
    ensures Before(a, b) <==> a < b || exists k: nat :: SmallerAt(a, b, k)
  {
    if a == "" || b == "" {
      assert a == "" && b != "" ==> a < b;
    } else if a[0] != b[0] {
      assert SmallerAt(a, b, 0) <==> a[0] < b[0];
      assert forall k: nat | k > 0 && SmallerAt(a, b, k) :: a[..k][0] == b[..k][0];
    } else {
      BeforeExactly(a[1..], b[1..]);
      var x := [a[0]];
      assert a == x + a[1..] && b == x + b[1..];
      assert a[1..] < b[1..] <==> a < b;
      forall k: nat ensures SmallerAt(a[1..], b[1..], k) <==> SmallerAt(a, b, k + 1) {
        SmallerBehind(a[0], a[1..], b[1..], k);
      }
      assert !SmallerAt(a, b, 0);
      assert forall k: nat | SmallerAt(a, b, k) :: k > 0 && SmallerAt(a[1..], b[1..], k - 1);
    }
  }

  lemma SmallerBehind(x: char, a: string, b: string, k: nat)
    ensures SmallerAt([x] + a, [x] + b, k + 1) <==> SmallerAt(a, b, k)
  {
    if k < |a| && k < |b| {
      assert ([x] + a)[..k + 1] == [x] + a[..k] && ([x] + b)[..k + 1] == [x] + b[..k];
      assert a[..k] == ([x] + a[..k])[1..] && b[..k] == ([x] + b[..k])[1..];
    }
  }

  ghost predicate Sorted(names: seq<string>) {
    forall i, j | 0 <= i < j < |names| :: Before(names[i], names[j])
  }

  function Insert(names: seq<string>, x: string): (r: seq<string>)
    ensures Sorted(names) && x !in names ==> Sorted(r)
    ensures forall y :: y in r <==> y in names || y == x
  {
    if names == [] then [x]
    else if Before(x, names[0]) then
      assert Sorted(names) && x !in names ==> Sorted([x] + names) by {
        forall j | 0 <= j < |names| && Sorted(names) ensures Before(x, names[j]) {
          if j > 0 { BeforeIsTransitive(x, names[0], names[j]); }
        }
      }
      [x] + names
    else
      BeforeIsTotal(x, names[0]);
      var rest := Insert(names[1..], x);
      assert Sorted(names) ==> forall j | 0 <= j < |rest| && rest[j] != x :: Before(names[0], rest[j]) by {
        forall j | 0 <= j < |rest| && rest[j] != x && Sorted(names) ensures Before(names[0], rest[j]) {
          assert rest[j] in names[1..];
        }
      }
      [names[0]] + rest
  }

  /** The names of a set in order. */
  ghost function SortedNames(s: set<string>): (names: seq<string>)
    ensures Sorted(names) && forall y :: y in names <==> y in s
  {
    if s == {} then [] else
    var x :| x in s;
    Insert(SortedNames(s - {x}), x)
  }

  lemma {:induction false} SortedIsUnique(a: seq<string>, b: seq<string>)
    requires Sorted(a) && Sorted(b) && forall y :: y in a <==> y in b
    ensures a == b
  {
    if a != [] { assert a[0] in a; }
    if b != [] { assert b[0] in b; }
    assert a == [] <==> b == [];
    if a != [] {
      assert a[0] in b && b[0] in a;
      BeforeIsTotal(a[0], b[0]);
      assert a[0] == b[0];
      forall y ensures y in a[1..] <==> y in b[1..] {
        BeforeIsTotal(a[0], a[0]);
        assert y in a[1..] <==> y in a && y != a[0];
        assert y in b[1..] <==> y in b && y != b[0];
      }
      SortedIsUnique(a[1..], b[1..]);
      assert a == [a[0]] + a[1..] && b == [b[0]] + b[1..];
    }
  }

  // ── The plaintext listing ───────────────────────────────────────────────

  /** The walk of the plaintext layout skips `*.vit` files. */
  function PlainNames(files: map<string, Bytes>): set<string> {
    set n | n in files && !IsVit(n)
  }

  function ListAll(P: Primitives, files: map<string, Bytes>, names: seq<string>): (l: seq<FileMetadata>)
    requires forall n | n in names :: n in files
    ensures |l| == |names|
  {
    seq(|names|, i requires 0 <= i < |names| => ListPlain(P, names[i], files[names[i]]))
  }

  ghost function PlainListing(P: Primitives, files: map<string, Bytes>): seq<FileMetadata> {
    ListAll(P, files, SortedNames(PlainNames(files)))
  }

  /** The listing names each file that is no container, and nothing else, once and in order. */
  lemma ListedExactly(P: Primitives, files: map<string, Bytes>, n: string)
    ensures var listing := PlainListing(P, files);
      && (n in files && !IsVit(n) <==> exists k | 0 <= k < |listing| :: listing[k].fileName == n)
      && (forall k | 0 <= k < |listing| && listing[k].fileName == n ::
            n in files && listing[k] == ListPlain(P, n, files[n]))
      && (forall j, k | 0 <= j < k < |listing| :: Before(listing[j].fileName, listing[k].fileName))
  {
    hide IsVit, Before;
    var names, listing := SortedNames(PlainNames(files)), PlainListing(P, files);
    assert forall k | 0 <= k < |names| :: names[k] in PlainNames(files) && listing[k].fileName == names[k];
    if n in files && !IsVit(n) {
      assert n in names;
    }
  }

  /** The walk meets the files in any order; the result is sorted by name. */
  method Walk(all: set<string>) returns (names: seq<string>)
    ensures names == SortedNames(all)
  {
    var todo := all;
    names := [];
    while todo != {}
      invariant todo <= all
      invariant Sorted(names)
      invariant forall y :: y in names <==> y in all - todo
      decreases todo
    {
      var n :| n in todo;
      todo := todo - {n};
      names := Insert(names, n);
    }
    SortedIsUnique(names, SortedNames(all));
  }

  method ListFolder(P: Primitives, folder: Folder) returns (listing: seq<FileMetadata>)
    ensures listing == PlainListing(P, folder.files)
  {
    var names := Walk(PlainNames(folder.files));
    assert forall n | n in names :: n in folder.files;
    listing := ListNames(P, folder, names);
  }

  /** The metadata of each file met, in the order of the names. */
  method ListNames(P: Primitives, folder: Folder, names: seq<string>) returns (listing: seq<FileMetadata>)
    requires forall n | n in names :: n in folder.files
    ensures listing == ListAll(P, folder.files, names)
  {
    hide ListPlain;
    listing := [];
    for i := 0 to |names|
      invariant listing == ListAll(P, folder.files, names[..i])
    {
      var f := new FileCursor(folder.files[names[i]]);
      var m := ComputeFileMetadataPlain(P, names[i], f);
      listing := listing + [m];
    }
    assert names[..|names|] == names;
  }

  // ── The vault listing ───────────────────────────────────────────────────

  /** The names of the containers, without their extension. */
  function VaultNames(files: map<string, Bytes>): set<string> {
    set f | f in files && IsVit(f) :: Unvit(f)
  }

  lemma VaultNamesExactly(files: map<string, Bytes>, n: string)
    ensures n in VaultNames(files) <==> Vit(n) in files && FileName(n) != ""
  {
    hide IsVit, FileName;
    if n in VaultNames(files) {
      var f :| f in files && IsVit(f) && n == Unvit(f);
      ContainersAreVits(f);
      var rel :| FileName(rel) != "" && f == Vit(rel);
      assert rel == n;
    }
    if Vit(n) in files && FileName(n) != "" {
      ContainersAreVits(Vit(n));
      assert Unvit(Vit(n)) == n;
    }
  }

  function VaultEntry(files: map<string, Bytes>, n: string): Option<FileMetadata> {
    if Vit(n) !in files then None else
    match ListVault(n, files[Vit(n)])
    case Ok(m) => Some(m)
    case Err(_) => None
  }

  /** A container that does not list is skipped. */
  function ListVaults(files: map<string, Bytes>, names: seq<string>): seq<FileMetadata> {
    if names == [] then [] else
    var rest, entry := ListVaults(files, names[..|names| - 1]), VaultEntry(files, names[|names| - 1]);
    if entry.Some? then rest + [entry.value] else rest
  }

  ghost function VaultListing(files: map<string, Bytes>): seq<FileMetadata> {
    ListVaults(files, SortedNames(VaultNames(files)))
  }

  method ListVaultNamed(folder: Folder, n: string) returns (entry: Option<FileMetadata>)
    ensures entry == VaultEntry(folder.files, n)
  {
    if Vit(n) !in folder.files {
      return None;
    }
    var f := new FileCursor(folder.files[Vit(n)]);
    var m := ComputeFileMetadataVault(n, f);
    entry := match m case Ok(listed) => Some(listed) case Err(_) => None;
  }

  method ListVaultFolder(folder: Folder) returns (listing: seq<FileMetadata>)
    ensures listing == VaultListing(folder.files)
  {
    var names := Walk(VaultNames(folder.files));
    listing := ListVaultsNamed(folder, names);
  }

  method ListVaultsNamed(folder: Folder, names: seq<string>) returns (listing: seq<FileMetadata>)
    ensures listing == ListVaults(folder.files, names)
  {
    hide VaultEntry;
    listing := [];
    for i := 0 to |names|
      invariant listing == ListVaults(folder.files, names[..i])
    {
      assert names[..i + 1][..i] == names[..i];
      var entry := ListVaultNamed(folder, names[i]);
      if entry.Some? {
        listing := listing + [entry.value];
      }
    }
    assert names[..|names|] == names;
  }

  /** In vault mode the listing names each file whose container lists, and nothing else, once and in order. */
  lemma VaultListedExactly(files: map<string, Bytes>, n: string)
    ensures var listing := VaultListing(files);
      && (FileName(n) != "" && Vit(n) in files && ListVault(n, files[Vit(n)]).Ok?
          <==> exists k | 0 <= k < |listing| :: listing[k].fileName == n)
      && (forall k | 0 <= k < |listing| && listing[k].fileName == n ::
            Vit(n) in files && ListVault(n, files[Vit(n)]) == Ok(listing[k]))
      && (forall j, k | 0 <= j < k < |listing| :: Before(listing[j].fileName, listing[k].fileName))
  {
    hide ListVaults, Before, FileName, VaultNames, Vit;
    VaultNamesExactly(files, n);
    var names := SortedNames(VaultNames(files));
    assert n in names <==> FileName(n) != "" && Vit(n) in files;
    ListVaultsFinds(files, names, n);
    ListVaultsInOrder(files, names);
    forall m | m in ListVaults(files, names) ensures m.fileName in names && VaultEntry(files, m.fileName) == Some(m) {
      ListVaultsShows(files, names, m);
    }
    NameIsKept(files, n);
    assert VaultEntry(files, n).Some? <==> Vit(n) in files && ListVault(n, files[Vit(n)]).Ok?;
    assert VaultEntry(files, n).Some? ==> ListVault(n, files[Vit(n)]) == Ok(VaultEntry(files, n).value);
    hide VaultEntry;
    assert VaultListing(files) == ListVaults(files, names);
  }

  lemma {:induction false} ListVaultsInOrder(files: map<string, Bytes>, names: seq<string>)
    requires Sorted(names)
    ensures forall k | 0 <= k < |ListVaults(files, names)| :: ListVaults(files, names)[k].fileName in names
    ensures forall j, k | 0 <= j < k < |ListVaults(files, names)| ::
              Before(ListVaults(files, names)[j].fileName, ListVaults(files, names)[k].fileName)
  {
    hide Before, VaultEntry;
    if names != [] {
      var front, last := names[..|names| - 1], names[|names| - 1];
      ListVaultsInOrder(files, front);
      NameIsKept(files, last);
      forall x | x in front ensures Before(x, last) {
        var i :| 0 <= i < |front| && front[i] == x;
        assert names[i] == x;
      }
    }
  }

  lemma {:induction false} ListVaultsFinds(files: map<string, Bytes>, names: seq<string>, n: string)
    ensures n in names && VaultEntry(files, n).Some? ==> VaultEntry(files, n).value in ListVaults(files, names)
  {
    hide VaultEntry;
    if names != [] {
      var front, last := names[..|names| - 1], names[|names| - 1];
      assert names == front + [last];
      ListVaultsFinds(files, front, n);
    }
  }

  lemma {:induction false} ListVaultsShows(files: map<string, Bytes>, names: seq<string>, m: FileMetadata)
    ensures m in ListVaults(files, names) ==> m.fileName in names && VaultEntry(files, m.fileName) == Some(m)
  {
    if names != [] {
      var front, last := names[..|names| - 1], names[|names| - 1];
      assert names == front + [last];
      ListVaultsShows(files, front, m);
      NameIsKept(files, last);
      hide VaultEntry;
    }
  }

  lemma NameIsKept(files: map<string, Bytes>, n: string)
    ensures VaultEntry(files, n).Some? ==> VaultEntry(files, n).value.fileName == n
  {
  }

  // ── The content index ───────────────────────────────────────────────────

  /** The first position of `h`. */
  function IndexOf(hs: seq<Bytes32>, h: Bytes32): (k: Option<nat>)
    ensures k.Some? ==> k.value < |hs| && hs[k.value] == h && h !in hs[..k.value]
    ensures k.None? ==> h !in hs
  {
    if hs == [] then None else
    var rest := hs[..|hs| - 1];
    assert hs == rest + [hs[|hs| - 1]];
    match IndexOf(rest, h)
    case Some(i) => assert hs[..i] == rest[..i]; Some(i)
    case None => if hs[|hs| - 1] == h then Some(|hs| - 1) else None
  }

  /** The first listed file that holds a chunk with hash `h`, and its first such chunk. */
  function FirstWith(listing: seq<FileMetadata>, h: Bytes32): Option<(string, nat)> {
    if listing == [] then None else
    match FirstWith(listing[..|listing| - 1], h)
    case Some(loc) => Some(loc)
    case None =>
      var m := listing[|listing| - 1];
      match IndexOf(m.chunkHashes, h)
      case Some(i) => Some((m.fileName, i))
      case None => None
  }

  /** File `k` and chunk `i` are where `h` first occurs. */
  ghost predicate FirstAt(listing: seq<FileMetadata>, h: Bytes32, k: nat, i: nat) {
    && k < |listing| && i < |listing[k].chunkHashes|
    && listing[k].chunkHashes[i] == h && h !in listing[k].chunkHashes[..i]
    && forall k' | 0 <= k' < k :: h !in listing[k'].chunkHashes
  }

  /** The scan finds the first occurrence when there is one, and nothing otherwise. */
  lemma {:induction false} FirstWithIsFirst(listing: seq<FileMetadata>, h: Bytes32) returns (k: nat)
    ensures FirstWith(listing, h).None? <==> forall j | 0 <= j < |listing| :: h !in listing[j].chunkHashes
    ensures FirstWith(listing, h).Some? ==>
              k < |listing| && FirstAt(listing, h, k, FirstWith(listing, h).value.1)
              && FirstWith(listing, h).value.0 == listing[k].fileName
  {
    k := 0;
    if listing != [] {
      var rest := listing[..|listing| - 1];
      k := FirstWithIsFirst(rest, h);
      if FirstWith(rest, h).Some? {
        assert FirstAt(rest, h, k, FirstWith(rest, h).value.1);
        assert h in listing[k].chunkHashes;
      } else {
        k := |listing| - 1;
        forall j | 0 <= j < k ensures h !in listing[j].chunkHashes {
          assert listing[j] == rest[j];
        }
      }
    }
  }

  ghost predicate IndexAgrees(index: map<Bytes32, (string, nat)>, listing: seq<FileMetadata>) {
    forall h: Bytes32 :: FirstWith(listing, h) == if h in index then Some(index[h]) else None
  }

  /** The first entry for a hash stays; new hashes of the file are entered with their first position. */
  ghost predicate EnteredFrom(before: map<Bytes32, (string, nat)>, index: map<Bytes32, (string, nat)>,
          m: FileMetadata, n: nat)
    requires n <= |m.chunkHashes|
  {
    forall h: Bytes32 ::
      (if h in index then Some(index[h]) else None) ==
      if h in before then Some(before[h]) else
      match IndexOf(m.chunkHashes[..n], h)
      case Some(i) => Some((m.fileName, i))
      case None => None
  }

  lemma OneMoreFile(before: map<Bytes32, (string, nat)>, index: map<Bytes32, (string, nat)>,
          listing: seq<FileMetadata>, k: nat)
    requires k < |listing| && IndexAgrees(before, listing[..k])
    requires EnteredFrom(before, index, listing[k], |listing[k].chunkHashes|)
    ensures IndexAgrees(index, listing[..k + 1])
  {
    var m := listing[k];
    assert listing[..k + 1][..k] == listing[..k] && listing[..k + 1][k] == m;
    assert m.chunkHashes[..|m.chunkHashes|] == m.chunkHashes;
    hide IndexOf;
    forall h: Bytes32 ensures FirstWith(listing[..k + 1], h) == if h in index then Some(index[h]) else None {
      assert FirstWith(listing[..k], h) == if h in before then Some(before[h]) else None;
    }
  }

  /** The outer loop of `build_chunk_index`. */
  method BuildChunkIndex(P: Primitives, folder: Folder) returns (index: map<Bytes32, (string, nat)>)
    ensures IndexAgrees(index, PlainListing(P, folder.files))
  {
    var listing := ListFolder(P, folder);
    index := map[];
    assert IndexAgrees(index, listing[..0]);
    hide IndexAgrees, EnteredFrom, PlainListing;
    for k := 0 to |listing|
      invariant IndexAgrees(index, listing[..k])
    {
      ghost var before := index;
      index := IndexFile(index, listing[k]);
      OneMoreFile(before, index, listing, k);
    }
    assert listing[..|listing|] == listing;
  }

  /** The inner loop. */
  method IndexFile(before: map<Bytes32, (string, nat)>, m: FileMetadata) returns (index: map<Bytes32, (string, nat)>)
    ensures EnteredFrom(before, index, m, |m.chunkHashes|)
  {
    index := before;
    for i := 0 to |m.chunkHashes|
      invariant EnteredFrom(before, index, m, i)
    {
      ghost var was := index;
      var h := m.chunkHashes[i];
      if h !in index {
        index := index[h := (m.fileName, i)];
      }
      OneMoreHash(before, was, index, m, i);
    }
  }

  lemma OneMoreHash(before: map<Bytes32, (string, nat)>, was: map<Bytes32, (string, nat)>,
          index: map<Bytes32, (string, nat)>, m: FileMetadata, i: nat)
    requires i < |m.chunkHashes| && EnteredFrom(before, was, m, i)
    requires index == if m.chunkHashes[i] in was then was else was[m.chunkHashes[i] := (m.fileName, i)]
    ensures EnteredFrom(before, index, m, i + 1)
  {
    var hs := m.chunkHashes[..i + 1];
    assert hs[..i] == m.chunkHashes[..i] && hs[i] == m.chunkHashes[i];
    assert m.chunkHashes[i] in was <==> m.chunkHashes[i] in before || IndexOf(hs[..i], m.chunkHashes[i]).Some?;
  }

  const NO_VAULT := Vault(false, None)

  /** A local chunk with the wanted hash, if the index has one that can be read. */
  ghost function DedupSource(P: Primitives, files: map<string, Bytes>, h: Bytes32): Option<Bytes> {
    match FirstWith(PlainListing(P, files), h)
    case None => None
    case Some(loc) =>
      match LocalChunk(P, files, loc.0, loc.1, NO_VAULT)
      case Ok(bytes) => Some(bytes)
      case Err(_) => None
  }

  /**
    Following the index to the disk always yields a chunk with the wanted hash; it fails
    exactly when the hash is not listed, or is listed first under a name that may not be read.
   */
  lemma DedupSourceIsGenuine(P: Primitives, files: map<string, Bytes>, h: Bytes32)
    ensures DedupSource(P, files, h).Some? ==> P.hash(DedupSource(P, files, h).value) == h
    ensures DedupSource(P, files, h).Some? <==>
              FirstWith(PlainListing(P, files), h).Some? && !Unsafe(FirstWith(PlainListing(P, files), h).value.0)
  {
    var listing := PlainListing(P, files);
    var k := FirstWithIsFirst(listing, h);
    if FirstWith(listing, h).Some? {
      ListedChunk(P, files, k, FirstWith(listing, h).value.1);
    }
  }

  /** File `n`, which is no container, has a chunk with this hash. */
  ghost predicate HasChunk(P: Primitives, files: map<string, Bytes>, n: string, h: Bytes32) {
    && n in files && !IsVit(n)
    && exists c | c in Chunks(files[n]) :: P.hash(c) == h
  }

  /** Of the files with such a chunk, the first by name may be read. */
  ghost predicate HeldLocally(P: Primitives, files: map<string, Bytes>, h: Bytes32) {
    exists n :: Harmless(n) && HasChunk(P, files, n, h) && forall m | HasChunk(P, files, m, h) :: !Before(m, n)
  }

  lemma HasChunkIsListed(P: Primitives, name: string, data: Bytes, h: Bytes32)
    ensures h in ListPlain(P, name, data).chunkHashes <==> exists c | c in Chunks(data) :: P.hash(c) == h
  {
    hide Chunks;
    var cs, hashes := Chunks(data), ListPlain(P, name, data).chunkHashes;
    forall i | 0 <= i < |cs| ensures hashes[i] == P.hash(cs[i]) && cs[i] in cs && hashes[i] in hashes {
    }
  }

  /** Said of the files themselves: a chunk is found locally exactly when one is held so. */
  lemma DedupSourceExactly(P: Primitives, files: map<string, Bytes>, h: Bytes32)
    ensures DedupSource(P, files, h).Some? <==> HeldLocally(P, files, h)
  {
    hide Harmless, Unsafe, IsVit, Before, ListPlain, Chunks, LocalChunk, DedupSource, FirstWith, PlainListing;
    DedupSourceIsGenuine(P, files, h);
    var listing := PlainListing(P, files);
    var k := FirstWithIsFirst(listing, h);
    forall n ensures HasChunk(P, files, n, h) <==>
                     exists j | 0 <= j < |listing| :: listing[j].fileName == n && h in listing[j].chunkHashes {
      ListedExactly(P, files, n);
      if n in files { HasChunkIsListed(P, n, files[n], h); }
    }
    if FirstWith(listing, h).Some? {
      var first := listing[k].fileName;
      UnsafeExactly(first);
      assert HasChunk(P, files, first, h);
      ListedExactly(P, files, first);
      forall m | HasChunk(P, files, m, h) ensures !Before(m, first) {
        var j :| 0 <= j < |listing| && listing[j].fileName == m && h in listing[j].chunkHashes;
        assert k <= j;
        BeforeIsTotal(m, first);
      }
      forall n | HasChunk(P, files, n, h) && !Before(first, n) ensures n == first {
        BeforeIsTotal(n, first);
      }
    }
  }

  /** Every listed hash is the hash of the chunk it stands for. */
  lemma ListedChunk(P: Primitives, files: map<string, Bytes>, k: nat, i: nat)
    requires k < |PlainListing(P, files)| && i < |PlainListing(P, files)[k].chunkHashes|
    ensures var m := PlainListing(P, files)[k];
      && m.fileName in files && !IsVit(m.fileName) && m == ListPlain(P, m.fileName, files[m.fileName])
      && PlainChunk(files[m.fileName], i).Ok? && m.chunkHashes[i] == P.hash(PlainChunk(files[m.fileName], i).value)
  {
    var names := SortedNames(PlainNames(files));
    assert names[k] in PlainNames(files);
  }
}
