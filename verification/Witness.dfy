/**
  Runs from an empty start that leave the limits: more than twelve requests by a stall or by a
  chunk found locally, more than one window for a file by a reply with another file's label, and
  a request above the edge of a file that was removed, or only stored in its container, and is
  fetched again. Files of the sender have one-byte chunks here; the protocol does not mind.
 */
module Witness {
  import opened Basics
  import opened Crypto
  import opened Paths
  import opened Chunking
  import opened Listing
  import opened Reassembly
  import opened Download
  import opened TransferSafety
  import opened Network
  import opened Writing
  import opened Liveness
  import opened Window
  import opened Recovery
  import opened History
  import opened Edge
  import opened Overrun
  import opened Steadiness
  import opened Twelve

  // ── A receiver without key and vault, and a hash that shows the first byte ──

  function Shows(b: Bytes): Bytes32 {
    [if b == [] then 0 else b[0]] + Zeros(31)
  }

  function Showing(): Primitives {
    Primitives(Shows, (_, _) => Zeros(32), _ => [], (_, _, _, m) => m + Zeros(16),
               (_, _, _, c) => if |c| >= 16 then Some(c[..|c| - 16]) else None, k => k, (_, _) => Zeros(32))
  }

  lemma ShowingSeals()
    ensures SealsCorrectly(Showing())
  {
    forall k: Bytes32, n: Bytes12, aad: Bytes, m: Bytes
      ensures Showing().aeadOpen(k, n, aad, Showing().aeadSeal(k, n, aad, m)) == Some(m)
    {
      assert (m + Zeros(16))[..|m|] == m;
    }
  }

  function Plaintext(P: Primitives): Config {
    Config(P, None, NO_VAULT)
  }

  /** The plaintext protocol in vault mode: no key for the peer, but one for the vault. */
  function Vaulted(): Config {
    Config(Showing(), None, Vault(true, Some(Zeros(32))))
  }

  function Entry(name: string, hashes: seq<Bytes32>): FileEntry {
    FileEntry(name, |hashes|, |hashes|, hashes)
  }

  function Start(files: map<string, Bytes>): Sys {
    Sys(Fresh(files), multiset{})
  }

  function UpTo(n: nat): (idx: seq<nat>)
    ensures |idx| == n
  {
    seq(n, i requires 0 <= i < n => i)
  }

  /** The requests for chunks 0 to 3. */
  function FirstFour(n: string): seq<Request> {
    AskAll(ByName(n), UpTo(WINDOW))
  }

  lemma FirstFourIs(n: string)
    ensures FirstFour(n) == [Request(ByName(n), 0), Request(ByName(n), 1), Request(ByName(n), 2), Request(ByName(n), 3)]
  {
  }

  lemma CountFirstFour(n: string, ref: FileRef)
    ensures CountRef(multiset(FirstFour(n)), ref) == if ref == ByName(n) then WINDOW else 0
  {
    FirstFourIs(n);
    var sent := FirstFour(n);
    assert sent[..1][..0] == [] && sent[..2][..1] == sent[..1] && sent[..3][..2] == sent[..2];
    assert CountSent(sent[..2], ref) == if ref == ByName(n) then 2 else 0 by {
      assert CountSent(sent[..1], ref) == if ref == ByName(n) then 1 else 0;
    }
    assert CountSent(sent[..3], ref) == if ref == ByName(n) then 3 else 0;
    CountPlus(multiset{}, sent, ref);
    assert multiset{} + multiset(sent) == multiset(sent);
  }

  // ── What is missing, and what is found locally ──────────────────────────

  lemma {:induction false} AllMissing(received: map<nat, Bytes>, n: nat)
    requires forall i | 0 <= i < n :: i !in received
    ensures Missing(received, n) == UpTo(n)
  {
    if n > 0 { AllMissing(received, n - 1); }
  }

  /** What is found locally is a piece of a file in the folder. */
  lemma FoundIsPiece(P: Primitives, files: map<string, Bytes>, h: Bytes32) returns (n: string, i: nat)
    requires DedupSource(P, files, h).Some?
    ensures n in files && !IsVit(n) && i < ChunkCount(|files[n]|)
    ensures DedupSource(P, files, h) == Some(Piece(files[n], i)) && P.hash(Piece(files[n], i)) == h
  {
    var listing := PlainListing(P, files);
    var k := FirstWithIsFirst(listing, h);
    DedupSourceIsGenuine(P, files, h);
    i := FirstWith(listing, h).value.1;
    ListedChunk(P, files, k, i);
    n := listing[k].fileName;
  }

  lemma PieceShows(data: Bytes, i: nat, b: byte)
    requires i < ChunkCount(|data|) && Shows(Piece(data, i)) == Shows([b])
    ensures b in data
  {
    var piece := Piece(data, i);
    PieceBounds(data, i);
    assert piece[0] == data[i * CHUNK_SIZE] && Shows(piece)[0] == piece[0] && Shows([b])[0] == b;
  }

  /** A chunk that starts with a byte no file contains is not found. */
  lemma NotFound(files: map<string, Bytes>, b: byte)
    requires forall n | n in files && !IsVit(n) :: b !in files[n]
    ensures DedupSource(Showing(), files, Shows([b])) == None
  {
    if DedupSource(Showing(), files, Shows([b])).Some? {
      var n, i := FoundIsPiece(Showing(), files, Shows([b]));
      PieceShows(files[n], i, b);
    }
  }

  lemma {:induction false} NothingReused(P: Primitives, files: map<string, Bytes>, hashes: seq<Bytes32>, n: nat)
    requires n <= |hashes| && forall i | 0 <= i < n :: DedupSource(P, files, hashes[i]) == None
    ensures ReusableUpTo(P, files, hashes, n) == map[]
  {
    hide DedupSource;
    if n > 0 { NothingReused(P, files, hashes, n - 1); }
  }

  /** Nothing is found in an empty folder. */
  lemma EmptyFolder(P: Primitives, h: Bytes32)
    ensures DedupSource(P, map[], h) == None
  {
    if DedupSource(P, map[], h).Some? {
      var n, i := FoundIsPiece(P, map[], h);
    }
  }

  // ── Starting a download ─────────────────────────────────────────────────

  /** The head of the queue has become this download. */
  function Next(s: State, t: Transfer): State
    requires s.queue != []
  {
    Popped(s).(active := s.active[t.file.name := t])
  }

  /** The scheduler goes on from there, having sent these requests. */
  ghost predicate Starts(cfg: Config, s: State, next: State, sent: seq<Request>) {
    StartQueued(cfg, s, Quiet()) == Out(StartQueued(cfg, next, Quiet()).state,
        sent + StartQueued(cfg, next, Quiet()).sent)
  }

  ghost predicate Rests(cfg: Config, s: State) {
    StartQueued(cfg, s, Quiet()) == Out(s, [])
  }

  lemma NothingToStart(cfg: Config, s: State)
    requires |s.active| >= MAX_CONCURRENT_FILES || s.queue == []
    ensures Rests(cfg, s)
  {
  }

  lemma StartsThree(cfg: Config, s0: State, s1: State, s2: State, s3: State, x: seq<Request>, y: seq<Request>,
      z: seq<Request>)
    requires Starts(cfg, s0, s1, x) && Starts(cfg, s1, s2, y) && Starts(cfg, s2, s3, z) && Rests(cfg, s3)
    ensures StartQueued(cfg, s0, Quiet()) == Out(s3, x + y + z)
  {
    hide StartQueued;
    assert z + [] == z && x + (y + z) == x + y + z;
  }

  lemma StartsWith(cfg: Config, s: State, received: map<nat, Bytes>)
    requires |s.active| < MAX_CONCURRENT_FILES && s.queue != [] && s.queue[0].name !in s.files
    requires Reusable(cfg.P, s.files, s.queue[0]) == received && Missing(received, s.queue[0].total) != []
    ensures var file := s.queue[0];
      Starts(cfg, s, Next(s, Begun(file, received)), AskAll(Ref(file), FirstWindow(Missing(received, file.total))))
  {
    hide Missing, Reusable, AskAll, FirstWindow;
  }

  /** A plaintext file of which nothing is here. */
  function Whole(n: string, hashes: seq<Bytes32>): Transfer {
    Transfer(Plain(Entry(n, hashes)), map[], WINDOW)
  }

  lemma StartsWhole(cfg: Config, s: State, n: string, hashes: seq<Bytes32>)
    requires |s.active| < MAX_CONCURRENT_FILES && s.queue != [] && s.queue[0] == Plain(Entry(n, hashes))
        && n !in s.files
    requires |hashes| >= WINDOW && forall h | h in hashes :: DedupSource(cfg.P, s.files, h) == None
    ensures Starts(cfg, s, Next(s, Whole(n, hashes)), FirstFour(n))
  {
    hide Starts, DedupSource;
    NothingReused(cfg.P, s.files, hashes, |hashes|);
    AllMissing(map[], |hashes|);
    assert FirstWindow(UpTo(|hashes|)) == UpTo(WINDOW);
    StartsWith(cfg, s, map[]);
  }

  lemma {:induction false} AllEnqueued(cfg: Config, s: State, entries: seq<FileEntry>)
    requires s.active == map[] && s.queue == []
    requires forall k | 0 <= k < |entries| :: entries[k].name !in s.files
    requires forall j, k | 0 <= j < k < |entries| :: entries[j].name != entries[k].name
    ensures Enqueue(cfg, s, PlainFiles(entries)) == s.(queue := PlainFiles(entries),
        queued := s.queued + PlainFiles(entries))
  {
    if entries == [] {
      assert s.queued + [] == s.queued;
    } else {
      var n := |entries| - 1;
      AllEnqueued(cfg, s, entries[..n]);
      var front, last := PlainFiles(entries[..n]), PlainFiles(entries)[n];
      assert PlainFiles(entries)[..n] == front;
      assert Wanted(cfg, s.(queue := front, queued := s.queued + front), last);
      hide PlainFiles, Wanted;
      assert PlainFiles(entries) == front + [last];
      assert s.queued + PlainFiles(entries) == s.queued + front + [last];
    }
  }

  /** A manifest when nothing is active or waiting. */
  lemma Manifested(cfg: Config, sys: Sys, entries: seq<FileEntry>)
    requires sys.s.active == map[] && sys.s.queue == [] && entries != []
    requires forall k | 0 <= k < |entries| :: entries[k].name !in sys.s.files
    requires forall j, k | 0 <= j < k < |entries| :: entries[j].name != entries[k].name
    ensures var s := sys.s.(queue := PlainFiles(entries), queued := sys.s.queued + PlainFiles(entries));
      var o := StartQueued(cfg, s, Quiet());
      NetStep(cfg, sys, Listed(entries, Quiet())) == Sys(o.state, sys.net + multiset(o.sent))
  {
    hide Enqueue, StartQueued;
    AllEnqueued(cfg, sys.s, entries);
    NetStepOther(cfg, sys, Listed(entries, Quiet()));
  }

  // ── More than twelve requests, by a stall ───────────────────────────────

  function Four(h: Bytes32): seq<Bytes32> {
    [h, h, h, h]
  }

  function ThreeEntries(h: Bytes32): seq<FileEntry> {
    [Entry("a", Four(h)), Entry("b", Four(h)), Entry("c", Four(h))]
  }

  /** What three files of four chunks each start as. */
  function Three(h: Bytes32): map<string, Transfer> {
    map["a" := Whole("a", Four(h)), "b" := Whole("b", Four(h)), "c" := Whole("c", Four(h))]
  }

  /** Into an empty folder: all twelve requests go out. */
  lemma ThreeStarted(P: Primitives, h: Bytes32)
    ensures var listed := NetStep(Plaintext(P), Start(map[]), Listed(ThreeEntries(h), Quiet()));
      && listed.s.active == Three(h)
      && listed.net == multiset(FirstFour("a") + FirstFour("b") + FirstFour("c"))
  {
    hide StartQueued, NetStep, FirstFour, DedupSource, Starts, Rests;
    var cfg, entries := Plaintext(P), ThreeEntries(h);
    Manifested(cfg, Start(map[]), entries);
    EmptyFolder(P, h);
    assert PlainFiles(entries) == [Plain(entries[0]), Plain(entries[1]), Plain(entries[2])];
    var s0 := Fresh(map[]).(queue := PlainFiles(entries), queued := [] + PlainFiles(entries));
    var s1 := Next(s0, Whole("a", Four(h)));
    var s2 := Next(s1, Whole("b", Four(h)));
    var s3 := Next(s2, Whole("c", Four(h)));
    StartsWhole(cfg, s0, "a", Four(h));
    StartsWhole(cfg, s1, "b", Four(h));
    assert |s2.active| == 2;
    StartsWhole(cfg, s2, "c", Four(h));
    NothingToStart(cfg, s3);
    StartsThree(cfg, s0, s1, s2, s3, FirstFour("a"), FirstFour("b"), FirstFour("c"));
    assert multiset{} + multiset(FirstFour("a") + FirstFour("b") + FirstFour("c"))
        == multiset(FirstFour("a") + FirstFour("b") + FirstFour("c"));
  }

  /** One stall tick on one of them, and sixteen requests are out. */
  lemma StallsExceedTwelve(P: Primitives, h: Bytes32)
    ensures var listed := NetStep(Plaintext(P), Start(map[]), Listed(ThreeEntries(h), Quiet()));
      && |listed.net| == MAX_CONCURRENT_FILES * WINDOW
      && |NetStep(Plaintext(P), listed, Silence(["a"])).net| == MAX_CONCURRENT_FILES * WINDOW + WINDOW
  {
    hide NetStep, FirstFour, OnTick, Step;
    ThreeStarted(P, h);
    var listed := NetStep(Plaintext(P), Start(map[]), Listed(ThreeEntries(h), Quiet()));
    NetStepOther(Plaintext(P), listed, Silence(["a"]));
    OneTick(Plaintext(P), listed.s, "a", h);
    SizeOfSent(FirstFour("a"));
    SizeOfSent(FirstFour("a") + FirstFour("b") + FirstFour("c"));
    FourEach("a");
    FourEach("b");
    FourEach("c");
  }

  lemma FourEach(n: string)
    ensures |FirstFour(n)| == WINDOW
  {
  }

  lemma SizeOfSent(sent: seq<Request>)
    ensures |multiset(sent)| == |sent|
  {
  }

  lemma OneTick(cfg: Config, s: State, n: string, h: Bytes32)
    requires n in s.active && s.active[n] == Whole(n, Four(h))
    ensures Step(cfg, s, Tick([n])).sent == FirstFour(n)
  {
    AllMissing(map[], WINDOW);
    assert [n][..0] == [] && OnTick(s, []) == Out(s, []);
  }

  // ── More than one window, by another file's label ───────────────────────

  lemma CountThree(ref: FileRef)
    ensures CountRef(multiset(FirstFour("a") + FirstFour("b") + FirstFour("c")), ref)
         == if ref in {ByName("a"), ByName("b"), ByName("c")} then WINDOW else 0
  {
    hide FirstFour, CountRef;
    var a, b, c := FirstFour("a"), FirstFour("b"), FirstFour("c");
    CountFirstFour("a", ref);
    CountFirstFour("b", ref);
    CountFirstFour("c", ref);
    CountPlus(multiset(a), b, ref);
    CountPlus(multiset{}, b, ref);
    CountPlus(multiset(a + b), c, ref);
    CountPlus(multiset{}, c, ref);
    assert multiset{} + multiset(b) == multiset(b) && multiset{} + multiset(c) == multiset(c);
    assert multiset(a + b) == multiset(a) + multiset(b) && multiset(a + b + c) == multiset(a + b) + multiset(c);
  }

  /**
    A reply to a request for one file that is labelled as another, and does not verify: the other
    file now has more than a window out, although it was started once and never stalled.
   */
  lemma MislabelledReplyExceedsWindow(P: Primitives, h: Bytes32, data: Bytes)
    requires P.hash(data) != h
    ensures var cfg, manifest := Plaintext(P), Listed(ThreeEntries(h), Quiet());
      var reply := Answer(Request(ByName("a"), 0), ByName("b"), 0, data, Quiet());
      var listed := NetStep(cfg, Start(map[]), manifest);
      && Enabled(listed, reply)
      && AllGrants(cfg, Start(map[]), [manifest] + [reply], "b") == 1
      && CountRef(NetRun(cfg, Start(map[]), [manifest] + [reply]).net, ByName("b")) == WINDOW + 1
  {
    hide NetStep, NetRun, AllGrants, FirstFour, CountRef, CountSent, ThreeEntries, Whole, Four, Step, ToEvent;
    var cfg, manifest := Plaintext(P), Listed(ThreeEntries(h), Quiet());
    var q, again := Request(ByName("a"), 0), Request(ByName("b"), 0);
    var reply := Answer(q, ByName("b"), 0, data, Quiet());
    var listed := NetStep(cfg, Start(map[]), manifest);
    ThreeStarted(P, h);
    FirstFourIs("a");
    assert q in FirstFour("a") + FirstFour("b") + FirstFour("c");
    NotVerified(cfg, listed, "b", h, reply);
    CountThree(ByName("b"));
    CountWithout(listed.net, ByName("b"), q);
    CountPlus(listed.net - multiset{q}, [again], ByName("b"));
    CountOne(again, ByName("b"));
    TwoEvents(cfg, Start(map[]), manifest, reply, "b");
  }

  lemma NotVerified(cfg: Config, sys: Sys, n: string, h: Bytes32, e: NetEvent)
    requires cfg.key.None? && n in sys.s.active && sys.s.active[n] == Whole(n, Four(h))
    requires e.Answer? && e.ref == ByName(n) && e.index == 0 && cfg.P.hash(e.data) != h
    ensures NetStep(cfg, sys, e) == Sys(sys.s, sys.net - multiset{e.req} + multiset([Request(ByName(n), 0)]))
  {
    hide Complete;
  }

  lemma TwoEvents(cfg: Config, sys: Sys, e: NetEvent, e': NetEvent, n: string)
    ensures NetRun(cfg, sys, [e] + [e']) == NetStep(cfg, NetStep(cfg, sys, e), e')
    ensures AllGrants(cfg, sys, [e] + [e'], n) == Grants(cfg, sys, e, n) + Grants(cfg, NetStep(cfg, sys, e), e', n)
  {
    hide NetStep, Grants;
    assert ([e] + [e'])[..1] == [e] && [e][..0] == [];
    assert NetRun(cfg, sys, []) == sys && AllGrants(cfg, sys, [], n) == 0;
  }

  // ── A chunk found locally ───────────────────────────────────────────────

  /** Five chunks that are not here, and a last one that is in the folder below. */
  function Six(): seq<Bytes> {
    [[7], [7], [7], [7], [7], [9]]
  }

  function SixHashes(): seq<Bytes32> {
    [Shows([7]), Shows([7]), Shows([7]), Shows([7]), Shows([7]), Shows([9])]
  }

  function WithNine(): map<string, Bytes> {
    map["l" := [9]]
  }

  function Hole(): Transfer {
    Transfer(Plain(Entry("a", SixHashes())), map[5 := [9]], WINDOW)
  }

  /** The only plain file is the one with that chunk. */
  predicate OnlyNine(files: map<string, Bytes>) {
    "l" in files && files["l"] == [9] && forall n | n in files && n != "l" :: IsVit(n)
  }

  lemma NineIsListed(files: map<string, Bytes>)
    requires OnlyNine(files)
    ensures FirstWith(PlainListing(Showing(), files), Shows([9])).Some?
  {
    var names, listing := SortedNames(PlainNames(files)), PlainListing(Showing(), files);
    assert LastIndex("l", '/') == None && LastIndex("l", '.') == None;
    assert "l" in PlainNames(files);
    var j :| 0 <= j < |names| && names[j] == "l";
    assert listing[j] == ListPlain(Showing(), "l", [9]);
    assert Piece([9], 0) == [9];
    assert listing[j].chunkHashes[0] == Shows([9]);
    var k := FirstWithIsFirst(listing, Shows([9]));
  }

  lemma NineIsFound(files: map<string, Bytes>)
    requires OnlyNine(files)
    ensures DedupSource(Showing(), files, Shows([9])) == Some([9])
  {
    hide PlainListing;
    NineIsListed(files);
    var listing := PlainListing(Showing(), files);
    var k := FirstWithIsFirst(listing, Shows([9]));
    ListedChunk(Showing(), files, k, FirstWith(listing, Shows([9])).value.1);
    DedupSourceIsGenuine(Showing(), files, Shows([9]));
    var n, i := FoundIsPiece(Showing(), files, Shows([9]));
    assert Piece([9], 0) == [9];
  }

  lemma OnlyNineHere()
    ensures OnlyNine(WithNine())
  {
  }

  lemma HoleStarts(cfg: Config, s: State)
    requires cfg.P == Showing() && OnlyNine(s.files) && "a" !in s.files
    requires s.active == map[] && s.queue != [] && s.queue[0] == Plain(Entry("a", SixHashes()))
    ensures Starts(cfg, s, Next(s, Hole()), FirstFour("a"))
  {
    hide DedupSource, Starts, Reusable, Missing, AskAll;
    HoleReused(s.files);
    HoleMissing();
    StartsWith(cfg, s, Hole().received);
  }

  lemma HoleReused(files: map<string, Bytes>)
    requires OnlyNine(files)
    ensures Reusable(Showing(), files, Hole().file) == Hole().received
  {
    hide DedupSource, Shows, OnlyNine, ReusableUpTo;
    NoSevenFound(files);
    NineIsFound(files);
    NothingReused(Showing(), files, SixHashes(), 5);
    var rest: map<nat, Bytes> := map[];
    LastReused(Showing(), files, SixHashes(), 6);
    assert Added(rest, 5, Some([9])) == Hole().received;
  }

  lemma NoSevenFound(files: map<string, Bytes>)
    requires OnlyNine(files)
    ensures DedupSource(Showing(), files, Shows([7])) == None
  {
    hide DedupSource, Shows;
    NotFound(files, 7);
  }

  lemma LastReused(P: Primitives, files: map<string, Bytes>, hashes: seq<Bytes32>, n: nat)
    requires 0 < n <= |hashes|
    ensures ReusableUpTo(P, files, hashes, n)
         == Added(ReusableUpTo(P, files, hashes, n - 1), n - 1, DedupSource(P, files, hashes[n - 1]))
  {
    hide DedupSource, Added;
  }

  lemma HoleMissing()
    ensures Missing(Hole().received, 6) == UpTo(5) && FirstWindow(UpTo(5)) == UpTo(WINDOW)
  {
    AllMissing(Hole().received, 5);
  }

  /** What the start of that file looks like to the theorem about holes. */
  lemma HoleIsHoled(cfg: Config, sys: Sys)
    requires cfg == Plaintext(Showing()) || cfg == Vaulted()
    requires Scheduled(sys.s) && "a" in sys.s.active && sys.s.active["a"] == Hole()
    requires multiset(FirstFour("a")) <= sys.net && CountRef(sys.net, ByName("a")) == WINDOW
    requires forall q | q in sys.net && q.ref == ByName("a") :: q.index < WINDOW
    ensures Holed(sys, "a", 5) && PlainSource(cfg, Hole().file, Six()) && Faithful(Hole(), Six())
    ensures Storable(cfg, Hole())
  {
    hide CountRef, Scheduled, FileFlows, FirstFour, Missing;
    HoleFlows(sys.net);
    HoleMissing();
    HoleSource(cfg);
    assert Request(ByName("a"), 5) !in sys.net;
  }

  lemma HoleSource(cfg: Config)
    requires cfg == Plaintext(Showing()) || cfg == Vaulted()
    ensures PlainSource(cfg, Hole().file, Six()) && Faithful(Hole(), Six()) && Storable(cfg, Hole())
  {
    ShowingSeals();
    forall i | 0 <= i < |Six()| ensures Showing().hash(Six()[i]) == SixHashes()[i] {
      assert Showing().hash(Six()[i]) == Shows(Six()[i]);
      assert i < 5 ==> Six()[i] == [7];
    }
    assert Six()[5] == [9];
  }

  lemma HoleFlows(net: multiset<Request>)
    requires multiset(FirstFour("a")) <= net
    ensures FileFlows(net, Hole())
  {
    FirstFourIs("a");
    hide FirstFour;
    forall i | 0 <= i < WINDOW ensures Request(ByName("a"), i) in net {
      assert FirstFour("a")[i] == Request(ByName("a"), i);
      assert FirstFour("a")[i] in multiset(FirstFour("a"));
    }
    var t := Hole();
    assert Ref(t.file) == ByName("a") && t.next == WINDOW;
    forall i | 0 <= i < t.next ensures Request(Ref(t.file), i) in net {
    }
    assert Request(Ref(t.file), 0) in net;
  }

  function FourEntries(): seq<FileEntry> {
    [Entry("a", SixHashes()), Entry("b", Four(Shows([5]))), Entry("c", Four(Shows([5]))), Entry("d", Four(Shows([3])))]
  }

  /** The file with the hole and two more are started, the fourth waits. */
  lemma HoleAndTwoStarted()
    ensures var listed := NetStep(Plaintext(Showing()), Start(WithNine()), Listed(FourEntries(), Quiet()));
      && listed.s.active == map["a" := Hole(), "b" := Whole("b", Four(Shows([5]))), "c" := Whole("c", Four(Shows([5])))]
      && listed.s.queue == [Plain(FourEntries()[3])] && listed.s.files == WithNine()
      && listed.net == multiset(FirstFour("a") + FirstFour("b") + FirstFour("c"))
  {
    hide StartQueued, NetStep, FirstFour, DedupSource, Starts, Rests, Shows;
    var cfg, entries, h := Plaintext(Showing()), FourEntries(), Shows([5]);
    Manifested(cfg, Start(WithNine()), entries);
    NotFound(WithNine(), 5);
    assert PlainFiles(entries) == [Plain(entries[0]), Plain(entries[1]), Plain(entries[2]), Plain(entries[3])];
    var s0 := Fresh(WithNine()).(queue := PlainFiles(entries), queued := [] + PlainFiles(entries));
    var s1 := Next(s0, Hole());
    var s2 := Next(s1, Whole("b", Four(h)));
    var s3 := Next(s2, Whole("c", Four(h)));
    HoleStarts(cfg, s0);
    StartsWhole(cfg, s1, "b", Four(h));
    assert |s2.active| == 2;
    StartsWhole(cfg, s2, "c", Four(h));
    assert |s3.active| == 3;
    NothingToStart(cfg, s3);
    StartsThree(cfg, s0, s1, s2, s3, FirstFour("a"), FirstFour("b"), FirstFour("c"));
    assert multiset{} + multiset(FirstFour("a") + FirstFour("b") + FirstFour("c"))
        == multiset(FirstFour("a") + FirstFour("b") + FirstFour("c"));
  }

  function Sources(): map<string, PendingFile> {
    map["a" := Plain(FourEntries()[0]), "b" := Plain(FourEntries()[1]), "c" := Plain(FourEntries()[2]),
        "d" := Plain(FourEntries()[3])]
  }

  function Contents(): map<string, seq<Bytes>> {
    map["a" := Six(), "b" := [[5], [5], [5], [5]], "c" := [[5], [5], [5], [5]]]
  }

  lemma ListedSteadily()
    ensures var listed := NetStep(Plaintext(Showing()), Start(WithNine()), Listed(FourEntries(), Quiet()));
      Sound(Plaintext(Showing()), Sources(), listed) && AllSteady(listed.s.active, listed.net)
  {
    hide NetStep, Shows, Steady, Recalls;
    var cfg, manifest := Plaintext(Showing()), Listed(FourEntries(), Quiet());
    SourcesAreListed();
    NothingToRecall(cfg, Start(WithNine()), manifest);
    hide Sources, FourEntries, WithNine, Static, WellFormed;
    NetStepSound(cfg, Sources(), Start(WithNine()), manifest);
    StepSteady(cfg, Sources(), Start(WithNine()), manifest);
  }

  lemma SourcesAreListed()
    ensures WellFormed(Sources()) && Static(Sources(), Listed(FourEntries(), Quiet()))
  {
    hide Shows;
    assert Sources().Keys == {"a", "b", "c", "d"};
  }

  lemma NothingToRecall(cfg: Config, sys: Sys, e: NetEvent)
    requires sys.net == multiset{}
    ensures !Recalls(cfg, sys, e)
  {
    hide Wanted;
  }

  lemma FourFives(cfg: Config, n: string)
    requires cfg == Plaintext(Showing())
    ensures var t := Whole(n, Four(Shows([5])));
      PlainSource(cfg, t.file, [[5], [5], [5], [5]]) && Faithful(t, [[5], [5], [5], [5]]) && Storable(cfg, t)
  {
    var chunks: seq<Bytes> := [[5], [5], [5], [5]];
    forall i | 0 <= i < |chunks| ensures Showing().hash(chunks[i]) == Four(Shows([5]))[i] {
      assert chunks[i] == [5] && Showing().hash(chunks[i]) == Shows([5]);
    }
  }

  /** Whichever is finished, no file contains a 3. */
  lemma NoThree(n: string)
    requires n in Contents()
    ensures 3 !in Concat(Contents()[n])
  {
    NotAmong(Contents()[n], 3);
  }

  lemma {:induction false} NotAmong(chunks: seq<Bytes>, b: byte)
    requires forall k | 0 <= k < |chunks| :: b !in chunks[k]
    ensures b !in Concat(chunks)
  {
    if chunks != [] { NotAmong(chunks[..|chunks| - 1], b); }
  }

  lemma WaitingIsHungry(cfg: Config, sys: Sys)
    requires cfg == Plaintext(Showing()) && sys.s.files == WithNine()
    requires forall n | n in sys.s.active && n in Contents() ::
             n != "d" && n != "l" && Faithful(sys.s.active[n], Contents()[n])
    ensures Hungry(cfg, sys, Contents(), Plain(FourEntries()[3]))
  {
    hide Shows, Faithful, Concat;
    var file := Plain(FourEntries()[3]);
    forall n, after | n in sys.s.active && n in Contents()
        && FolderAfter(cfg, sys.s.files, n, sys.s.active[n], Contents()[n], after)
      ensures file.name !in after && |Missing(Reusable(cfg.P, after, file), file.total)| >= WINDOW
    {
      assert n != "l" && after == WithNine()[n := Concat(Contents()[n])];
      NoThree(n);
      LacksAll(after, file);
    }
  }

  lemma LacksAll(files: map<string, Bytes>, file: PendingFile)
    requires file == Plain(FourEntries()[3]) && forall n | n in files :: 3 !in files[n]
    ensures |Missing(Reusable(Showing(), files, file), file.total)| >= WINDOW
  {
    NotFound(files, 3);
    hide Shows, DedupSource;
    NothingReused(Showing(), files, file.hashes, 4);
    AllMissing(map[], 4);
  }

  /** What the manifest leads to. */
  ghost predicate ThreeOut(sys: Sys) {
    && sys.s.active == map["a" := Hole(), "b" := Whole("b", Four(Shows([5]))), "c" := Whole("c", Four(Shows([5])))]
    && sys.s.queue == [Plain(FourEntries()[3])] && sys.s.files == WithNine()
    && sys.net == multiset(FirstFour("a") + FirstFour("b") + FirstFour("c"))
  }

  lemma HoleIsLoading(sys: Sys)
    requires ThreeOut(sys) && Steady(sys.net, Hole())
    ensures Loading(Plaintext(Showing()), sys, "a", Six()) && HasHole(sys.net, Hole())
  {
    hide CountRef, Steady, Shows, FirstFour, Missing, PlainSource, Faithful, Storable;
    CountThree(ByName("a"));
    HoleSource(Plaintext(Showing()));
    HoleMissing();
    assert 5 in Hole().received;
  }

  lemma OtherIsLoading(sys: Sys, n: string)
    requires ThreeOut(sys) && n in {"b", "c"} && Steady(sys.net, sys.s.active[n])
    ensures n in Contents() && Loading(Plaintext(Showing()), sys, n, Contents()[n])
  {
    hide CountRef, Steady, Shows, FirstFour, Missing, PlainSource, Faithful, Storable;
    CountThree(ByName(n));
    FourFives(Plaintext(Showing()), n);
    AllMissing(map[], 4);
    assert Contents()[n] == [[5], [5], [5], [5]] && sys.s.active[n] == Whole(n, Four(Shows([5])));
    assert sys.s.active[n].file.total == 4;
  }

  lemma ThreeOutLoads(sys: Sys)
    requires ThreeOut(sys) && Sound(Plaintext(Showing()), Sources(), sys) && AllSteady(sys.s.active, sys.net)
    ensures ThreeLoading(Plaintext(Showing()), Sources(), sys, Contents()) && HasHole(sys.net, Hole())
  {
    hide Steady, Shows, FirstFour, Sound, Hungry, Loading, HasHole, Hole, Whole, Faithful;
    assert sys.s.active["a"] == Hole();
    HoleIsLoading(sys);
    OtherIsLoading(sys, "b");
    OtherIsLoading(sys, "c");
    assert sys.s.active.Keys == {"a", "b", "c"} && |sys.s.active.Keys| == 3;
    assert |sys.s.active| == |sys.s.active.Keys|;
    forall n | n in sys.s.active ensures n in Contents() && Loading(Plaintext(Showing()), sys, n, Contents()[n]) {
      assert n in {"a", "b", "c"};
    }
    AllFaithful(sys);
    WaitingIsHungry(Plaintext(Showing()), sys);
    forall q | q in sys.net ensures Owned(sys.s.active, q.ref) {
      NamedAsListed(sys);
      OwnedByThree(sys.s.active, q);
    }
  }

  lemma AllFaithful(sys: Sys)
    requires ThreeOut(sys)
    ensures forall n | n in sys.s.active && n in Contents() ::
            n != "d" && n != "l" && Faithful(sys.s.active[n], Contents()[n])
  {
    hide Shows, FirstFour;
    HoleSource(Plaintext(Showing()));
    FourFives(Plaintext(Showing()), "b");
    FourFives(Plaintext(Showing()), "c");
  }

  lemma NamedAsListed(sys: Sys)
    requires ThreeOut(sys)
    ensures forall n | n in sys.s.active :: Ref(sys.s.active[n].file) == ByName(n)
  {
    hide Shows, FirstFour;
  }

  /** Three full windows, a fourth file waiting, and a hole in the first. */
  lemma ThreeAreLoading()
    ensures var listed := NetStep(Plaintext(Showing()), Start(WithNine()), Listed(FourEntries(), Quiet()));
      && ThreeOut(listed) && HasHole(listed.net, Hole()) && |listed.net| == MAX_CONCURRENT_FILES * WINDOW
      && ThreeLoading(Plaintext(Showing()), Sources(), listed, Contents())
  {
    hide NetStep, FirstFour, Shows, Sound, ThreeLoading, AllSteady;
    var listed := NetStep(Plaintext(Showing()), Start(WithNine()), Listed(FourEntries(), Quiet()));
    HoleAndTwoStarted();
    ListedSteadily();
    ThreeWindows(listed.net);
    ThreeOutLoads(listed);
  }

  lemma OwnedByThree(active: map<string, Transfer>, q: Request)
    requires q in multiset(FirstFour("a") + FirstFour("b") + FirstFour("c")) && active.Keys == {"a", "b", "c"}
    requires forall n | n in active :: Ref(active[n].file) == ByName(n)
    ensures Owned(active, q.ref)
  {
    FirstFourFor("a");
    FirstFourFor("b");
    FirstFourFor("c");
    hide FirstFour;
    assert q in FirstFour("a") || q in FirstFour("b") || q in FirstFour("c");
  }

  /**
    A chunk found locally takes the requests past twelve as well, with every request answered by
    the chunk asked for: when the file is complete, a request for it is still out, and the next
    file gets a full window nevertheless.
   */
  lemma LocalChunksExceedTwelve() returns (events: seq<NetEvent>)
    ensures var cfg := Plaintext(Showing());
      var listed := NetStep(cfg, Start(WithNine()), Listed(FourEntries(), Quiet()));
      && |listed.net| == MAX_CONCURRENT_FILES * WINDOW
      && Replies(cfg, listed, events) && AllGood(cfg, events, Contents())
      && |NetRun(cfg, listed, events).net| > MAX_CONCURRENT_FILES * WINDOW
  {
    hide NetStep, NetRun, ThreeLoading, HasHole, Replies, AllGood;
    ThreeAreLoading();
    var listed := NetStep(Plaintext(Showing()), Start(WithNine()), Listed(FourEntries(), Quiet()));
    events := HoleExceeds(Plaintext(Showing()), Sources(), listed, Contents(), "a");
  }

  lemma ThreeWindows(net: multiset<Request>)
    requires net == multiset(FirstFour("a") + FirstFour("b") + FirstFour("c"))
    ensures |net| == MAX_CONCURRENT_FILES * WINDOW
    ensures multiset(FirstFour("a")) <= net && CountRef(net, ByName("a")) == WINDOW
    ensures forall q | q in net && q.ref == ByName("a") :: q.index < WINDOW
  {
    hide FirstFour, CountRef;
    CountThree(ByName("a"));
    SizeOfSent(FirstFour("a") + FirstFour("b") + FirstFour("c"));
    FourEach("a");
    FourEach("b");
    FourEach("c");
    FirstFourFor("a");
    FirstFourFor("b");
    FirstFourFor("c");
  }

  lemma FirstFourFor(n: string)
    ensures forall q | q in FirstFour(n) :: q.ref == ByName(n) && q.index < WINDOW
  {
    FirstFourIs(n);
  }

  lemma ScheduledAtStart(cfg: Config, files: map<string, Bytes>, entries: seq<FileEntry>)
    ensures Scheduled(NetStep(cfg, Start(files), Listed(entries, Quiet())).s)
  {
    StepSchedules(cfg, Fresh(files), Manifest(entries, Quiet()));
    hide Step;
  }

  // ── A file that is removed and fetched again ────────────────────────────

  /**
    The file with the hole is fetched, removed by the user, and listed again: at its second
    start a request of the first is still out, at or above the edge of the new window.
   */
  lemma FetchedAgainExceedsEdge() returns (events: seq<NetEvent>)
    ensures var cfg := Plaintext(Showing());
      var manifest := Listed([Entry("a", SixHashes())], Quiet());
      var listed := NetStep(cfg, Start(WithNine()), manifest);
      var removed := NetStep(cfg, NetRun(cfg, listed, events), FolderChange(map[]));
      var again := NetStep(cfg, removed, manifest);
      && Served(cfg, listed, events, "a", Six())
      && BelowEdge(removed.s.active, removed.net)
      && !CleanStarts(removed.s.active, again.s.active, removed.net)
      && !BelowEdge(again.s.active, again.net)
  {
    hide NetStep, NetRun, StartQueued, FirstFour, CountRef, Served, Holed, PlainSource, Faithful, Shows, Step, ToEvent;
    var cfg, manifest := Plaintext(Showing()), Listed([Entry("a", SixHashes())], Quiet());
    var listed := NetStep(cfg, Start(WithNine()), manifest);
    OnlyNineHere();
    HoleStarted(cfg, Start(WithNine()));
    FirstFourOut(listed.net);
    ScheduledAtStart(cfg, WithNine(), [Entry("a", SixHashes())]);
    HoleIsHoled(cfg, listed);
    var left := HoleLeavesRequests(cfg, listed, "a", 5, WINDOW, Six());
    events := left.events;
    NothingToStart(cfg, left.s);
    var end := NetRun(cfg, listed, events);
    var none: seq<Request> := [];
    assert end == Sys(left.s, left.net + multiset(none));
    var q :| q in left.net && q.ref == ByName("a") && q.index >= WINDOW;
    var removed := NetStep(cfg, end, FolderChange(map[]));
    Removed(cfg, end);
    StartedAgain(cfg, removed);
    var again := NetStep(cfg, removed, manifest);
    assert q in removed.net && q in again.net;
    assert !FileBelow(removed.net, again.s.active["a"]) && !FileBelow(again.net, again.s.active["a"]);
  }

  lemma Removed(cfg: Config, sys: Sys)
    ensures NetStep(cfg, sys, FolderChange(map[])) == Sys(sys.s.(files := map[]), sys.net)
  {
    assert sys.net - multiset{} + multiset([]) == sys.net;
  }

  lemma HoleStarted(cfg: Config, sys: Sys)
    requires cfg.P == Showing() && OnlyNine(sys.s.files) && "a" !in sys.s.files && sys.s.active == map[]
        && sys.s.queue == []
    ensures var listed := NetStep(cfg, sys, Listed([Entry("a", SixHashes())], Quiet()));
      && listed.s.active == map["a" := Hole()] && listed.s.queue == [] && listed.s.files == sys.s.files
      && listed.net == sys.net + multiset(FirstFour("a"))
  {
    hide StartQueued, NetStep, FirstFour, DedupSource, Rests, Shows, OnlyNine;
    var entries := [Entry("a", SixHashes())];
    Manifested(cfg, sys, entries);
    assert PlainFiles(entries) == [Plain(entries[0])];
    var s0 := sys.s.(queue := PlainFiles(entries), queued := sys.s.queued + PlainFiles(entries));
    HoleStarts(cfg, s0);
    NothingToStart(cfg, Next(s0, Hole()));
    assert FirstFour("a") + [] == FirstFour("a");
  }

  lemma FirstFourOut(net: multiset<Request>)
    requires net == multiset{} + multiset(FirstFour("a"))
    ensures multiset(FirstFour("a")) <= net && CountRef(net, ByName("a")) == WINDOW
    ensures forall q | q in net && q.ref == ByName("a") :: q.index < WINDOW
  {
    assert net == multiset(FirstFour("a"));
    CountFirstFour("a", ByName("a"));
    FirstFourIs("a");
  }

  lemma StartedAgain(cfg: Config, sys: Sys)
    requires cfg == Plaintext(Showing()) && sys.s.active == map[] && sys.s.queue == [] && sys.s.files == map[]
    ensures var again := NetStep(cfg, sys, Listed([Entry("a", SixHashes())], Quiet()));
      && again.s.active == map["a" := Whole("a", SixHashes())] && sys.net <= again.net
  {
    hide StartQueued, NetStep, FirstFour, DedupSource, Rests, Shows;
    var entries := [Entry("a", SixHashes())];
    Manifested(cfg, sys, entries);
    assert PlainFiles(entries) == [Plain(entries[0])];
    forall h | h in SixHashes() ensures DedupSource(Showing(), map[], h) == None { EmptyFolder(Showing(), h); }
    var s0 := sys.s.(queue := PlainFiles(entries), queued := sys.s.queued + PlainFiles(entries));
    StartsWhole(cfg, s0, "a", SixHashes());
    NothingToStart(cfg, Next(s0, Whole("a", SixHashes())));
  }

  // ── A file that is stored and fetched again ─────────────────────────────

  lemma ContainerOfA()
    ensures Vit("a") == "a.vit" && IsVit(Vit("a"))
  {
    var s := "a.vit";
    assert LastIndex(s, '/') == None;
    assert LastIndex(s, '.') == Some(1);
    assert s[2..] == "vit";
  }

  /** A folder with the container beside the one plain file. */
  lemma StillOnlyNine(files: map<string, Bytes>)
    requires Vit("a") in files && files - {Vit("a")} == WithNine() - {Vit("a")}
    ensures OnlyNine(files) && "a" !in files
  {
    ContainerOfA();
    hide Vit, IsVit;
    var v := Vit("a");
    assert v == "a.vit" && v != "l" && v != "a";
    OthersSame(files, WithNine(), v, "l");
    OthersSame(files, WithNine(), v, "a");
    forall n | n in files && n != v ensures n in WithNine() {
      OthersSame(files, WithNine(), v, n);
    }
  }

  lemma OthersSame(files: map<string, Bytes>, files': map<string, Bytes>, v: string, n: string)
    requires files - {v} == files' - {v} && n != v
    ensures (n in files <==> n in files') && (n in files ==> files[n] == files'[n])
  {
    assert n in files <==> n in files - {v};
    assert n in files' <==> n in files' - {v};
  }

  /**
    Vault mode and the plaintext protocol: the file with the hole is fetched by good answers and
    stored in its container. Nothing is lost, stalls, fails or is removed. The same manifest then
    brings it back, although it is stored: it starts again while a request is still out, at or
    above its edge, and has more than one window out.
   */
  lemma StoredFileIsFetchedAgain() returns (events: seq<NetEvent>)
    ensures var manifest := Listed([Entry("a", SixHashes())], Quiet());
      var listed := NetStep(Vaulted(), Start(WithNine()), manifest);
      var stored := NetRun(Vaulted(), listed, events);
      var again := NetStep(Vaulted(), stored, manifest);
      && Served(Vaulted(), listed, events, "a", Six())
      && Vit("a") in stored.s.files && stored.s.active == map[] && BelowEdge(stored.s.active, stored.net)
      && Recalls(Vaulted(), stored, manifest)
      && !BelowEdge(again.s.active, again.net) && CountRef(again.net, ByName("a")) > WINDOW
  {
    hide NetStep, NetRun, StartQueued, FirstFour, CountRef, Served, Holed, PlainSource, Faithful, Shows, Step, ToEvent,
      OnlyNine, Storable;
    var cfg, manifest := Vaulted(), Listed([Entry("a", SixHashes())], Quiet());
    var listed := NetStep(cfg, Start(WithNine()), manifest);
    OnlyNineHere();
    HoleStarted(cfg, Start(WithNine()));
    FirstFourOut(listed.net);
    ScheduledAtStart(cfg, WithNine(), [Entry("a", SixHashes())]);
    HoleIsHoled(cfg, listed);
    var left := HoleLeavesRequests(cfg, listed, "a", 5, WINDOW, Six());
    events := left.events;
    NothingToStart(cfg, left.s);
    var none: seq<Request> := [];
    var stored := NetRun(cfg, listed, events);
    assert stored == Sys(left.s, left.net + multiset(none));
    StillOnlyNine(left.s.files);
    HoleStarted(cfg, stored);
    var q :| q in left.net && q.ref == ByName("a") && q.index >= WINDOW;
    FetchedAgain(cfg, stored, NetStep(cfg, stored, manifest), q);
  }

  lemma FetchedAgain(cfg: Config, sys: Sys, again: Sys, q: Request)
    requires q in sys.net && q.ref == ByName("a") && q.index >= WINDOW
    requires sys.s.active == map[] && sys.s.queue == [] && "a" !in sys.s.files
    requires again.s.active == map["a" := Hole()] && again.net == sys.net + multiset(FirstFour("a"))
    ensures Recalls(cfg, sys, Listed([Entry("a", SixHashes())], Quiet()))
    ensures !BelowEdge(again.s.active, again.net) && CountRef(again.net, ByName("a")) > WINDOW
  {
    hide CountRef, CountSent, FirstFour;
    var manifest := Listed([Entry("a", SixHashes())], Quiet());
    assert Offered(cfg, manifest)[0] == Plain(Entry("a", SixHashes()));
    assert Wanted(cfg, sys.s, Offered(cfg, manifest)[0]);
    assert !Unasked(sys.net, ByName("a"));
    assert q in again.net && !FileBelow(again.net, again.s.active["a"]);
    UnaskedCounts(sys.net, ByName("a"));
    CountPlus(sys.net, FirstFour("a"), ByName("a"));
    CountPlus(multiset{}, FirstFour("a"), ByName("a"));
    assert multiset{} + multiset(FirstFour("a")) == multiset(FirstFour("a"));
    CountFirstFour("a", ByName("a"));
    UnaskedCounts(multiset{}, ByName("a"));
  }
}
