/**
  The peer tables of src/state.rs and the handlers of src/sync/handler.rs that update them in
  place. Each handler is proved to do to one peer's record what Tofu says, to leave every other
  peer's record alone, and to announce and ask as Mesh says.
 */
module Handler {
  import opened Basics
  import opened Crypto
  import Mesh
  import Tofu

  type Id = string

  datatype Message = FolderAnnouncement | ManifestRequest | KeyExchange(body: Tofu.Body)

  datatype Letter = Letter(to: Id, message: Message)

  function ToAll(peers: set<Id>, message: Message): multiset<Letter> {
    multiset(set p | p in peers :: Letter(p, message))
  }

  /** The announcements and manifest requests of one event. */
  function Letters(announce: set<Id>, request: set<Id>): multiset<Letter> {
    ToAll(announce, FolderAnnouncement) + ToAll(request, ManifestRequest)
  }

  function KeyLetters(peer: Id, body: Option<Tofu.Body>): multiset<Letter> {
    match body
    case None => multiset{}
    case Some(b) => multiset{Letter(peer, KeyExchange(b))}
  }

  lemma OneMoreAddressee(peers: set<Id>, p: Id, message: Message)
    requires p !in peers
    ensures ToAll(peers + {p}, message) == ToAll(peers, message) + multiset{Letter(p, message)}
  {
    var to := set q | q in peers :: Letter(q, message);
    assert (set q | q in peers + {p} :: Letter(q, message)) == to + {Letter(p, message)};
    assert Letter(p, message) !in to;
  }

  lemma PeerAndOthers(peer: Id, others: set<Id>)
    requires peer !in others
    ensures ToAll({peer} + others, ManifestRequest) == ToAll(others, ManifestRequest)
        + multiset{Letter(peer, ManifestRequest)}
  {
    OneMoreAddressee(others, peer, ManifestRequest);
    assert others + {peer} == {peer} + others;
  }

  lemma ToOne(p: Id, message: Message)
    ensures ToAll({}, message) == multiset{}
    ensures ToAll({p}, message) == multiset{Letter(p, message)}
  {
    OneMoreAddressee({}, p, message);
    assert {} + {p} == {p};
  }

  class AppState {
    const P: Primitives
    const localId: Id
    const sharedKeyFromCli: bool
    const encryptionKey: Option<Bytes32>
    var connectedPeers: set<Id>
    var hasFolder: bool
    var announcedTo: set<Id>
    var peerKeys: map<Id, Bytes32>
    var pendingExchanges: map<Id, Bytes32>
    var pendingApprovals: map<Id, Bytes32>
    var store: map<Id, Bytes32>          // the trusted-peers file
    var outbox: multiset<Letter>

    constructor (P: Primitives, localId: Id, encryptionKey: Option<Bytes32>, sharedKeyFromCli: bool,
        store: map<Id, Bytes32>)
      ensures this.P == P && this.localId == localId && this.encryptionKey == encryptionKey
      ensures this.sharedKeyFromCli == sharedKeyFromCli
      ensures forall q :: LinkTo(q) == Tofu.Link(None, Get(store, q), None, None)
      ensures MeshView() == Mesh.View({}, {}, false) && outbox == multiset{}
    {
      this.P, this.localId, this.encryptionKey, this.sharedKeyFromCli := P, localId, encryptionKey, sharedKeyFromCli;
      connectedPeers, hasFolder, announcedTo := {}, false, {};
      peerKeys, pendingExchanges, pendingApprovals := map[], map[], map[];
      this.store, outbox := store, multiset{};
    }

    /** Everything kept about one peer's key. */
    ghost function LinkTo(peer: Id): Tofu.Link
      reads this`peerKeys, this`store, this`pendingExchanges, this`pendingApprovals
    {
      Tofu.Link(Get(peerKeys, peer), Get(store, peer), Get(pendingExchanges, peer), Get(pendingApprovals, peer))
    }

    ghost function MeshView(): Mesh.View
      reads this`connectedPeers, this`announcedTo, this`hasFolder
    {
      Mesh.View(connectedPeers, announcedTo, hasFolder)
    }

    // ── Keys ──────────────────────────────────────────────────────────────

    method LoadStoredKey(peer: Id)
      modifies this`peerKeys
      ensures LinkTo(peer) == Tofu.Load(old(LinkTo(peer)))
      ensures forall q | q != peer :: LinkTo(q) == old(LinkTo(q))
      ensures peer in peerKeys <==> Tofu.Keyed(old(LinkTo(peer)))
      ensures peerKeys ==
              if peer !in old(peerKeys) && peer in store then old(peerKeys)[peer := store[peer]] else old(peerKeys)
    {
      if peer !in peerKeys && peer in store {
        peerKeys := peerKeys[peer := store[peer]];
      }
    }

    method SetPeerKey(peer: Id, key: Bytes32)
      modifies this`peerKeys, this`store
      ensures store == old(store)[peer := key] && peerKeys == old(peerKeys)[peer := key]
    {
      store := store[peer := key];
      peerKeys := peerKeys[peer := key];
    }

    method ApprovePeer(peer: Id, t: Bytes32)
      modifies this`peerKeys, this`store, this`pendingApprovals, this`outbox
      ensures LinkTo(peer) == Tofu.Approve(P, old(LinkTo(peer)), t).link
      ensures forall q | q != peer :: LinkTo(q) == old(LinkTo(q))
      ensures outbox == old(outbox) + KeyLetters(peer, Tofu.Approve(P, old(LinkTo(peer)), t).sent)
      ensures peer in old(pendingApprovals) ==>
                peer in peerKeys && peerKeys[peer] == P.derive(KEY_CONTEXT, P.agree(t, old(pendingApprovals)[peer]))
    {
      assert outbox + multiset{} == outbox;
      if peer !in pendingApprovals {
        return;
      }
      var theirs := pendingApprovals[peer];
      pendingApprovals := pendingApprovals - {peer};
      SetPeerKey(peer, SharedKey(P, t, theirs));
      outbox := outbox + multiset{Letter(peer, KeyExchange(Tofu.Accept(P.publicKey(t))))};
    }

    method DenyPeer(peer: Id)
      modifies this`pendingApprovals
      ensures LinkTo(peer) == Tofu.Deny(old(LinkTo(peer)))
      ensures peer !in pendingApprovals
      ensures forall q | q != peer :: LinkTo(q) == old(LinkTo(q))
    {
      pendingApprovals := pendingApprovals - {peer};
    }

    method RevokeKey(peer: Id)
      modifies this`peerKeys, this`store
      ensures LinkTo(peer) == Tofu.Revoke(old(LinkTo(peer)))
      ensures peer !in peerKeys && peer !in store
      ensures forall q | q != peer :: LinkTo(q) == old(LinkTo(q))
    {
      store := store - {peer};
      peerKeys := peerKeys - {peer};
    }

    method OnKeyExchangePropose(peer: Id, theirs: Bytes32, t: Bytes32)
      modifies this`peerKeys, this`store, this`pendingApprovals, this`outbox
      ensures LinkTo(peer) == Tofu.OnPropose(P, old(LinkTo(peer)), theirs, t).link
      ensures forall q | q != peer :: LinkTo(q) == old(LinkTo(q))
      ensures outbox == old(outbox) + KeyLetters(peer, Tofu.OnPropose(P, old(LinkTo(peer)), theirs, t).sent)
      ensures if Tofu.Keyed(old(LinkTo(peer)))
              then peer in peerKeys && peerKeys[peer] == P.derive(KEY_CONTEXT, P.agree(t, theirs))
              else peer !in peerKeys && peer in pendingApprovals && pendingApprovals[peer] == theirs
    {
      assert outbox + multiset{} == outbox;
      LoadStoredKey(peer);
      if peer in peerKeys || peer in store {
        SetPeerKey(peer, SharedKey(P, t, theirs));
        outbox := outbox + multiset{Letter(peer, KeyExchange(Tofu.Accept(P.publicKey(t))))};
        return;
      }
      pendingApprovals := pendingApprovals[peer := theirs];
    }

    /** Both arms: as a response it is followed by a manifest request, as a request it is not. */
    method OnKeyExchangeAccept(peer: Id, theirs: Bytes32, asResponse: bool)
      modifies this`peerKeys, this`store, this`pendingExchanges, this`outbox
      ensures LinkTo(peer) == Tofu.OnAccept(P, old(LinkTo(peer)), theirs)
      ensures forall q | q != peer :: LinkTo(q) == old(LinkTo(q))
      ensures var asked := if asResponse && hasFolder && old(LinkTo(peer)).secret.Some? then {peer} else {};
        outbox == old(outbox) + ToAll(asked, ManifestRequest)
      ensures peer in old(pendingExchanges) ==>
                && peer !in pendingExchanges && peer in peerKeys
                && peerKeys[peer] == P.derive(KEY_CONTEXT, P.agree(old(pendingExchanges)[peer], theirs))
    {
      hide ToAll;
      assert outbox + multiset{} == outbox;
      LoadStoredKey(peer);
      ToOne(peer, ManifestRequest);
      if peer !in pendingExchanges {
        return;
      }
      var secret := pendingExchanges[peer];
      pendingExchanges := pendingExchanges - {peer};
      SetPeerKey(peer, SharedKey(P, secret, theirs));
      if asResponse && hasFolder {
        outbox := outbox + multiset{Letter(peer, ManifestRequest)};
      }
    }

    /**
      The key a manifest is sealed with. A key that every peer was given on the command line
      is taken over for this connection, without being stored; a generated one never is.
     */
    method OnManifestRequest(peer: Id) returns (key: Option<Bytes32>)
      modifies this`peerKeys
      ensures LinkTo(peer) == old(LinkTo(peer)).(key := key)
      ensures forall q | q != peer :: LinkTo(q) == old(LinkTo(q))
      ensures Tofu.Keyed(old(LinkTo(peer))) ==> key == Tofu.Load(old(LinkTo(peer))).key
      ensures !Tofu.Keyed(old(LinkTo(peer))) ==> key == if sharedKeyFromCli then encryptionKey else None
    {
      LoadStoredKey(peer);
      if peer !in peerKeys && encryptionKey.Some? && sharedKeyFromCli {
        peerKeys := peerKeys[peer := encryptionKey.value];
      }
      key := Get(peerKeys, peer);
    }

    // ── Connections and announcements ─────────────────────────────────────

    method Announce(peer: Id)
      modifies this`announcedTo, this`outbox
      ensures announcedTo == old(announcedTo) + {peer}
      ensures outbox == old(outbox) + multiset{Letter(peer, FolderAnnouncement)}
    {
      announcedTo := announcedTo + {peer};
      outbox := outbox + multiset{Letter(peer, FolderAnnouncement)};
    }

    method RequestManifest(peer: Id)
      modifies this`outbox
      ensures outbox == old(outbox) + multiset{Letter(peer, ManifestRequest)}
    {
      outbox := outbox + multiset{Letter(peer, ManifestRequest)};
    }

    method SetFolder()
      modifies this`hasFolder, this`announcedTo, this`outbox
      ensures var act := Mesh.OnSetFolder(old(MeshView()));
        MeshView() == act.view && outbox == old(outbox) + Letters(act.announce, act.request)
      ensures hasFolder && announcedTo == connectedPeers
    {
      hasFolder, announcedTo := true, {};
      GreetAll();
    }

    method GreetAll()
      requires announcedTo == {}
      modifies this`announcedTo, this`outbox
      ensures announcedTo == connectedPeers
      ensures outbox == old(outbox) + Letters(connectedPeers, connectedPeers)
    {
      ToOne(localId, FolderAnnouncement);
      ToOne(localId, ManifestRequest);
      assert outbox + (multiset{} + multiset{}) == outbox;
      hide ToAll;
      var rest := connectedPeers;
      while rest != {}
        invariant rest <= connectedPeers && announcedTo == connectedPeers - rest
        invariant outbox == old(outbox) + Letters(announcedTo, announcedTo)
      {
        var peer :| peer in rest;
        OneMoreAddressee(announcedTo, peer, FolderAnnouncement);
        OneMoreAddressee(announcedTo, peer, ManifestRequest);
        Announce(peer);
        RequestManifest(peer);
        rest := rest - {peer};
      }
      assert announcedTo == connectedPeers;
    }

    /** The folder part of a new connection. */
    method Greet(peer: Id, ready: bool)
      modifies this`announcedTo, this`outbox
      ensures var act := Mesh.OnConnected(old(MeshView()), peer, ready);
        announcedTo == act.view.announcedTo && outbox == old(outbox) + Letters(act.announce, act.request)
    {
      ToOne(peer, FolderAnnouncement);
      ToOne(peer, ManifestRequest);
      assert outbox + (multiset{} + multiset{}) == outbox;
      hide ToAll;
      if hasFolder {
        Announce(peer);
        if ready {
          RequestManifest(peer);
        }
      }
    }

    /** The key-exchange part of a new connection, after the stored key has been loaded. */
    method StartExchange(peer: Id, s: Bytes32)
      modifies this`pendingExchanges, this`outbox
      requires LinkTo(peer) == Tofu.Load(LinkTo(peer))
      ensures var turn := Tofu.OnEstablished(P, Tofu.Initiates(localId, peer)
          && !sharedKeyFromCli, old(LinkTo(peer)), s);
        LinkTo(peer) == turn.link && outbox == old(outbox) + KeyLetters(peer, turn.sent)
      ensures forall q | q != peer :: LinkTo(q) == old(LinkTo(q))
    {
      assert outbox + multiset{} == outbox;
      if !sharedKeyFromCli && peer !in peerKeys && Tofu.Initiates(localId, peer) {
        pendingExchanges := pendingExchanges[peer := s];
        outbox := outbox + multiset{Letter(peer, KeyExchange(Tofu.Propose(P.publicKey(s))))};
      }
    }

    /** `s` is the secret drawn if an exchange is started. */
    method OnConnectionEstablished(peer: Id, s: Bytes32)
      modifies this`connectedPeers, this`announcedTo, this`peerKeys, this`pendingExchanges, this`outbox
      ensures var was, initiates := old(LinkTo(peer)), Tofu.Initiates(localId, peer) && !sharedKeyFromCli;
        var act := Mesh.OnConnected(old(MeshView()), peer, Tofu.Keyed(was) || sharedKeyFromCli);
        && LinkTo(peer) == Tofu.OnEstablished(P, initiates, was, s).link
        && MeshView() == act.view
        && outbox == old(outbox) + Letters(act.announce, act.request) + KeyLetters(peer,
            Tofu.OnEstablished(P, initiates, was, s).sent)
      ensures forall q | q != peer :: LinkTo(q) == old(LinkTo(q))
      ensures connectedPeers == old(connectedPeers) + {peer}
      ensures announcedTo == old(announcedTo) + if hasFolder then {peer} else {}
    {
      hide LinkTo, Letters, KeyLetters, Tofu.Initiates, Tofu.OnEstablished, Tofu.Load, Tofu.Keyed;
      ghost var was := LinkTo(peer);
      connectedPeers := connectedPeers + {peer};
      LoadStoredKey(peer);
      Tofu.LoadingTwice(P, Tofu.Initiates(localId, peer) && !sharedKeyFromCli, was, s);
      Greet(peer, peer in peerKeys || sharedKeyFromCli);
      StartExchange(peer, s);
    }

    method OnConnectionClosed(peer: Id)
      modifies this`connectedPeers, this`announcedTo
      ensures MeshView() == Mesh.OnClosed(old(MeshView()), peer)
      ensures connectedPeers == old(connectedPeers) - {peer} && announcedTo == old(announcedTo) - {peer}
      ensures forall q :: LinkTo(q) == old(LinkTo(q))
    {
      connectedPeers := connectedPeers - {peer};
      announcedTo := announcedTo - {peer};
    }

    method OnFolderAnnouncement(peer: Id)
      modifies this`announcedTo, this`peerKeys, this`outbox
      ensures LinkTo(peer) == Tofu.Load(old(LinkTo(peer)))
      ensures forall q | q != peer :: LinkTo(q) == old(LinkTo(q))
      ensures var act := Mesh.OnAnnouncement(old(MeshView()), peerKeys.Keys, peer);
        MeshView() == act.view && outbox == old(outbox) + Letters(act.announce, act.request)
      ensures hasFolder ==> peer in announcedTo
    {
      hide LinkTo, Tofu.Load, Tofu.Keyed;
      LoadStoredKey(peer);
      ToOne(peer, FolderAnnouncement);
      RequestManifest(peer);
      if hasFolder && peer !in announcedTo {
        Announce(peer);
      }
      var others := set p | p in connectedPeers && p != peer && p in peerKeys;
      hide ToAll;
      AskAll(others);
      PeerAndOthers(peer, others);
    }

    method AskAll(peers: set<Id>)
      modifies this`outbox
      ensures outbox == old(outbox) + ToAll(peers, ManifestRequest)
    {
      var rest := peers;
      ToOne(localId, ManifestRequest);
      assert peers - rest == {};
      while rest != {}
        invariant rest <= peers && outbox == old(outbox) + ToAll(peers - rest, ManifestRequest)
      {
        hide ToAll;
        var peer :| peer in rest;
        OneMoreAddressee(peers - rest, peer, ManifestRequest);
        assert peers - rest + {peer} == peers - (rest - {peer});
        RequestManifest(peer);
        rest := rest - {peer};
      }
      assert peers - rest == peers;
    }
  }
}
