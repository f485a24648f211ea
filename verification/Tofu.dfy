/**
  The trust-on-first-use key exchange of src/sync/handler.rs and src/tofu.rs: one node's
  record of one peer, the two nodes of a connection with the messages between them, and what
  holds over any number of sessions, restarts and revocations.
 */
module Tofu {
  import opened Basics
  import opened Crypto
  import opened Listing

  // ── One node's record of one peer ───────────────────────────────────────

  /** The key in memory, the key in the store on disk, our pending secret, their pending proposal. */
  datatype Link = Link(key: Option<Bytes32>, stored: Option<Bytes32>, secret: Option<Bytes32>,
      approval: Option<Bytes32>)

  datatype Body = Propose(public: Bytes32) | Accept(public: Bytes32)

  datatype Turn = Turn(link: Link, sent: Option<Body>)

  /** Every handler first brings a stored key into memory. */
  function Load(l: Link): Link {
    if l.key.None? then l.(key := l.stored) else l
  }

  predicate Keyed(l: Link) {
    l.key.Some? || l.stored.Some?
  }

  /** `set_peer_key`: to disk, then to memory. */
  function WithKey(l: Link, key: Bytes32): Link {
    l.(key := Some(key), stored := Some(key))
  }

  /** Only the node with the lower id starts an exchange. */
  predicate Initiates(own: string, other: string) {
    Before(own, other)
  }

  /** The key-exchange part of `ConnectionEstablished`; `s` is the secret it would draw. */
  function OnEstablished(P: Primitives, initiates: bool, l: Link, s: Bytes32): Turn {
    var l1 := Load(l);
    if l1.key.Some? || !initiates then Turn(l1, None)
    else Turn(l1.(secret := Some(s)), Some(Propose(P.publicKey(s))))
  }

  lemma LoadingTwice(P: Primitives, initiates: bool, l: Link, s: Bytes32)
    ensures Load(Load(l)) == Load(l) && OnEstablished(P, initiates, Load(l), s) == OnEstablished(P, initiates, l, s)
  {
  }

  /** A proposal waits for approval, unless the peer is trusted already: then it is answered at once. */
  function OnPropose(P: Primitives, l: Link, public: Bytes32, t: Bytes32): Turn {
    var l1 := Load(l);
    if Keyed(l1) then Turn(WithKey(l1, SharedKey(P, t, public)), Some(Accept(P.publicKey(t))))
    else Turn(l1.(approval := Some(public)), None)
  }

  function OnAccept(P: Primitives, l: Link, public: Bytes32): Link {
    var l1 := Load(l);
    match l1.secret
    case None => l1
    case Some(s) => WithKey(l1.(secret := None), SharedKey(P, s, public))
  }

  function Approve(P: Primitives, l: Link, t: Bytes32): Turn {
    match l.approval
    case None => Turn(l, None)
    case Some(public) => Turn(WithKey(l.(approval := None), SharedKey(P, t, public)), Some(Accept(P.publicKey(t))))
  }

  function Deny(l: Link): Link {
    l.(approval := None)
  }

  function Revoke(l: Link): Link {
    l.(key := None, stored := None)
  }

  /** Memory is lost, the store stays. */
  function Restart(l: Link): Link {
    Link(None, l.stored, None, None)
  }

  datatype Act =
    | Connect(s: Bytes32)
    | Receive(body: Body, t: Bytes32)
    | Approval(t: Bytes32)
    | Denial
    | Revocation
    | Restarting
    | Traffic        // any other message from the peer

  function LinkStep(P: Primitives, initiates: bool, l: Link, act: Act): Turn {
    match act
    case Connect(s) => OnEstablished(P, initiates, l, s)
    case Receive(Propose(public), t) => OnPropose(P, l, public, t)
    case Receive(Accept(public), _) => Turn(OnAccept(P, l, public), None)
    case Approval(t) => Approve(P, l, t)
    case Denial => Turn(Deny(l), None)
    case Revocation => Turn(Revoke(l), None)
    case Restarting => Turn(Restart(l), None)
    case Traffic => Turn(Load(l), None)
  }

  // ── Gating: what a peer can bring about on its own ──────────────────────

  function LinkRun(P: Primitives, initiates: bool, l: Link, acts: seq<Act>): Link {
    if acts == [] then l
    else LinkStep(P, initiates, LinkRun(P, initiates, l, acts[..|acts| - 1]), acts[|acts| - 1]).link
  }

  const STRANGER := Link(None, None, None, None)

  predicate Persisted(l: Link) {
    l.key.Some? ==> l.stored.Some?
  }

  /** The two ways from no key to a key: a granted approval, or an answer to our own proposal. */
  predicate Consumes(l: Link, act: Act) {
    || (act.Approval? && l.approval.Some?)
    || (act.Receive? && act.body.Accept? && l.secret.Some?)
  }

  lemma StepGating(P: Primitives, initiates: bool, l: Link, act: Act)
    ensures var l' := LinkStep(P, initiates, l, act).link;
      && (Keyed(l') ==> Keyed(l) || Consumes(l, act))
      && (!act.Revocation? && Persisted(l) && (Keyed(l) || Consumes(l, act)) ==> Keyed(l'))
      && (!act.Revocation? && Persisted(l) ==> Persisted(l'))
      && (l.secret.None? && !initiates ==> l'.secret.None?)
  {
  }

  /** At some moment of the run. */
  predicate Consented(P: Primitives, initiates: bool, l: Link, acts: seq<Act>) {
    acts != [] && (
      var rest := acts[..|acts| - 1];
      Consented(P, initiates, l, rest) || Consumes(LinkRun(P, initiates, l, rest), acts[|acts| - 1]))
  }

  /**
    Whatever a peer sends, in whatever order, and however often the node restarts: as long as
    nothing is revoked, a node that began as a stranger holds a key exactly when its user
    granted an approval that was pending or, if it is the initiator, one of its own proposals
    was answered.
   */
  lemma {:induction false} KeyedExactlyByConsent(P: Primitives, initiates: bool, acts: seq<Act>)
    requires forall k | 0 <= k < |acts| :: !acts[k].Revocation?
    ensures Keyed(LinkRun(P, initiates, STRANGER, acts)) <==> Consented(P, initiates, STRANGER, acts)
    ensures Persisted(LinkRun(P, initiates, STRANGER, acts))
  {
    if acts != [] {
      var rest, act := acts[..|acts| - 1], acts[|acts| - 1];
      KeyedExactlyByConsent(P, initiates, rest);
      StepGating(P, initiates, LinkRun(P, initiates, STRANGER, rest), act);
      hide LinkStep, Consumes, Keyed, Persisted;
    }
  }

  /**
    The responder never has a secret of its own, so without a granted approval it gets no key:
    from a stranger's state, and just as well after its user has revoked one.
   */
  lemma {:induction false} ResponderNeedsApproval(P: Primitives, l: Link, acts: seq<Act>)
    requires !Keyed(l) && l.secret.None?
    requires forall k | 0 <= k < |acts| && acts[k].Approval? :: LinkRun(P, false, l, acts[..k]).approval.None?
    ensures !Keyed(LinkRun(P, false, l, acts)) && LinkRun(P, false, l, acts).secret.None?
  {
    if acts != [] {
      var n := |acts| - 1;
      var rest := acts[..n];
      forall k | 0 <= k < n && rest[k].Approval? ensures LinkRun(P, false, l, rest[..k]).approval.None? {
        assert rest[..k] == acts[..k];
      }
      ResponderNeedsApproval(P, l, rest);
      StepGating(P, false, LinkRun(P, false, l, rest), acts[n]);
    }
  }

  /** How often the run did something of this kind. */
  function Secrets(P: Primitives, initiates: bool, l: Link, acts: seq<Act>): nat {
    if acts == [] then 0 else
    var rest := acts[..|acts| - 1];
    Secrets(P, initiates, l, rest)
      + if acts[|acts| - 1].Connect? && !Keyed(LinkRun(P, initiates, l, rest)) then 1 else 0
  }

  function SecretsUsed(P: Primitives, initiates: bool, l: Link, acts: seq<Act>): nat {
    if acts == [] then 0 else
    var rest, act := acts[..|acts| - 1], acts[|acts| - 1];
    SecretsUsed(P, initiates, l, rest) + if Consumes(LinkRun(P, initiates, l, rest), act) && act.Receive? then 1 else 0
  }

  function Proposals(P: Primitives, initiates: bool, l: Link, acts: seq<Act>): nat {
    if acts == [] then 0 else
    var rest, act := acts[..|acts| - 1], acts[|acts| - 1];
    Proposals(P, initiates, l, rest)
      + if act.Receive? && act.body.Propose? && !Keyed(LinkRun(P, initiates, l, rest)) then 1 else 0
  }

  function ApprovalsUsed(P: Primitives, initiates: bool, l: Link, acts: seq<Act>): nat {
    if acts == [] then 0 else
    var rest, act := acts[..|acts| - 1], acts[|acts| - 1];
    ApprovalsUsed(P, initiates, l, rest)
      + if Consumes(LinkRun(P, initiates, l, rest), act) && act.Approval? then 1 else 0
  }

  function Held<T>(o: Option<T>): nat {
    if o.Some? then 1 else 0
  }

  lemma StepUsesOnce(P: Primitives, initiates: bool, l: Link, act: Act)
    ensures var l' := LinkStep(P, initiates, l, act).link;
      && Held(l'.secret) + (if Consumes(l, act) && act.Receive? then 1 else 0)
           <= Held(l.secret) + (if act.Connect? && !Keyed(l) then 1 else 0)
      && Held(l'.approval) + (if Consumes(l, act) && act.Approval? then 1 else 0)
           <= Held(l.approval) + (if act.Receive? && act.body.Propose? && !Keyed(l) then 1 else 0)
  {
  }

  /** Each secret and each pending approval makes at most one key, over every run. */
  lemma {:induction false} SecretsAndApprovalsAreSingleUse(P: Primitives, initiates: bool, acts: seq<Act>)
    ensures var end := LinkRun(P, initiates, STRANGER, acts);
      && SecretsUsed(P, initiates, STRANGER, acts) + Held(end.secret) <= Secrets(P, initiates, STRANGER, acts)
      && ApprovalsUsed(P, initiates, STRANGER, acts) + Held(end.approval) <= Proposals(P, initiates, STRANGER, acts)
  {
    if acts != [] {
      var rest, act := acts[..|acts| - 1], acts[|acts| - 1];
      SecretsAndApprovalsAreSingleUse(P, initiates, rest);
      StepUsesOnce(P, initiates, LinkRun(P, initiates, STRANGER, rest), act);
      hide LinkStep, Consumes, Held, Keyed;
    }
  }

  // ── Two nodes and the messages between them ─────────────────────────────

  datatype Side = A | B

  /** `up`: it has seen this session begin. `current`: its pending proposal came in this session. */
  datatype Node = Node(link: Link, up: bool, current: bool)

  datatype Msg = Msg(to: Side, body: Body)

  /** Messages in flight, which may be delivered in any order. */
  datatype Sys = Sys(a: Node, b: Node, msgs: multiset<Msg>)

  /** One side acts, the connection ends, or a message is lost while it lasts. */
  datatype Event = At(side: Side, act: Act) | Disconnected | Lost(msg: Msg)

  /** The primitives and the ids of the two nodes. */
  datatype Pair = Pair(P: Primitives, idA: string, idB: string)

  function Other(side: Side): Side {
    if side.A? then B else A
  }

  function InitiatesAt(p: Pair, side: Side): bool {
    if side.A? then Initiates(p.idA, p.idB) else Initiates(p.idB, p.idA)
  }

  /** Of two different ids exactly one side may propose. */
  lemma ExactlyOneInitiates(p: Pair)
    requires p.idA != p.idB
    ensures InitiatesAt(p, A) != InitiatesAt(p, B)
  {
    BeforeIsTotal(p.idA, p.idB);
  }

  function NodeAt(sys: Sys, side: Side): Node {
    if side.A? then sys.a else sys.b
  }

  function WithNode(sys: Sys, side: Side, n: Node): Sys {
    if side.A? then sys.(a := n) else sys.(b := n)
  }

  function Ended(n: Node): Node {
    n.(up := false, current := false)
  }

  /** The connection is gone on both sides, and with it whatever was in flight. */
  function EndSession(sys: Sys): Sys {
    Sys(Ended(sys.a), Ended(sys.b), multiset{})
  }

  function NodeStep(P: Primitives, initiates: bool, n: Node, act: Act): Node {
    Node(LinkStep(P, initiates, n.link, act).link,
         n.up || act.Connect?,
         match act
         case Receive(Propose(_), _) => n.current || !Keyed(n.link)
         case Approval(_) => false
         case Denial => false
         case _ => n.current)
  }

  function Sent(to: Side, body: Option<Body>): multiset<Msg> {
    match body
    case None => multiset{}
    case Some(b) => multiset{Msg(to, b)}
  }

  function Delivered(side: Side, act: Act): multiset<Msg> {
    if act.Receive? then multiset{Msg(side, act.body)} else multiset{}
  }

  function Step(p: Pair, sys: Sys, e: Event): Sys {
    match e
    case Disconnected => EndSession(sys)
    case Lost(m) => sys.(msgs := sys.msgs - multiset{m})
    case At(side, act) =>
      var n := NodeAt(sys, side);
      var after := WithNode(sys, side, NodeStep(p.P, InitiatesAt(p, side), n, act));
      if act.Restarting? then EndSession(after)
      else after.(msgs := sys.msgs - Delivered(side, act)
                        + Sent(Other(side), LinkStep(p.P, InitiatesAt(p, side), n.link, act).sent))
  }

  /** A session begins once on each side, and only messages that were sent are received. */
  predicate Possible(sys: Sys, e: Event) {
    match e
    case Disconnected => true
    case Lost(m) => m in sys.msgs
    case At(side, act) => (act.Connect? ==> !NodeAt(sys, side).up) && Delivered(side, act) <= sys.msgs
  }

  /** An approval of a proposal that came in an earlier session. */
  predicate Stale(sys: Sys, e: Event) {
    e.At? && e.act.Approval? && NodeAt(sys, e.side).link.approval.Some? && !NodeAt(sys, e.side).current
  }

  /** Moreover, the user only approves a proposal of the session that is on. */
  predicate Proper(sys: Sys, e: Event) {
    Possible(sys, e) && !Stale(sys, e)
  }

  function Run(p: Pair, sys: Sys, events: seq<Event>): Sys {
    if events == [] then sys else Step(p, Run(p, sys, events[..|events| - 1]), events[|events| - 1])
  }

  predicate ProperRun(p: Pair, sys: Sys, events: seq<Event>) {
    events == [] || (
      var rest := events[..|events| - 1];
      ProperRun(p, sys, rest) && Proper(Run(p, sys, rest), events[|events| - 1]))
  }

  /** Two nodes that have just been started, with these keys in their stores. */
  function Started(storedA: Option<Bytes32>, storedB: Option<Bytes32>): Sys {
    Sys(Node(Link(None, storedA, None, None), false, false), Node(Link(None, storedB, None, None), false, false),
        multiset{})
  }

  // ── Agreement ───────────────────────────────────────────────────────────

  predicate Agree(sys: Sys) {
    sys.a.link.key.Some? && sys.b.link.key.Some? ==> sys.a.link.key == sys.b.link.key
  }

  /** A message is the initiator's current proposal, or the answer that will give it the responder's key. */
  predicate MessageFits(P: Primitives, a: Link, b: Link, m: Msg) {
    && a.secret.Some? && !Keyed(a)
    && match m.body
       case Propose(public) => m.to == B && public == P.publicKey(a.secret.value)
       case Accept(public) => m.to == A && (Keyed(b) ==> b.stored == Some(SharedKey(P, a.secret.value, public)))
  }

  predicate KeysFit(a: Link, b: Link) {
    && (a.key.Some? ==> a.stored == a.key) && (b.key.Some? ==> b.stored == b.key)
    && (a.stored.Some? && b.stored.Some? ==> a.stored == b.stored)
  }

  predicate RolesFit(a: Link, b: Link) {
    && b.secret.None? && a.approval.None?
    && (Keyed(a) ==> a.secret.None?)
    && (Keyed(b) ==> b.approval.None?)
  }

  predicate ApprovalFits(P: Primitives, a: Link, b: Link) {
    a.secret.Some? && !Keyed(a) && b.approval == Some(P.publicKey(a.secret.value))
  }

  /** What every step keeps when A is the initiator. */
  ghost predicate Fits(P: Primitives, sys: Sys) {
    var a, b := sys.a.link, sys.b.link;
    && KeysFit(a, b) && RolesFit(a, b) && !sys.a.current
    && |sys.msgs| <= 1
    && (forall m | m in sys.msgs :: MessageFits(P, a, b, m))
    && (sys.b.current ==> sys.msgs == multiset{} && ApprovalFits(P, a, b))
    && (!sys.a.up ==> sys.msgs == multiset{} && !sys.b.current)
  }

  lemma TheOnlyMessage(msgs: multiset<Msg>, m: Msg)
    requires m in msgs && |msgs| <= 1
    ensures msgs == multiset{m}
  {
    assert |msgs - multiset{m}| == 0;
  }

  /** Diffie-Hellman as the two sides use it. */
  lemma SameKeyOnBothSides(P: Primitives, s: Bytes32, t: Bytes32)
    requires AgreementCommutes(P)
    ensures SharedKey(P, s, P.publicKey(t)) == SharedKey(P, t, P.publicKey(s))
  {
  }

  lemma MessageReceived(p: Pair, sys: Sys, side: Side, act: Act)
    requires AgreementCommutes(p.P) && Initiates(p.idA, p.idB) && !Initiates(p.idB, p.idA)
    requires Fits(p.P, sys) && act.Receive? && Proper(sys, At(side, act))
    ensures Fits(p.P, Step(p, sys, At(side, act)))
  {
    var m := Msg(side, act.body);
    assert m in sys.msgs;
    TheOnlyMessage(sys.msgs, m);
    assert MessageFits(p.P, sys.a.link, sys.b.link, m);
    assert sys.msgs - multiset{m} == multiset{};
    SameKeyOnBothSides(p.P, sys.a.link.secret.value, act.t);
    hide SharedKey;
  }

  lemma ProposalApproved(p: Pair, sys: Sys, side: Side, act: Act)
    requires AgreementCommutes(p.P) && Fits(p.P, sys) && act.Approval? && Proper(sys, At(side, act))
    ensures Fits(p.P, Step(p, sys, At(side, act)))
  {
    if side.B? && sys.b.current {
      SameKeyOnBothSides(p.P, sys.a.link.secret.value, act.t);
    }
    assert sys.msgs - multiset{} + multiset{} == sys.msgs;
    hide SharedKey;
  }

  lemma InitiatorConnects(p: Pair, sys: Sys, act: Act)
    requires Initiates(p.idA, p.idB) && Fits(p.P, sys) && act.Connect? && Proper(sys, At(A, act))
    ensures Fits(p.P, Step(p, sys, At(A, act)))
  {
    hide SharedKey, Initiates;
    assert sys.msgs == multiset{};
    var sys' := Step(p, sys, At(A, act));
    if Keyed(sys.a.link) {
      assert sys'.msgs == multiset{};
    } else {
      assert sys'.msgs == multiset{Msg(B, Propose(p.P.publicKey(act.s)))};
    }
  }

  lemma ResponderConnects(p: Pair, sys: Sys, act: Act)
    requires !Initiates(p.idB, p.idA) && Fits(p.P, sys) && act.Connect?
    ensures Fits(p.P, Step(p, sys, At(B, act)))
  {
    hide SharedKey, Initiates;
    assert Step(p, sys, At(B, act)).msgs == sys.msgs;
    MessagesStillFit(p.P, sys, Step(p, sys, At(B, act)));
  }

  lemma MessagesStillFit(P: Primitives, sys: Sys, sys': Sys)
    requires Fits(P, sys) && sys'.msgs == sys.msgs && sys'.a.link.secret == sys.a.link.secret
    requires (Keyed(sys'.a.link) ==> Keyed(sys.a.link))
    requires (sys'.b.link.stored == sys.b.link.stored && KeysFit(sys'.a.link, sys'.b.link)) || !Keyed(sys'.b.link)
    ensures forall m | m in sys'.msgs :: MessageFits(P, sys'.a.link, sys'.b.link, m)
  {
    hide SharedKey;
    forall m | m in sys'.msgs ensures MessageFits(P, sys'.a.link, sys'.b.link, m) {
      assert MessageFits(P, sys.a.link, sys.b.link, m);
    }
  }

  /** Steps that neither send nor receive leave the messages fitting. */
  lemma QuietStep(p: Pair, sys: Sys, side: Side, act: Act)
    requires Fits(p.P, sys) && (act.Denial? || act.Revocation? || act.Traffic?)
    ensures Fits(p.P, Step(p, sys, At(side, act)))
  {
    hide SharedKey, Initiates, Fits;
    var sys' := Step(p, sys, At(side, act));
    assert sys'.msgs == sys.msgs;
    if side.A? { QuietA(p.P, sys, sys', act); } else { QuietB(p.P, sys, sys', act); }
  }

  predicate QuietLink(l: Link, l': Link, act: Act) {
    l' == if act.Denial? then Deny(l) else if act.Revocation? then Revoke(l) else Load(l)
  }

  lemma QuietA(P: Primitives, sys: Sys, sys': Sys, act: Act)
    requires Fits(P, sys) && QuietLink(sys.a.link, sys'.a.link, act)
    requires sys' == sys.(a := Node(sys'.a.link, sys.a.up, sys.a.current && !act.Denial?))
    ensures Fits(P, sys')
  {
    MessagesStillFit(P, sys, sys');
    hide MessageFits, SharedKey;
  }

  lemma QuietB(P: Primitives, sys: Sys, sys': Sys, act: Act)
    requires Fits(P, sys) && QuietLink(sys.b.link, sys'.b.link, act)
    requires sys' == sys.(b := Node(sys'.b.link, sys.b.up, sys.b.current && !act.Denial?))
    ensures Fits(P, sys')
  {
    MessagesStillFit(P, sys, sys');
    hide MessageFits, SharedKey;
  }

  lemma SessionOver(p: Pair, sys: Sys, e: Event)
    requires Fits(p.P, sys) && (e.Disconnected? || (e.At? && e.act.Restarting?))
    ensures Fits(p.P, Step(p, sys, e))
  {
    hide SharedKey;
  }

  lemma MessageLost(p: Pair, sys: Sys, m: Msg)
    requires Fits(p.P, sys) && m in sys.msgs
    ensures Fits(p.P, Step(p, sys, Lost(m)))
  {
    hide SharedKey, MessageFits;
    TheOnlyMessage(sys.msgs, m);
    assert sys.msgs - multiset{m} == multiset{};
  }

  lemma StepFits(p: Pair, sys: Sys, e: Event)
    requires AgreementCommutes(p.P) && Initiates(p.idA, p.idB) && !Initiates(p.idB, p.idA)
    requires Fits(p.P, sys) && Proper(sys, e)
    ensures Fits(p.P, Step(p, sys, e))
  {
    hide Fits, Step, SharedKey;
    match e
    case Disconnected => SessionOver(p, sys, e);
    case Lost(m) => MessageLost(p, sys, m);
    case At(side, act) =>
      match act {
        case Connect(_) => if side.A? { InitiatorConnects(p, sys, act); } else { ResponderConnects(p, sys, act); }
        case Receive(_, _) => MessageReceived(p, sys, side, act);
        case Approval(_) => ProposalApproved(p, sys, side, act);
        case Restarting => SessionOver(p, sys, e);
        case _ => QuietStep(p, sys, side, act);
      }
  }

  lemma {:induction false} RunsFit(p: Pair, sys: Sys, events: seq<Event>)
    requires AgreementCommutes(p.P) && Initiates(p.idA, p.idB) && Fits(p.P, sys) && ProperRun(p, sys, events)
    ensures Fits(p.P, Run(p, sys, events))
  {
    if events != [] {
      BeforeIsTotal(p.idA, p.idB);
      RunsFit(p, sys, events[..|events| - 1]);
      StepFits(p, Run(p, sys, events[..|events| - 1]), events[|events| - 1]);
    }
  }

  ghost predicate AlwaysAgree(p: Pair, sys: Sys) {
    forall events: seq<Event> | ProperRun(p, sys, events) :: Agree(Run(p, sys, events))
  }

  lemma FitsAgrees(P: Primitives, sys: Sys)
    requires Fits(P, sys)
    ensures Agree(sys)
  {
    hide MessageFits, RolesFit, ApprovalFits;
  }

  /** Two keys that differ are in use as soon as both sides have connected. */
  lemma ConflictShows(p: Pair, storedA: Option<Bytes32>, storedB: Option<Bytes32>) returns (events: seq<Event>)
    requires storedA.Some? && storedB.Some? && storedA != storedB
    ensures ProperRun(p, Started(storedA, storedB), events) && !Agree(Run(p, Started(storedA, storedB), events))
  {
    var k: Bytes32 := Zeros(32);
    var start, a, b := Started(storedA, storedB), At(A, Connect(k)), At(B, Connect(k));
    var s1 := Step(p, start, a);
    assert Proper(start, a) && Proper(s1, b) && !Agree(Step(p, s1, b));
    hide Step, Proper;
    assert Run(p, start, []) == start && [] + [a] == [a];
    Extend(p, start, [], a);
    Extend(p, start, [a], b);
    events := [a] + [b];
  }

  /**
    Agreement, at every moment of every run: over any number of sessions, with restarts,
    revocations, denials and lost messages, two nodes that both hold a key hold the same one -
    exactly when their stores did not already contain two different keys.
   */
  lemma AgreementExactly(p: Pair, storedA: Option<Bytes32>, storedB: Option<Bytes32>)
    requires AgreementCommutes(p.P) && Initiates(p.idA, p.idB)
    ensures AlwaysAgree(p, Started(storedA, storedB)) <==> !(storedA.Some? && storedB.Some? && storedA != storedB)
  {
    var start := Started(storedA, storedB);
    if storedA.Some? && storedB.Some? && storedA != storedB {
      var events := ConflictShows(p, storedA, storedB);
    } else {
      hide Run, ProperRun, Agree;
      forall events | ProperRun(p, start, events) ensures Agree(Run(p, start, events)) {
        RunsFit(p, start, events);
        FitsAgrees(p.P, Run(p, start, events));
      }
    }
  }

  // ── Who has to act ──────────────────────────────────────────────────────

  /** While the initiator has no key, its exchange is on the way or waits for the other user. */
  predicate Underway(sys: Sys) {
    sys.a.up && !Keyed(sys.a.link) ==> sys.msgs != multiset{} || sys.b.current
  }

  lemma {:induction false} WaitsOnlyForTheUser(p: Pair, sys: Sys, events: seq<Event>)
    requires AgreementCommutes(p.P) && Initiates(p.idA, p.idB) && Fits(p.P, sys) && Underway(sys)
    requires ProperRun(p, sys, events)
    requires forall k | 0 <= k < |events| ::
               events[k] != At(B, Denial) && events[k] != At(A, Revocation) && !events[k].Lost?
    ensures Underway(Run(p, sys, events))
  {
    if events != [] {
      var rest, e := events[..|events| - 1], events[|events| - 1];
      BeforeIsTotal(p.idA, p.idB);
      RunsFit(p, sys, rest);
      WaitsOnlyForTheUser(p, sys, rest);
      StepStaysUnderway(p, Run(p, sys, rest), e);
    }
  }

  lemma StepStaysUnderway(p: Pair, sys: Sys, e: Event)
    requires Initiates(p.idA, p.idB) && !Initiates(p.idB, p.idA)
    requires Fits(p.P, sys) && Underway(sys) && Proper(sys, e)
    requires e != At(B, Denial) && e != At(A, Revocation) && !e.Lost?
    ensures Underway(Step(p, sys, e))
  {
    if e.At? && e.act.Receive? {
      var m := Msg(e.side, e.act.body);
      assert m in sys.msgs;
      assert MessageFits(p.P, sys.a.link, sys.b.link, m);
    }
    hide SharedKey, Initiates, MessageFits, KeysFit;
  }

  predicate EndsSession(e: Event) {
    e.Disconnected? || (e.At? && e.act.Restarting?)
  }

  /**
    Once nothing is under way any more - a proposal or an answer was lost, or the user denied it -
    nothing gets under way again in this session, whatever either side does.
   */
  lemma {:induction false} StuckUntilNextSession(p: Pair, sys: Sys, events: seq<Event>)
    requires AgreementCommutes(p.P) && Initiates(p.idA, p.idB) && Fits(p.P, sys) && !Underway(sys)
    requires ProperRun(p, sys, events) && forall k | 0 <= k < |events| :: !EndsSession(events[k])
    ensures !Underway(Run(p, sys, events))
  {
    if events != [] {
      var rest, e := events[..|events| - 1], events[|events| - 1];
      BeforeIsTotal(p.idA, p.idB);
      RunsFit(p, sys, rest);
      StuckUntilNextSession(p, sys, rest);
      assert !EndsSession(e);
      StepStaysStuck(p, Run(p, sys, rest), e);
    }
  }

  lemma StepStaysStuck(p: Pair, sys: Sys, e: Event)
    requires !Initiates(p.idB, p.idA) && Fits(p.P, sys) && !Underway(sys) && Proper(sys, e) && !EndsSession(e)
    ensures !Underway(Step(p, sys, e))
  {
    hide SharedKey, Initiates, MessageFits, KeysFit;
    assert sys.msgs == multiset{};
  }

  // ── Revocation ──────────────────────────────────────────────────────────

  /**
    A key revoked by the initiator is replaced the next time the two connect, although neither
    user approves anything: the responder still trusts it and answers its proposal at once.
   */
  lemma RevocationByInitiatorIsUndone(p: Pair, sys: Sys, s: Bytes32, t: Bytes32) returns (again: seq<Event>)
    requires AgreementCommutes(p.P) && Initiates(p.idA, p.idB) && Fits(p.P, sys) && Keyed(sys.b.link)
    ensures ProperRun(p, sys, again) && At(A, Revocation) in again
    ensures forall e | e in again && e.At? :: !e.act.Approval?
    ensures Run(p, sys, again).a.link.key == Some(SharedKey(p.P, s, p.P.publicKey(t))) == Run(p, sys, again).b.link.key
  {
    RevokedAndClosed(p, sys);
    hide Run, ProperRun, Fits, Keyed, SharedKey;
    again := [At(A, Revocation)] + [Disconnected] + Rekeying(p, s, t);
    RekeyingRuns(p, sys, [At(A, Revocation)] + [Disconnected], s, t);
    assert again[0] == At(A, Revocation);
  }

  lemma RevokedAndClosed(p: Pair, sys: Sys)
    ensures var events := [At(A, Revocation)] + [Disconnected];
      var now := Run(p, sys, events);
      && ProperRun(p, sys, events)
      && !Keyed(now.a.link) && now.b.link == sys.b.link && !now.a.up && now.msgs == multiset{}
  {
    var s1 := Step(p, sys, At(A, Revocation));
    assert Run(p, sys, []) == sys && ProperRun(p, sys, []);
    Extend(p, sys, [], At(A, Revocation));
    assert [] + [At(A, Revocation)] == [At(A, Revocation)];
    Extend(p, sys, [At(A, Revocation)], Disconnected);
  }

  /** The three events of an exchange with a node that trusts the other already. */
  function Rekeying(p: Pair, s: Bytes32, t: Bytes32): seq<Event> {
    [At(A, Connect(s)), At(B, Receive(Propose(p.P.publicKey(s)), t)), At(A, Receive(Accept(p.P.publicKey(t)), t))]
  }

  lemma RekeyingRuns(p: Pair, sys: Sys, before: seq<Event>, s: Bytes32, t: Bytes32)
    requires AgreementCommutes(p.P) && Initiates(p.idA, p.idB) && ProperRun(p, sys, before)
    requires var now := Run(p, sys, before);
      !Keyed(now.a.link) && Keyed(now.b.link) && !now.a.up && now.msgs == multiset{}
    ensures var again := before + Rekeying(p, s, t);
      && ProperRun(p, sys, again)
      && Run(p, sys, again).a.link.key == Some(SharedKey(p.P, s, p.P.publicKey(t))) == Run(p, sys, again).b.link.key
  {
    hide Step, Proper, Initiates, Run, ProperRun, SharedKey, Keyed, AgreementCommutes;
    SilentRekey(p, Run(p, sys, before), s, t);
    var es := Rekeying(p, s, t);
    Extend(p, sys, before, es[0]);
    Extend(p, sys, before + [es[0]], es[1]);
    Extend(p, sys, before + [es[0]] + [es[1]], es[2]);
    assert before + es == before + [es[0]] + [es[1]] + [es[2]];
  }

  lemma Extend(p: Pair, sys: Sys, events: seq<Event>, e: Event)
    requires ProperRun(p, sys, events) && Proper(Run(p, sys, events), e)
    ensures ProperRun(p, sys, events + [e]) && Run(p, sys, events + [e]) == Step(p, Run(p, sys, events), e)
  {
    hide Step, Proper;
    assert (events + [e])[..|events|] == events;
  }

  /** From an initiator without a key to a common key in three events, none of them an approval. */
  lemma SilentRekey(p: Pair, sys: Sys, s: Bytes32, t: Bytes32)
    requires AgreementCommutes(p.P) && Initiates(p.idA, p.idB)
    requires !Keyed(sys.a.link) && Keyed(sys.b.link) && !sys.a.up && sys.msgs == multiset{}
    ensures var propose, answer := At(B, Receive(Propose(p.P.publicKey(s)), t)),
        At(A, Receive(Accept(p.P.publicKey(t)), t));
      var s1 := Step(p, sys, At(A, Connect(s)));
      var s2 := Step(p, s1, propose);
      var s3 := Step(p, s2, answer);
      && Proper(sys, At(A, Connect(s))) && Proper(s1, propose) && Proper(s2, answer)
      && s3.a.link.key == Some(SharedKey(p.P, s, p.P.publicKey(t))) == s3.b.link.key
  {
    SameKeyOnBothSides(p.P, s, t);
    var s1 := Step(p, sys, At(A, Connect(s)));
    assert s1.msgs == multiset{Msg(B, Propose(p.P.publicKey(s)))};
    var s2 := Step(p, s1, At(B, Receive(Propose(p.P.publicKey(s)), t)));
    assert s2.msgs == multiset{Msg(A, Accept(p.P.publicKey(t)))};
    hide SharedKey, Initiates;
  }

  /**
    A key revoked by the responder alone is never replaced: as long as the initiator keeps its
    key no proposal is ever made, in however many sessions.
   */
  lemma {:induction false} RevocationByResponderIsFinal(p: Pair, sys: Sys, events: seq<Event>)
    requires AgreementCommutes(p.P) && Initiates(p.idA, p.idB) && Fits(p.P, sys) && ProperRun(p, sys, events)
    requires Keyed(sys.a.link) && !Keyed(sys.b.link)
    requires forall k | 0 <= k < |events| :: events[k] != At(A, Revocation)
    ensures Keyed(Run(p, sys, events).a.link) && !Keyed(Run(p, sys, events).b.link)
  {
    if events != [] {
      var rest, e := events[..|events| - 1], events[|events| - 1];
      var before := Run(p, sys, rest);
      BeforeIsTotal(p.idA, p.idB);
      RunsFit(p, sys, rest);
      RevocationByResponderIsFinal(p, sys, rest);
      KeyedInitiatorIsSilent(p, before, e);
    }
  }

  lemma KeyedInitiatorIsSilent(p: Pair, sys: Sys, e: Event)
    requires Initiates(p.idA, p.idB) && !Initiates(p.idB, p.idA)
    requires Fits(p.P, sys) && Proper(sys, e) && e != At(A, Revocation)
    requires Keyed(sys.a.link) && !Keyed(sys.b.link)
    ensures Keyed(Step(p, sys, e).a.link) && !Keyed(Step(p, sys, e).b.link)
  {
    hide SharedKey, Initiates, Fits;
    NothingUnderway(p.P, sys);
  }

  lemma NothingUnderway(P: Primitives, sys: Sys)
    requires Fits(P, sys) && Keyed(sys.a.link)
    ensures sys.msgs == multiset{} && !sys.b.current && sys.b.link.secret.None? && sys.a.link.stored.Some?
  {
    assert forall m | m in sys.msgs :: MessageFits(P, sys.a.link, sys.b.link, m);
  }

  // ── Approving a proposal of an earlier session ──────────────────────────

  predicate PossibleRun(p: Pair, sys: Sys, events: seq<Event>) {
    events == [] || (
      var rest := events[..|events| - 1];
      PossibleRun(p, sys, rest) && Possible(Run(p, sys, rest), events[|events| - 1]))
  }

  lemma ExtendPossible(p: Pair, sys: Sys, events: seq<Event>, e: Event)
    requires PossibleRun(p, sys, events) && Possible(Run(p, sys, events), e)
    ensures PossibleRun(p, sys, events + [e]) && Run(p, sys, events + [e]) == Step(p, Run(p, sys, events), e)
  {
    hide Step, Possible;
    assert (events + [e])[..|events|] == events;
  }

  /**
    Two strangers meet twice. B's user leaves the first proposal pending, the session ends, the
    initiator proposes again, and only then the first proposal is approved.
   */
  function ApprovedLate(p: Pair, s1: Bytes32, s2: Bytes32, t: Bytes32): seq<Event> {
    [At(A, Connect(s1))] + [At(B, Receive(Propose(p.P.publicKey(s1)), t))] + [Disconnected] + [At(A, Connect(s2))]
      + [At(B, Approval(t))]
  }

  /** What A and B make of the two messages now in flight. */
  function AnswerToA(p: Pair, t: Bytes32): Event {
    At(A, Receive(Accept(p.P.publicKey(t)), t))
  }

  function ProposalToB(p: Pair, s2: Bytes32, t': Bytes32): Event {
    At(B, Receive(Propose(p.P.publicKey(s2)), t'))
  }

  /** Two different public keys that lead to one shared key. */
  predicate SameKey(P: Primitives, secret: Bytes32, x: Bytes32, y: Bytes32) {
    x != y && P.derive(KEY_CONTEXT, P.agree(secret, x)) == P.derive(KEY_CONTEXT, P.agree(secret, y))
  }

  lemma SameKeyMeans(P: Primitives, secret: Bytes32, x: Bytes32, y: Bytes32)
    ensures SameKey(P, secret, x, y) <==> x != y && SharedKey(P, secret, x) == SharedKey(P, secret, y)
  {
  }

  /** Nothing in this run is out of order but the approval, and both messages are on their way. */
  lemma LateApproval(p: Pair, s1: Bytes32, s2: Bytes32, t: Bytes32)
    requires Initiates(p.idA, p.idB)
    ensures var events := ApprovedLate(p, s1, s2, t);
      var end := Run(p, Started(None, None), events);
      && PossibleRun(p, Started(None, None), events)
      && ProperRun(p, Started(None, None), events[..4]) && Stale(Run(p, Started(None, None), events[..4]), events[4])
      && end.a.link == Link(None, None, Some(s2), None)
      && end.b.link == WithKey(STRANGER, SharedKey(p.P, t, p.P.publicKey(s1)))
      && end.msgs == multiset{Msg(B, Propose(p.P.publicKey(s2))), Msg(A, Accept(p.P.publicKey(t)))}
  {
    hide Step, SharedKey, Initiates, Possible, Stale, Run, ProperRun, PossibleRun, Started;
    var start, es := Started(None, None), ApprovedLate(p, s1, s2, t);
    LateSteps(p, s1, s2, t);
    assert es[..4] == [es[0]] + [es[1]] + [es[2]] + [es[3]];
    FourSteps(p, start, es[0], es[1], es[2], es[3]);
    ProperIsPossible(p, start, es[..4]);
    ExtendPossible(p, start, es[..4], es[4]);
    assert es == es[..4] + [es[4]];
  }

  lemma FourSteps(p: Pair, start: Sys, e1: Event, e2: Event, e3: Event, e4: Event)
    requires Proper(start, e1) && Proper(Step(p, start, e1), e2) && Proper(Step(p, Step(p, start, e1), e2), e3)
    requires Proper(Step(p, Step(p, Step(p, start, e1), e2), e3), e4)
    ensures var events := [e1] + [e2] + [e3] + [e4];
      ProperRun(p, start, events) && Run(p, start, events) == Step(p, Step(p, Step(p, Step(p, start, e1), e2), e3), e4)
  {
    hide Step, Proper;
    assert Run(p, start, []) == start && [] + [e1] == [e1];
    Extend(p, start, [], e1);
    hide Run, ProperRun;
    Extend(p, start, [e1], e2);
    Extend(p, start, [e1] + [e2], e3);
    Extend(p, start, [e1] + [e2] + [e3], e4);
  }

  lemma LateSteps(p: Pair, s1: Bytes32, s2: Bytes32, t: Bytes32)
    requires Initiates(p.idA, p.idB)
    ensures var p1, p2 := p.P.publicKey(s1), p.P.publicKey(s2);
      var x0 := Started(None, None);
      var x1 := Step(p, x0, At(A, Connect(s1)));
      var x2 := Step(p, x1, At(B, Receive(Propose(p1), t)));
      var x3 := Step(p, x2, Disconnected);
      var x4 := Step(p, x3, At(A, Connect(s2)));
      var x5 := Step(p, x4, At(B, Approval(t)));
      && Proper(x0, At(A, Connect(s1))) && Proper(x1, At(B, Receive(Propose(p1), t)))
      && Proper(x2, Disconnected) && Proper(x3, At(A, Connect(s2)))
      && Possible(x4, At(B, Approval(t))) && Stale(x4, At(B, Approval(t)))
      && x5.a.link == Link(None, None, Some(s2), None)
      && x5.b.link == WithKey(STRANGER, SharedKey(p.P, t, p1))
      && x5.msgs == multiset{Msg(B, Propose(p2)), Msg(A, Accept(p.P.publicKey(t)))}
  {
    hide SharedKey, Initiates;
    FirstMeeting(p, s1, t);
    var p2 := p.P.publicKey(s2);
    var x3 := Step(p, Step(p, Step(p, Started(None, None), At(A, Connect(s1))),
        At(B, Receive(Propose(p.P.publicKey(s1)), t))), Disconnected);
    var x4 := Step(p, x3, At(A, Connect(s2)));
    assert x4.msgs == multiset{Msg(B, Propose(p2))};
  }

  lemma FirstMeeting(p: Pair, s1: Bytes32, t: Bytes32)
    requires Initiates(p.idA, p.idB)
    ensures var p1, x0 := p.P.publicKey(s1), Started(None, None);
      var x1 := Step(p, x0, At(A, Connect(s1)));
      var x2 := Step(p, x1, At(B, Receive(Propose(p1), t)));
      && Proper(x0, At(A, Connect(s1))) && Proper(x1, At(B, Receive(Propose(p1), t)))
      && Step(p, x2, Disconnected) == Sys(Node(Link(None, None, Some(s1), None), false, false),
                                          Node(STRANGER.(approval := Some(p1)), false, false), multiset{})
  {
    hide SharedKey, Initiates;
    var p1 := p.P.publicKey(s1);
    var x1 := Step(p, Started(None, None), At(A, Connect(s1)));
    assert x1.msgs == multiset{Msg(B, Propose(p1))};
  }

  lemma {:induction false} ProperIsPossible(p: Pair, sys: Sys, events: seq<Event>)
    requires ProperRun(p, sys, events)
    ensures PossibleRun(p, sys, events)
  {
    hide Run, Step;
    if events != [] { ProperIsPossible(p, sys, events[..|events| - 1]); }
  }

  /**
    A late approval, for every choice of secrets and every order of delivery. If the answer to
    the old proposal arrives first, both hold a key, and the same one exactly when both
    proposals had one public key (or two public keys collide). The newer proposal then re-keys
    B without another approval, and what A holds after that fits only if B's two answers had
    one public key. If the newer proposal is answered first and A takes that answer, they agree.
   */
  lemma StaleApproval(p: Pair, s1: Bytes32, s2: Bytes32, t: Bytes32, t': Bytes32)
    requires AgreementCommutes(p.P) && Initiates(p.idA, p.idB)
    ensures var start, late := Started(None, None), ApprovedLate(p, s1, s2, t);
      var answered := late + [AnswerToA(p, t)];
      var both := answered + [ProposalToB(p, s2, t')];
      var newer := late + [ProposalToB(p, s2, t')];
      var pub := p.P.publicKey;
      && PossibleRun(p, start, both) && PossibleRun(p, start, newer + [AnswerToA(p, t')])
      && PossibleRun(p, start, newer + [AnswerToA(p, t)])
      && BothKeyed(Run(p, start, answered)) && BothKeyed(Run(p, start, both))
      && BothKeyed(Run(p, start, newer + [AnswerToA(p, t')])) && BothKeyed(Run(p, start, newer + [AnswerToA(p, t)]))
      && (Agree(Run(p, start, answered)) <==> pub(s1) == pub(s2) || SameKey(p.P, t, pub(s1), pub(s2)))
      && (Agree(Run(p, start, both)) <==> pub(t) == pub(t') || SameKey(p.P, s2, pub(t), pub(t')))
      && Agree(Run(p, start, newer + [AnswerToA(p, t')]))
      && (Agree(Run(p, start, newer + [AnswerToA(p, t)])) <==> pub(t) == pub(t') || SameKey(p.P, s2, pub(t), pub(t')))
  {
    hide Run, PossibleRun, SharedKey, SameKey, Initiates, AgreementCommutes, ApprovedLate, Started, Step;
    SameKeyMeans(p.P, t, p.P.publicKey(s1), p.P.publicKey(s2));
    SameKeyMeans(p.P, s2, p.P.publicKey(t), p.P.publicKey(t'));
    LateApproval(p, s1, s2, t);
    var start, late := Started(None, None), ApprovedLate(p, s1, s2, t);
    var end := Run(p, start, late);
    SameKeyOnBothSides(p.P, s2, t);
    SameKeyOnBothSides(p.P, s2, t');
    AnswerTaken(p, end, s2, t);
    ExtendPossible(p, start, late, AnswerToA(p, t));
    ProposalTaken(p, Run(p, start, late + [AnswerToA(p, t)]), s2, t');
    ExtendPossible(p, start, late + [AnswerToA(p, t)], ProposalToB(p, s2, t'));
    ProposalTaken(p, end, s2, t');
    ExtendPossible(p, start, late, ProposalToB(p, s2, t'));
    var newer := late + [ProposalToB(p, s2, t')];
    AnswerTaken(p, Run(p, start, newer), s2, t);
    AnswerTaken(p, Run(p, start, newer), s2, t');
    ExtendPossible(p, start, newer, AnswerToA(p, t));
    ExtendPossible(p, start, newer, AnswerToA(p, t'));
  }

  predicate BothKeyed(sys: Sys) {
    sys.a.link.key.Some? && sys.b.link.key.Some?
  }

  lemma AnswerTaken(p: Pair, sys: Sys, s: Bytes32, t: Bytes32)
    requires sys.a.link == Link(None, None, Some(s), None) && Msg(A, Accept(p.P.publicKey(t))) in sys.msgs
    ensures Possible(sys, AnswerToA(p, t))
    ensures var after := Step(p, sys, AnswerToA(p, t));
      && after.a.link == WithKey(STRANGER, SharedKey(p.P, s, p.P.publicKey(t))) && after.b == sys.b
      && after.msgs == sys.msgs - multiset{Msg(A, Accept(p.P.publicKey(t)))}
  {
    hide SharedKey, Initiates;
  }

  lemma ProposalTaken(p: Pair, sys: Sys, s: Bytes32, t: Bytes32)
    requires Msg(B, Propose(p.P.publicKey(s))) in sys.msgs && sys.b.link.key.Some?
        && sys.b.link == WithKey(STRANGER, sys.b.link.key.value)
    ensures Possible(sys, ProposalToB(p, s, t))
    ensures var after := Step(p, sys, ProposalToB(p, s, t));
      && after.b.link == WithKey(STRANGER, SharedKey(p.P, t, p.P.publicKey(s))) && after.a == sys.a
      && after.msgs == sys.msgs - multiset{Msg(B, Propose(p.P.publicKey(s)))}
          + multiset{Msg(A, Accept(p.P.publicKey(t)))}
  {
    hide SharedKey, Initiates;
  }
}
