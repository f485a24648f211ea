/**
  Where the keys of Tofu come from: of which two secrets a key held at any moment is made, that
  keys of different exchanges differ, and after what nothing is left that could become a key.
 */
module KeyOrigins {
  import opened Basics
  import opened Crypto
  import opened Listing
  import opened Tofu

  // ── Every key is agreed between the two ─────────────────────────────────

  /** The secrets that a side drew in an event. */
  function Draws(e: Event, side: Side): set<Bytes32> {
    if !e.At? || e.side != side then {} else
    match e.act
    case Connect(s) => {s}
    case Receive(_, t) => {t}
    case Approval(t) => {t}
    case _ => {}
  }

  function Drawn(events: seq<Event>, side: Side): set<Bytes32> {
    if events == [] then {} else Drawn(events[..|events| - 1], side) + Draws(events[|events| - 1], side)
  }

  /** The secrets drawn by the two sides so far. */
  type Secrets = Side -> set<Bytes32>

  /** The key is derived from what a secret of this side and the public key of one of the other agree on. */
  ghost predicate AgreedKey(P: Primitives, drawn: Secrets, side: Side, key: Bytes32) {
    exists u, v :: u in drawn(side) && v in drawn(Other(side))
      && key == P.derive(KEY_CONTEXT, P.agree(u, P.publicKey(v)))
  }

  ghost predicate PublicOf(P: Primitives, secrets: set<Bytes32>, public: Bytes32) {
    exists v :: v in secrets && public == P.publicKey(v)
  }

  ghost predicate KeyKnown(P: Primitives, drawn: Secrets, side: Side, first: Option<Bytes32>, key: Option<Bytes32>) {
    key.Some? ==> key == first || AgreedKey(P, drawn, side, key.value)
  }

  ghost predicate LinkKnown(P: Primitives, drawn: Secrets, side: Side, first: Option<Bytes32>, l: Link) {
    && KeyKnown(P, drawn, side, first, l.key) && KeyKnown(P, drawn, side, first, l.stored)
    && (l.secret.Some? ==> l.secret.value in drawn(side))
    && (l.approval.Some? ==> PublicOf(P, drawn(Other(side)), l.approval.value))
  }

  /** Everything that could make a key is made of secrets that were drawn. */
  ghost predicate AllKnown(P: Primitives, drawn: Secrets, first: Side -> Option<Bytes32>, sys: Sys) {
    && LinkKnown(P, drawn, A, first(A), sys.a.link) && LinkKnown(P, drawn, B, first(B), sys.b.link)
    && forall m | m in sys.msgs :: PublicOf(P, drawn(Other(m.to)), m.body.public)
  }

  ghost predicate More(drawn: Secrets, drawn': Secrets) {
    forall side: Side :: drawn(side) <= drawn'(side)
  }

  lemma LinkStaysKnown(P: Primitives, drawn: Secrets, drawn': Secrets, side: Side, first: Option<Bytes32>, l: Link)
    requires LinkKnown(P, drawn, side, first, l) && More(drawn, drawn')
    ensures LinkKnown(P, drawn', side, first, l)
  {
    assert drawn(side) <= drawn'(side) && drawn(Other(side)) <= drawn'(Other(side));
  }

  lemma NewKeyKnown(P: Primitives, drawn: Secrets, side: Side, u: Bytes32, public: Bytes32)
    requires u in drawn(side) && PublicOf(P, drawn(Other(side)), public)
    ensures AgreedKey(P, drawn, side, SharedKey(P, u, public))
  {
  }

  lemma LinkStepKnown(P: Primitives, initiates: bool, drawn: Secrets, side: Side, first: Option<Bytes32>, l: Link,
                      act: Act)
    requires LinkKnown(P, drawn, side, first, l) && Draws(At(side, act), side) <= drawn(side)
    requires act.Receive? ==> PublicOf(P, drawn(Other(side)), act.body.public)
    ensures var turn := LinkStep(P, initiates, l, act);
      && LinkKnown(P, drawn, side, first, turn.link)
      && (turn.sent.Some? ==> PublicOf(P, drawn(side), turn.sent.value.public))
  {
    match act {
      case Receive(body, t) =>
        NewKeyKnown(P, drawn, side, t, body.public);
        if l.secret.Some? { NewKeyKnown(P, drawn, side, l.secret.value, body.public); }
      case Approval(t) =>
        if l.approval.Some? { NewKeyKnown(P, drawn, side, t, l.approval.value); }
      case _ =>
    }
    hide SharedKey, AgreedKey;
  }

  lemma AllStaysKnown(P: Primitives, drawn: Secrets, drawn': Secrets, first: Side -> Option<Bytes32>, sys: Sys)
    requires AllKnown(P, drawn, first, sys) && More(drawn, drawn')
    ensures AllKnown(P, drawn', first, sys)
  {
    LinkStaysKnown(P, drawn, drawn', A, first(A), sys.a.link);
    LinkStaysKnown(P, drawn, drawn', B, first(B), sys.b.link);
    assert forall side: Side :: drawn(side) <= drawn'(side);
    hide LinkKnown;
  }

  lemma FewerMessages(P: Primitives, drawn: Secrets, first: Side -> Option<Bytes32>, sys: Sys, sys': Sys)
    requires AllKnown(P, drawn, first, sys)
    requires sys'.a.link == sys.a.link && sys'.b.link == sys.b.link && sys'.msgs <= sys.msgs
    ensures AllKnown(P, drawn, first, sys')
  {
    hide LinkKnown, PublicOf;
  }

  lemma ActKnown(p: Pair, sys: Sys, side: Side, act: Act, drawn: Secrets, first: Side -> Option<Bytes32>)
    requires AllKnown(p.P, drawn, first, sys) && Possible(sys, At(side, act))
    requires Draws(At(side, act), side) <= drawn(side)
    ensures AllKnown(p.P, drawn, first, Step(p, sys, At(side, act)))
  {
    hide LinkKnown, PublicOf, LinkStep, Draws, InitiatesAt;
    var l, sys' := NodeAt(sys, side).link, Step(p, sys, At(side, act));
    if act.Receive? {
      assert Msg(side, act.body) in Delivered(side, act);
      assert Msg(side, act.body) in sys.msgs;
    }
    LinkStepKnown(p.P, InitiatesAt(p, side), drawn, side, first(side), l, act);
    var sent := LinkStep(p.P, InitiatesAt(p, side), l, act).sent;
    forall m | m in sys'.msgs ensures PublicOf(p.P, drawn(Other(m.to)), m.body.public) {
      assert m in sys.msgs || (sent.Some? && m == Msg(Other(side), sent.value));
    }
  }

  lemma StepKnown(p: Pair, sys: Sys, e: Event, drawn: Secrets, drawn': Secrets, first: Side -> Option<Bytes32>)
    requires AllKnown(p.P, drawn, first, sys) && Possible(sys, e) && More(drawn, drawn')
    requires forall side: Side :: Draws(e, side) <= drawn'(side)
    ensures AllKnown(p.P, drawn', first, Step(p, sys, e))
  {
    hide AllKnown, More, Draws;
    AllStaysKnown(p.P, drawn, drawn', first, sys);
    match e
    case At(side, act) => ActKnown(p, sys, side, act, drawn', first);
    case _ => FewerMessages(p.P, drawn', first, sys, Step(p, sys, e));
  }

  lemma {:induction false} RunKnown(p: Pair, storedA: Option<Bytes32>, storedB: Option<Bytes32>, events: seq<Event>)
    requires PossibleRun(p, Started(storedA, storedB), events)
    ensures AllKnown(p.P, side => Drawn(events, side), side => if side == A then storedA else storedB,
                     Run(p, Started(storedA, storedB), events))
  {
    var first := (side: Side) => if side == A then storedA else storedB;
    if events != [] {
      var front, e := events[..|events| - 1], events[|events| - 1];
      RunKnown(p, storedA, storedB, front);
      StepKnown(p, Run(p, Started(storedA, storedB), front), e, side => Drawn(front, side),
                side => Drawn(events, side), first);
    }
  }

  /** The first key of a side: the one in its store when it was started. */
  function FirstKey(storedA: Option<Bytes32>, storedB: Option<Bytes32>, side: Side): Option<Bytes32> {
    if side == A then storedA else storedB
  }

  /**
    At every moment of every run, stale approvals and lost messages included, a key is the one its
    side was started with or derived from what the two sides agreed on: a secret this side drew
    and the public key of one the other drew. No third party's key is ever among them.
   */
  lemma KeysComeFromExchanges(p: Pair, storedA: Option<Bytes32>, storedB: Option<Bytes32>, events: seq<Event>,
                              side: Side)
    requires PossibleRun(p, Started(storedA, storedB), events)
    ensures var key := NodeAt(Run(p, Started(storedA, storedB), events), side).link.key;
      key.Some? && key != FirstKey(storedA, storedB, side) ==>
        exists u, v :: u in Drawn(events, side) && v in Drawn(events, Other(side))
          && key.value == p.P.derive(KEY_CONTEXT, p.P.agree(u, p.P.publicKey(v)))
  {
    RunKnown(p, storedA, storedB, events);
    hide Run, PossibleRun, Started, PublicOf;
  }

  /** No secret of the one exchange agrees with the other side on what secrets of the other exchange agree on. */
  ghost predicate Unrelated(P: Primitives, events: seq<Event>, side: Side, events': seq<Event>, side': Side) {
    forall u, v, u', v' | && u in Drawn(events, side) && v in Drawn(events, Other(side))
                          && u' in Drawn(events', side') && v' in Drawn(events', Other(side')) ::
      P.agree(u, P.publicKey(v)) != P.agree(u', P.publicKey(v'))
  }

  /**
    So strangers that agreed on different secrets hold different keys, in whatever runs of
    whatever pairs, if the derivation of keys does not take two agreed secrets to one key.
   */
  lemma DifferentExchangesDifferentKeys(p: Pair, events: seq<Event>, side: Side, p': Pair, events': seq<Event>,
                                        side': Side)
    requires p'.P == p.P && forall x: Bytes32, y: Bytes32 :: ApartAsKeys(p.P, x, y)
    requires PossibleRun(p, Started(None, None), events) && PossibleRun(p', Started(None, None), events')
    requires Unrelated(p.P, events, side, events', side')
    ensures var key := NodeAt(Run(p, Started(None, None), events), side).link.key;
      var key' := NodeAt(Run(p', Started(None, None), events'), side').link.key;
      key.Some? && key'.Some? ==> key != key'
  {
    KeysComeFromExchanges(p, None, None, events, side);
    KeysComeFromExchanges(p', None, None, events', side');
    hide Run, PossibleRun, Started, Drawn;
    var key := NodeAt(Run(p, Started(None, None), events), side).link.key;
    var key' := NodeAt(Run(p', Started(None, None), events'), side').link.key;
    if key.Some? && key'.Some? {
      var u, v :| u in Drawn(events, side) && v in Drawn(events, Other(side))
          && key.value == p.P.derive(KEY_CONTEXT, p.P.agree(u, p.P.publicKey(v)));
      var u', v' :| u' in Drawn(events', side') && v' in Drawn(events', Other(side'))
          && key'.value == p.P.derive(KEY_CONTEXT, p.P.agree(u', p.P.publicKey(v')));
      assert ApartAsKeys(p.P, p.P.agree(u, p.P.publicKey(v)), p.P.agree(u', p.P.publicKey(v')));
    }
  }

  // ── What can still become a key ─────────────────────────────────────────

  /** After a denial or a restart, and until a new proposal comes, no approval makes a key. */
  lemma {:induction false} NothingLeftToApprove(P: Primitives, initiates: bool, l: Link, first: Act, acts: seq<Act>)
    requires first.Denial? || first.Restarting?
    requires forall k | 0 <= k < |acts| && acts[k].Receive? :: !acts[k].body.Propose?
    ensures var end := LinkRun(P, initiates, LinkStep(P, initiates, l, first).link, acts);
      end.approval.None? && forall t :: Approve(P, end, t) == Turn(end, None)
  {
    hide SharedKey, Initiates;
    if acts != [] { NothingLeftToApprove(P, initiates, l, first, acts[..|acts| - 1]); }
  }

  /** After a restart, and until the next connection, no answer makes a key; the stored key is all there is. */
  lemma {:induction false} NothingLeftToAnswer(P: Primitives, initiates: bool, l: Link, acts: seq<Act>)
    requires forall k | 0 <= k < |acts| :: !acts[k].Connect?
    ensures var end := LinkRun(P, initiates, LinkStep(P, initiates, l, Restarting).link, acts);
      end.secret.None? && forall public :: OnAccept(P, end, public) == Load(end)
  {
    hide SharedKey;
    if acts != [] { NothingLeftToAnswer(P, initiates, l, acts[..|acts| - 1]); }
  }

  /**
    A denial takes back nothing else, and a revocation takes the key but leaves an exchange that is
    on: the answer to our own proposal still makes a key, and so does an approval.
   */
  lemma DenialsAndRevocationsAreNarrow(P: Primitives, initiates: bool, l: Link, public: Bytes32, t: Bytes32)
    ensures var denied := LinkStep(P, initiates, l, Denial).link;
      denied.key == l.key && denied.stored == l.stored && denied.secret == l.secret
    ensures var revoked := LinkStep(P, initiates, l, Revocation).link;
      && !Keyed(revoked)
      && (Keyed(OnAccept(P, revoked, public)) <==> l.secret.Some?)
      && (Keyed(Approve(P, revoked, t).link) <==> l.approval.Some?)
  {
  }

  /** Whatever comes from a peer, a stored key is in memory afterwards; and a restart loses no stored key. */
  lemma StoredKeysAreUsed(P: Primitives, initiates: bool, l: Link, act: Act)
    requires act.Connect? || act.Receive? || act.Traffic?
    ensures var after, again := LinkStep(P, initiates, l, act).link, LinkStep(P, initiates, l, Restarting).link;
      && (Keyed(l) ==> after.key.Some?)
      && (!act.Receive? ==> after.key == if l.key.Some? then l.key else l.stored)
      && LinkStep(P, initiates, again, Traffic).link.key == l.stored
  {
  }

  /** The one that starts the exchange is the one whose id begins the other's, or is smaller where they first differ. */
  lemma TheSmallerIdInitiates(p: Pair, side: Side)
    ensures var own := if side.A? then p.idA else p.idB;
      var other := if side.A? then p.idB else p.idA;
      InitiatesAt(p, side) <==> own < other || exists k: nat :: SmallerAt(own, other, k)
  {
    BeforeExactly(p.idA, p.idB);
    BeforeExactly(p.idB, p.idA);
  }
}
