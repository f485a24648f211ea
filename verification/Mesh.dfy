/**
  Folder announcements between any number of nodes (src/sync/handler.rs:169-250, 552-679,
  761-826). Every announcement is answered with one of one's own, guarded only by the
  set of peers already announced to; that the exchange ends, and what it achieves.
 */
module Mesh {
  import opened Basics

  type Id = string

  // ── One node ────────────────────────────────────────────────────────────

  datatype View = View(connected: set<Id>, announcedTo: set<Id>, hasFolder: bool)

  /** The new view, and who is sent an announcement and who a manifest request. */
  datatype Act = Act(view: View, announce: set<Id>, request: set<Id>)

  /** `SetFolder`: a clean slate, then everyone connected is told and asked. */
  function OnSetFolder(v: View): Act {
    Act(View(v.connected, v.connected, true), v.connected, v.connected)
  }

  /** `ready`: there is a key, or none is needed. */
  function OnConnected(v: View, peer: Id, ready: bool): Act {
    var v1 := v.(connected := v.connected + {peer});
    if v.hasFolder then
      Act(v1.(announcedTo := v.announcedTo + {peer}), {peer}, if ready then {peer} else {})
    else
      Act(v1, {}, {})
  }

  function OnClosed(v: View, peer: Id): View {
    v.(connected := v.connected - {peer}, announcedTo := v.announcedTo - {peer})
  }

  /** The announcing peer is asked, told in return if it has not been, and other keyed peers are asked too. */
  function OnAnnouncement(v: View, keyed: set<Id>, peer: Id): Act {
    var others := set p | p in v.connected && p != peer && p in keyed;
    if v.hasFolder && peer !in v.announcedTo then
      Act(v.(announcedTo := v.announcedTo + {peer}), {peer}, {peer} + others)
    else
      Act(v, {}, {peer} + others)
  }

  // ── All nodes ───────────────────────────────────────────────────────────

  datatype Flight = Flight(from: Id, to: Id)

  /** The nodes and the announcements under way. */
  datatype Net = Net(nodes: map<Id, View>, flight: multiset<Flight>)

  datatype Event =
    | SetFolder(at: Id)
    | Connected(at: Id, peer: Id, ready: bool)
    | Closed(at: Id, peer: Id)
    | Deliver(from: Id, at: Id, keyed: set<Id>)
    | Lose(from: Id, peer: Id)

  function Flights(from: Id, to: set<Id>): multiset<Flight> {
    multiset(set p | p in to :: Flight(from, p))
  }

  function Put(m: Net, i: Id, act: Act): Net {
    Net(m.nodes[i := act.view], m.flight + Flights(i, act.announce))
  }

  /** One announcement less is under way: it has arrived, or it is lost. */
  function Landed(m: Net, i: Id, j: Id): Net {
    m.(flight := m.flight - multiset{Flight(i, j)})
  }

  predicate Enabled(m: Net, e: Event) {
    match e
    case SetFolder(i) => i in m.nodes
    case Connected(i, j, _) => i in m.nodes && j in m.nodes && i != j
    case Closed(i, _) => i in m.nodes
    case Deliver(i, j, _) => Flight(i, j) in m.flight && j in m.nodes
    case Lose(i, j) => Flight(i, j) in m.flight
  }

  /** What the node concerned does in an event. */
  function Done(m: Net, e: Event): Act
    requires Enabled(m, e) && !e.Lose?
  {
    match e
    case SetFolder(i) => OnSetFolder(m.nodes[i])
    case Connected(i, j, ready) => OnConnected(m.nodes[i], j, ready)
    case Closed(i, j) => Act(OnClosed(m.nodes[i], j), {}, {})
    case Deliver(i, j, keyed) => OnAnnouncement(m.nodes[j], keyed, i)
  }

  function Step(m: Net, e: Event): Net
    requires Enabled(m, e)
  {
    match e
    case Lose(i, j) => Landed(m, i, j)
    case Deliver(i, j, _) => Put(Landed(m, i, j), j, Done(m, e))
    case _ => Put(m, e.at, Done(m, e))
  }

  predicate Happens(m: Net, events: seq<Event>)
    decreases |events|, 0
  {
    events == [] || (
      Happens(m, events[..|events| - 1]) && Enabled(Run(m, events[..|events| - 1]), events[|events| - 1]))
  }

  function Run(m: Net, events: seq<Event>): Net
    requires Happens(m, events)
    decreases |events|, 1
  {
    if events == [] then m else Step(Run(m, events[..|events| - 1]), events[|events| - 1])
  }

  /** Nobody is connected to itself or to a stranger, and no message concerns one. */
  ghost predicate WellFormed(m: Net) {
    && (forall i | i in m.nodes :: m.nodes[i].connected <= m.nodes.Keys - {i})
    && (forall f | f in m.flight :: f.from in m.nodes && f.to in m.nodes && f.from != f.to)
  }

  lemma PutWellFormed(m: Net, i: Id, act: Act)
    requires WellFormed(m) && i in m.nodes
    requires act.view.connected <= m.nodes.Keys - {i} && act.announce <= m.nodes.Keys - {i}
    ensures WellFormed(Put(m, i, act)) && Put(m, i, act).nodes.Keys == m.nodes.Keys
  {
    forall f | f in Put(m, i, act).flight ensures f.from in m.nodes && f.to in m.nodes && f.from != f.to {
      assert f in m.flight || f in Flights(i, act.announce);
    }
  }

  lemma StaysInside(m: Net, e: Event)
    requires WellFormed(m) && Enabled(m, e) && !e.Lose?
    ensures var i, act := e.at, Done(m, e);
      i in m.nodes && act.view.connected <= m.nodes.Keys - {i} && act.announce <= m.nodes.Keys - {i}
  {
  }

  lemma LighterWellFormed(m: Net, m': Net)
    requires WellFormed(m) && m'.nodes == m.nodes && m'.flight <= m.flight
    ensures WellFormed(m')
  {
  }

  lemma StepWellFormed(m: Net, e: Event)
    requires WellFormed(m) && Enabled(m, e)
    ensures WellFormed(Step(m, e)) && Step(m, e).nodes.Keys == m.nodes.Keys
  {
    hide WellFormed, Put, Done;
    if e.Lose? {
      LighterWellFormed(m, Step(m, e));
    } else {
      StaysInside(m, e);
      var m1 := match e case Deliver(i, j, _) => Landed(m, i, j) case _ => m;
      LighterWellFormed(m, m1);
      PutWellFormed(m1, e.at, Done(m, e));
    }
  }

  lemma {:induction false} RunWellFormed(m: Net, events: seq<Event>)
    requires WellFormed(m) && Happens(m, events)
    ensures WellFormed(Run(m, events)) && Run(m, events).nodes.Keys == m.nodes.Keys
  {
    if events != [] {
      RunWellFormed(m, events[..|events| - 1]);
      StepWellFormed(Run(m, events[..|events| - 1]), events[|events| - 1]);
    }
  }

  // ── The exchange ends ───────────────────────────────────────────────────

  /** Ordered pairs of nodes of which the first has not announced itself to the second. */
  function Unannounced(nodes: map<Id, View>): set<(Id, Id)> {
    set i, j | i in nodes && j in nodes && i != j && j !in nodes[i].announcedTo :: (i, j)
  }

  /** 2 * (pairs not announced) + announcements in flight. */
  function Measure(m: Net): nat {
    2 * |Unannounced(m.nodes)| + |m.flight|
  }

  lemma FlightsCount(from: Id, to: set<Id>)
    requires |to| <= 1
    ensures |Flights(from, to)| == |to|
  {
    if to == {} {
    } else {
      var p :| p in to;
      assert to == {p} by { assert |to - {p}| == 0; }
      assert Flights(from, to) == multiset{Flight(from, p)};
    }
  }

  lemma PairUsed(nodes: map<Id, View>, j: Id, i: Id, v: View)
    requires i in nodes && j in nodes && i != j
    requires i !in nodes[j].announcedTo && v.announcedTo == nodes[j].announcedTo + {i}
    ensures |Unannounced(nodes[j := v])| + 1 == |Unannounced(nodes)|
  {
    assert (j, i) in Unannounced(nodes);
    assert Unannounced(nodes[j := v]) == Unannounced(nodes) - {(j, i)};
  }

  lemma DeliveryUsesPair(m: Net, e: Event)
    requires WellFormed(m) && e.Deliver? && Enabled(m, e)
    ensures |Unannounced(Step(m, e).nodes)| + |Done(m, e).announce| == |Unannounced(m.nodes)|
  {
    var i, j, act := e.from, e.at, Done(m, e);
    hide Flights, Unannounced;
    assert i in m.nodes && i != j;
    if act.announce == {i} {
      PairUsed(m.nodes, j, i, act.view);
    } else {
      assert m.nodes[j := act.view] == m.nodes;
    }
  }

  /** A delivery answers, and then one pair fewer is unannounced, or does not, and one message fewer is under way. */
  lemma DeliveryCounts(m: Net, e: Event)
    requires WellFormed(m) && e.Deliver? && Enabled(m, e)
    ensures |Unannounced(Step(m, e).nodes)| + |Done(m, e).announce| == |Unannounced(m.nodes)|
    ensures |Step(m, e).flight| == |m.flight| - 1 + |Done(m, e).announce|
    ensures Measure(Step(m, e)) < Measure(m)
  {
    DeliveryUsesPair(m, e);
    FlightsCount(e.at, Done(m, e).announce);
    hide Flights, Unannounced, WellFormed;
  }

  lemma LossCounts(m: Net, e: Event)
    requires e.Lose? && Enabled(m, e)
    ensures Unannounced(Step(m, e).nodes) == Unannounced(m.nodes) && |Step(m, e).flight| == |m.flight| - 1
  {
  }

  /** No delivery asks more peers than there are, and it always asks the announcing one. */
  lemma RequestsOfDelivery(m: Net, e: Event)
    requires WellFormed(m) && e.Deliver? && Enabled(m, e)
    ensures forall p :: p in Done(m, e).request <==>
              p == e.from || (p in m.nodes[e.at].connected && p in e.keyed)
    ensures |Done(m, e).request| <= |m.nodes.Keys| - 1
  {
    assert e.from in m.nodes && e.from != e.at;
    assert Done(m, e).request <= m.nodes.Keys - {e.at};
    SubsetSize(Done(m, e).request, m.nodes.Keys - {e.at});
  }

  predicate Settling(events: seq<Event>) {
    forall k | 0 <= k < |events| :: events[k].Deliver? || events[k].Lose?
  }

  /** Announcements delivered, announcements sent and manifest requests sent in a run. */
  datatype Tally = Tally(delivered: nat, announced: nat, requested: nat)

  function StepTally(m: Net, e: Event): Tally
    requires Enabled(m, e)
  {
    if e.Lose? then Tally(0, 0, 0)
    else Tally(if e.Deliver? then 1 else 0, |Done(m, e).announce|, |Done(m, e).request|)
  }

  function Count(m: Net, events: seq<Event>): Tally
    requires Happens(m, events)
  {
    if events == [] then Tally(0, 0, 0) else
    var front := events[..|events| - 1];
    var all, last := Count(m, front), StepTally(Run(m, front), events[|events| - 1]);
    Tally(all.delivered + last.delivered, all.announced + last.announced, all.requested + last.requested)
  }

  /** Each delivery may ask every other node once. */
  function MostRequests(delivered: nat, size: nat): int {
    delivered * (size - 1)
  }

  /**
    The exchange dies down by itself, in a mesh of any size: while no folder is set and nobody
    connects or leaves, every announcement sent uses up one unannounced pair, the number of
    deliveries is bounded by the measure, and so is the number of manifest requests.
   */
  lemma {:induction false} AnnouncementsDieDown(m: Net, events: seq<Event>)
    requires WellFormed(m) && Settling(events) && Happens(m, events)
    ensures var end, tally := Run(m, events), Count(m, events);
      && tally.announced + |Unannounced(end.nodes)| == |Unannounced(m.nodes)|
      && tally.delivered + Measure(end) <= Measure(m)
      && tally.requested <= MostRequests(tally.delivered, |m.nodes.Keys|)
  {
    hide Step, Unannounced, StepTally, WellFormed, Enabled, MostRequests, Measure;
    if events == [] {
      NoDeliveries(|m.nodes.Keys|);
    } else {
      var front, e := events[..|events| - 1], events[|events| - 1];
      RunWellFormed(m, front);
      AnnouncementsDieDown(m, front);
      SettlingStep(Run(m, front), e);
      MoreDeliveries(Count(m, front).delivered, StepTally(Run(m, front), e).delivered, |m.nodes.Keys|);
    }
  }

  lemma SettlingStep(m: Net, e: Event)
    requires WellFormed(m) && Enabled(m, e) && (e.Deliver? || e.Lose?)
    ensures StepTally(m, e).announced + |Unannounced(Step(m, e).nodes)| == |Unannounced(m.nodes)|
    ensures StepTally(m, e).delivered + Measure(Step(m, e)) <= Measure(m)
    ensures StepTally(m, e).requested <= MostRequests(StepTally(m, e).delivered, |m.nodes.Keys|)
  {
    if e.Deliver? {
      DeliveryCounts(m, e);
      RequestsOfDelivery(m, e);
    } else {
      LossCounts(m, e);
    }
    hide Step, Done, Unannounced, Enabled, WellFormed;
  }

  lemma NoDeliveries(size: nat)
    ensures MostRequests(0, size) == 0
  {
  }

  lemma MoreDeliveries(a: nat, b: nat, size: nat)
    ensures MostRequests(a + b, size) == MostRequests(a, size) + MostRequests(b, size)
  {
  }

  // ── What the nodes remember ─────────────────────────────────────────────

  predicate Connects(e: Event, i: Id, j: Id) {
    e.Connected? && e.at == i && e.peer == j
  }

  predicate Closes(e: Event, i: Id, j: Id) {
    e.Closed? && e.at == i && e.peer == j
  }

  predicate Hears(e: Event, i: Id, j: Id) {
    e.Deliver? && e.at == i && e.from == j
  }

  /** The last that `i` saw of a connection to `j` was that it began. */
  ghost predicate Linked(events: seq<Event>, i: Id, j: Id) {
    exists k :: 0 <= k < |events| && Connects(events[k], i, j)
      && forall l | k < l < |events| :: !Closes(events[l], i, j)
  }

  /** `i` heard an announcement of `j` after it last set a folder, and saw no connection to `j` end since. */
  ghost predicate Heard(events: seq<Event>, i: Id, j: Id) {
    exists k :: 0 <= k < |events| && Hears(events[k], i, j)
      && forall l | k < l < |events| :: events[l] != SetFolder(i) && !Closes(events[l], i, j)
  }

  lemma LinkedStep(events: seq<Event>, e: Event, i: Id, j: Id)
    ensures Linked(events + [e], i, j) <==> Connects(e, i, j) || (Linked(events, i, j) && !Closes(e, i, j))
  {
    var all, n := events + [e], |events|;
    assert all[n] == e && forall l | 0 <= l < n :: all[l] == events[l];
    if Linked(events, i, j) && !Closes(e, i, j) {
      var k :| 0 <= k < n && Connects(events[k], i, j) && forall l | k < l < n :: !Closes(events[l], i, j);
      assert Connects(all[k], i, j);
    }
  }

  lemma HeardStep(events: seq<Event>, e: Event, i: Id, j: Id)
    ensures Heard(events + [e], i, j) <==>
              Hears(e, i, j) || (Heard(events, i, j) && e != SetFolder(i) && !Closes(e, i, j))
  {
    var all, n := events + [e], |events|;
    assert all[n] == e && forall l | 0 <= l < n :: all[l] == events[l];
    if Heard(events, i, j) && e != SetFolder(i) && !Closes(e, i, j) {
      var k :| 0 <= k < n && Hears(events[k], i, j)
          && forall l | k < l < n :: events[l] != SetFolder(i) && !Closes(events[l], i, j);
      assert Hears(all[k], i, j);
    }
  }

  function Strangers(ids: set<Id>): Net {
    Net(map i | i in ids :: View({}, {}, false), multiset{})
  }

  /** What a node remembers of another, said of the events alone. */
  ghost predicate Remembers(v: View, events: seq<Event>, i: Id, j: Id) {
    && (j in v.connected <==> Linked(events, i, j))
    && (v.hasFolder <==> SetFolder(i) in events)
    && (j in v.announcedTo <==> SetFolder(i) in events && (Linked(events, i, j) || Heard(events, i, j)))
  }

  /**
    In every run a node counts as connected exactly those whose connection it saw begin and not
    end. It has a folder once one was set, and has announced itself, if it has a folder, exactly
    to those connected and to those it heard of since the folder was set.
   */
  lemma {:induction false} ViewsAreHistory(ids: set<Id>, events: seq<Event>, i: Id, j: Id)
    requires Happens(Strangers(ids), events) && i in ids
    ensures i in Run(Strangers(ids), events).nodes
    ensures Remembers(Run(Strangers(ids), events).nodes[i], events, i, j)
  {
    if events != [] {
      var front, e := events[..|events| - 1], events[|events| - 1];
      assert events == front + [e];
      ViewsAreHistory(ids, front, i, j);
      hide Linked, Heard, Strangers, Step;
      RememberStep(Run(Strangers(ids), front), front, e, i, j);
    }
  }

  lemma RememberStep(m: Net, events: seq<Event>, e: Event, i: Id, j: Id)
    requires Enabled(m, e) && i in m.nodes && Remembers(m.nodes[i], events, i, j)
    ensures i in Step(m, e).nodes && Remembers(Step(m, e).nodes[i], events + [e], i, j)
  {
    LinkedStep(events, e, i, j);
    HeardStep(events, e, i, j);
    hide Linked, Heard, Flights;
    assert SetFolder(i) in events + [e] <==> SetFolder(i) in events || e == SetFolder(i);
  }

  /**
    Whom an event makes a node write to, again said of the events alone: a folder that is set is
    announced to everyone connected, a new connection and an announcement heard are answered by
    announcing a folder at most once.
   */
  lemma MessagesOfEvent(ids: set<Id>, events: seq<Event>, e: Event, j: Id)
    requires Happens(Strangers(ids), events) && Enabled(Run(Strangers(ids), events), e) && !e.Lose?
    ensures var i, act := e.at, Done(Run(Strangers(ids), events), e);
      var folder, linked := SetFolder(i) in events, Linked(events, i, j);
      match e
      case SetFolder(_) => (j in act.announce <==> linked) && (j in act.request <==> linked)
      case Connected(_, p, ready) =>
        (j in act.announce <==> folder && j == p) && (j in act.request <==> folder && ready && j == p)
      case Closed(_, _) => j !in act.announce && j !in act.request
      case Deliver(p, _, keyed) =>
        && (j in act.announce <==> folder && j == p && !linked && !Heard(events, i, j))
        && (j in act.request <==> j == p || (linked && j in keyed))
  {
    RunHasIds(ids, events);
    ViewsAreHistory(ids, events, e.at, j);
    hide Linked, Heard, Strangers, Happens, Run;
  }

  lemma {:induction false} RunHasIds(ids: set<Id>, events: seq<Event>)
    requires Happens(Strangers(ids), events)
    ensures WellFormed(Run(Strangers(ids), events)) && Run(Strangers(ids), events).nodes.Keys == ids
  {
    RunWellFormed(Strangers(ids), events);
  }

  // ── What the announcements achieve ──────────────────────────────────────

  /** An announcement of `i` reached `j` after `i` last set a folder or connected to `j`. */
  ghost predicate Reached(events: seq<Event>, i: Id, j: Id) {
    exists k :: 0 <= k < |events| && Hears(events[k], j, i)
      && forall l | k < l < |events| :: events[l] != SetFolder(i) && !Connects(events[l], i, j)
  }

  lemma ReachedStep(events: seq<Event>, e: Event, i: Id, j: Id)
    ensures Reached(events + [e], i, j) <==>
              Hears(e, j, i) || (Reached(events, i, j) && e != SetFolder(i) && !Connects(e, i, j))
  {
    var all, n := events + [e], |events|;
    assert all[n] == e && forall l | 0 <= l < n :: all[l] == events[l];
    if Reached(events, i, j) && e != SetFolder(i) && !Connects(e, i, j) {
      var k :| 0 <= k < n && Hears(events[k], j, i)
          && forall l | k < l < n :: events[l] != SetFolder(i) && !Connects(events[l], i, j);
      assert Hears(all[k], j, i);
    }
  }

  /** Whoever counts as announced to has heard the news, or it is on its way. */
  ghost predicate Informed(m: Net, events: seq<Event>, i: Id, j: Id) {
    i in m.nodes && j in m.nodes[i].announcedTo ==> Flight(i, j) in m.flight || Reached(events, i, j)
  }

  /** Messages are lost only when their sender has seen the connection close. */
  predicate Reliable(m: Net, e: Event) {
    e.Lose? ==> e.from in m.nodes && e.peer !in m.nodes[e.from].announcedTo
  }

  ghost predicate ReliableRun(m: Net, events: seq<Event>)
    requires Happens(m, events)
  {
    events == [] || (
      var front := events[..|events| - 1];
      ReliableRun(m, front) && Reliable(Run(m, front), events[|events| - 1]))
  }

  lemma StepInforms(m: Net, events: seq<Event>, e: Event, i: Id, j: Id)
    requires Enabled(m, e) && Reliable(m, e) && Informed(m, events, i, j)
    requires i in m.nodes ==> Remembers(m.nodes[i], events, i, j)
    ensures Informed(Step(m, e), events + [e], i, j)
  {
    ReachedStep(events, e, i, j);
    hide Reached, Linked, Heard;
    if !e.Lose? && e.at == i && j in Done(m, e).announce {
      assert Flight(i, j) in Flights(i, Done(m, e).announce);
    }
    hide Flights;
  }

  lemma {:induction false} RunsInform(ids: set<Id>, events: seq<Event>, i: Id, j: Id)
    requires Happens(Strangers(ids), events) && ReliableRun(Strangers(ids), events)
    ensures Informed(Run(Strangers(ids), events), events, i, j)
  {
    if events != [] {
      var front, e := events[..|events| - 1], events[|events| - 1];
      assert events == front + [e];
      RunsInform(ids, front, i, j);
      RunHasIds(ids, front);
      if i in ids { ViewsAreHistory(ids, front, i, j); }
      StepInforms(Run(Strangers(ids), front), front, e, i, j);
      hide Informed, Step, Remembers, WellFormed;
    }
  }

  /**
    However folders are set and connections come and go: once no announcement is under way, an
    announcement of every folder owner has reached each node whose connection it saw begin and
    not end, after both the connection and the folder - and whoever is reached asks for the manifest.
   */
  lemma AtRestEveryoneHasAsked(ids: set<Id>, events: seq<Event>, i: Id, j: Id)
    requires Happens(Strangers(ids), events) && ReliableRun(Strangers(ids), events)
    requires Run(Strangers(ids), events).flight == multiset{} && i in ids
    requires SetFolder(i) in events && Linked(events, i, j)
    ensures Reached(events, i, j)
  {
    RunsInform(ids, events, i, j);
    ViewsAreHistory(ids, events, i, j);
    hide Linked, Heard, Reached, Strangers, Happens;
  }

  // ── Who asks whom on meeting ────────────────────────────────────────────

  lemma {:induction false} FrontHappens(m: Net, events: seq<Event>, k: nat)
    requires Happens(m, events) && k < |events|
    ensures Happens(m, events[..k]) && Enabled(Run(m, events[..k]), events[k])
    decreases |events|
  {
    var n := |events| - 1;
    if k < n {
      FrontHappens(m, events[..n], k);
      assert events[..n][..k] == events[..k];
    }
  }

  /** In event `k` of the run, `i` asks `j` for its manifest. */
  ghost predicate Asks(m: Net, events: seq<Event>, k: nat, i: Id, j: Id)
    requires Happens(m, events) && k < |events|
  {
    FrontHappens(m, events, k);
    !events[k].Lose? && events[k].at == i && j in Done(Run(m, events[..k]), events[k]).request
  }

  /** Connection `k` of `i` to `j` is the one it still counts. */
  ghost predicate LinkedSince(events: seq<Event>, k: nat, i: Id, j: Id) {
    && k < |events| && Connects(events[k], i, j)
    && forall l | k < l < |events| :: !Closes(events[l], i, j)
  }

  /**
    In every run, whatever is lost: who has a folder has asked each node it is connected to for its
    manifest when they connected or later, unless they connected without a key and no folder was
    set since.
   */
  lemma FolderOwnersHaveAsked(ids: set<Id>, events: seq<Event>, k: nat, i: Id, j: Id)
    requires Happens(Strangers(ids), events) && LinkedSince(events, k, i, j)
    requires SetFolder(i) in events && (events[k].ready || SetFolder(i) in events[k..])
    ensures exists l: nat | k <= l < |events| :: Asks(Strangers(ids), events, l, i, j)
  {
    hide Happens, Strangers, Linked, Heard, Run, Enabled, Done;
    var l := k;
    if SetFolder(i) in events[k..] {
      var d :| 0 <= d < |events[k..]| && events[k..][d] == SetFolder(i);
      l := k + d;
      StillLinked(events, k, l, i, j);
    } else {
      assert events == events[..k] + events[k..];
    }
    FrontHappens(Strangers(ids), events, l);
    MessagesOfEvent(ids, events[..l], events[l], j);
    assert Asks(Strangers(ids), events, l, i, j);
  }

  lemma StillLinked(events: seq<Event>, k: nat, l: nat, i: Id, j: Id)
    requires LinkedSince(events, k, i, j) && k <= l < |events| && !Connects(events[l], i, j)
    ensures Linked(events[..l], i, j)
  {
    assert events[..l][k] == events[k] && forall x | k < x < l :: events[..l][x] == events[x];
  }
}
