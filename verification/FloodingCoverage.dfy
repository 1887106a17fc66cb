/** Suppression never costs reachability, and every forwarding decision has exactly one fate. */
module FloodingCoverage {
  import opened Wrappers
  import opened Wire
  import opened Graph
  import opened Sums
  import opened Flooding
  import opened Forwarding
  import opened FloodingInvariant
  import opened FloodingArrivals
  import opened FloodingTree

  ghost predicate WorkerQuiet(w: Worker, id: MessageId) {
    match w
    case Idle => true
    case Delaying(item) => item.message.id != id
    case Deciding(item, _, _, _) => item.message.id != id
    case Relaying(m, _) => m.id != id
    case Pushing(m, _, _) => m.id != id
  }

  /** No handler, queue entry or worker of the peer concerns the message. */
  ghost predicate PeerQuiet(p: PeerState, id: MessageId) {
    && (forall h :: h in p.handlers ==> h.item.message.id != id)
    && (forall item :: item in p.queue ==> item.message.id != id)
    && (forall w :: w in p.workers ==> WorkerQuiet(w, id))
  }

  /** No data frame of the message is queued, in the sender's hands or on the wire. */
  ghost predicate LinkQuiet(l: Link, id: MessageId) {
    && (forall f :: f in l.queues.data ==> f.Id() != id)
    && (!l.hand.Empty? && l.hand.frame.Data? ==> l.hand.frame.Id() != id)
    && (forall f :: f in l.wire && f.Data? ==> f.Id() != id)
  }

  ghost predicate Quiescent(s: State, id: MessageId) {
    && (forall u: Node :: u < |s.peers| ==> PeerQuiet(s.peers[u], id))
    && (forall e :: e in s.links ==> LinkQuiet(s.links[e], id))
  }

  /** No copy of the message was dropped; dropped control frames are allowed. */
  ghost predicate NoDataDrop(s: State, id: MessageId) {
    && (forall u: Node :: u < |s.peers| ==> s.peers[u].log[NodeDropped(id)] == 0)
    && (forall e :: e in s.links ==> s.links[e].log[Dropped(id)] == 0)
  }

  lemma QuietPeerStarted(c: Config, u: Node, p: PeerState, id: MessageId)
    requires OneCopy(p) && PeerQuiet(p, id) && p.log[NodeDropped(id)] == 0
    ensures Started(p, id) <==> id in p.known.seen
  {
    SumByZero(p.handlers, HandlerFor(id));
    SumByZero(p.queue, ItemFor(id));
    forall i | 0 <= i < |p.workers| ensures DelayFor(id)(p.workers[i]) == 0 {
      assert p.workers[i] in p.workers;
      assert WorkerQuiet(p.workers[i], id);
    }
    SumByZero(p.workers, DelayFor(id));
    assert CopiesAt(p, id) == Bit(id in p.known.seen);
  }

  lemma QuietLinkEmpty(l: Link, id: MessageId)
    requires LinkQuiet(l, id)
    ensures SumBy(l.queues.data, DataFor(id)) == 0 && SumBy(l.wire, DataFor(id)) == 0
    ensures !l.hand.Empty? ==> DataFor(id)(l.hand.frame) == 0
  {
    forall i | 0 <= i < |l.queues.data| ensures DataFor(id)(l.queues.data[i]) == 0 {
      assert l.queues.data[i] in l.queues.data;
    }
    SumByZero(l.queues.data, DataFor(id));
    SumByZero(l.wire, DataFor(id));
  }

  /** At rest and without drops, each edge carried the message or it was suppressed, once. */
  lemma QuietEdge(c: Config, u: Node, v: Node, p: PeerState, l: Link, q: PeerState, id: MessageId)
    requires c.protocol.Valid() && FullRelay(c.protocol) && OneCopy(p) && EdgeOk(c, u, v, p, l, q)
    requires p.arrival.Keys == p.known.seen
    requires PeerQuiet(p, id) && LinkQuiet(l, id)
    requires p.log[NodeDropped(id)] == 0 && l.log[Dropped(id)] == 0
    ensures l.log[Sent(id)] + l.log[Suppressed(id)] == Bit(id in p.known.seen && p.arrival[id].from != Some(v))
    ensures l.log[Sent(id)] == q.log[Received(u, id, false)] + q.log[Received(u, id, true)]
    ensures id in p.known.seen && p.arrival[id].from != Some(v) ==> id in q.arrival
  {
    QuietPeerStarted(c, u, p, id);
    WorkersOweNothing(v, p, id);
    QuietLinkEmpty(l, id);
    assert SumBy(p.workers, OwedBy(v, id)) + Tally(l, id) == Owed(p, v, id);
    assert SumBy(l.wire, DataFor(id)) + q.log[Received(u, id, false)] + q.log[Received(u, id, true)]
           == l.log[Sent(id)] + Unrecorded(l, id);
    assert q.log[Received(u, id, false)] == Bit(id in q.arrival && q.arrival[id].from == Some(u));
  }

  lemma QuietEdgeAt(c: Config, s: State, u: Node, v: Node, id: MessageId)
    requires c.Valid() && Inv(c, s) && FullRelay(c.protocol) && Quiescent(s, id) && NoDataDrop(s, id)
    requires Adjacent(c.neighbors, u, v)
    ensures LinkAt(s, u, v)
    ensures s.peers[u].arrival.Keys == s.peers[u].known.seen && s.peers[v].arrival.Keys == s.peers[v].known.seen
    ensures
      var p, q, l := s.peers[u], s.peers[v], s.links[(u, v)];
      && l.log[Sent(id)] + l.log[Suppressed(id)] == Bit(id in p.known.seen && p.arrival[id].from != Some(v))
      && l.log[Sent(id)] == q.log[Received(u, id, false)] + q.log[Received(u, id, true)]
      && q.log[Received(u, id, false)] == Bit(id in q.known.seen && q.arrival[id].from == Some(u))
      && (!Suppresses(c.protocol) ==> l.log[Suppressed(id)] == 0)
      && (id in p.known.seen && p.arrival[id].from != Some(v) ==> id in q.known.seen)
  {
    assert EdgeAt(c, s, u, v) && PeerAt(c, s, u) && PeerAt(c, s, v);
    QuietEdge(c, u, v, s.peers[u], s.links[(u, v)], s.peers[v], id);
  }

  /** At rest and without drops, the peers that have the message are closed under adjacency. */
  lemma NeighborHasIt(c: Config, s: State, u: Node, v: Node, id: MessageId)
    requires c.Valid() && Inv(c, s) && FullRelay(c.protocol) && Quiescent(s, id) && NoDataDrop(s, id)
    requires Adjacent(c.neighbors, u, v) && Seen(s, u, id)
    ensures Seen(s, v, id)
  {
    QuietEdgeAt(c, s, u, v, id);
    SupplierStep(c, s, id, u);
  }

  /**
   * Coverage. Under base, duplicate-aware and IDONTWANT flooding, and under HopWave without real
   * troughs, once a message is at rest and no copy of it was dropped, the peers that have seen it
   * are exactly those connected to its origin, whatever the interleaving was and however many
   * control frames were lost.
   */
  lemma Coverage(c: Config, s: State, id: MessageId)
    requires c.Valid() && Reachable(c, s) && FullRelay(c.protocol)
    requires id in s.issued && Quiescent(s, id) && NoDataDrop(s, id)
    ensures forall v: Node :: Seen(s, v, id) <==> Connected(c.neighbors, id.origin, v)
  {
    ReachableInv(c, s);
    forall v: Node | Seen(s, v, id) ensures Connected(c.neighbors, id.origin, v) {
      var route := RouteTo(c, s, id, v);
    }
    forall v: Node | Connected(c.neighbors, id.origin, v) ensures Seen(s, v, id) {
      var p :| Path(c.neighbors, p) && p[0] == id.origin && p[|p| - 1] == v;
      OriginHasIt(c, s, id);
      forall a, b | a in Reached(s, id) && Adjacent(c.neighbors, a, b) ensures b in Reached(s, id) {
        NeighborHasIt(c, s, a, b, id);
      }
      ClosedHoldsPath(c.neighbors, Reached(s, id), p);
    }
  }

  lemma OriginHasIt(c: Config, s: State, id: MessageId)
    requires c.Valid() && Inv(c, s) && id in s.issued
    ensures Seen(s, id.origin, id)
  {
    assert PeerAt(c, s, id.origin);
  }

  /** At any time, and whatever was dropped, only peers connected to the origin have the message. */
  lemma NeverBeyondComponent(c: Config, s: State, id: MessageId, v: Node)
    requires c.Valid() && Reachable(c, s) && Seen(s, v, id)
    ensures Connected(c.neighbors, id.origin, v)
  {
    ReachableInv(c, s);
    var route := RouteTo(c, s, id, v);
  }

  /**
   * Suppression is sound in every reachable state: whoever u counts as not wanting the message or
   * as a duplicate sender has it, whoever announces that it does not want the message has it, and
   * every suppression that was recorded spared a peer that has it.
   */
  lemma SuppressionSound(c: Config, s: State, u: Node, v: Node, id: MessageId)
    requires c.Valid() && Reachable(c, s) && LinkAt(s, u, v)
    ensures v in s.peers[u].known.About(id).duplicateSenders ==> Seen(s, v, id)
    ensures v in s.peers[u].known.About(id).dontWantPeers ==> Seen(s, v, id)
    ensures s.links[(u, v)].log[Suppressed(id)] > 0 ==> Seen(s, v, id)
    ensures IDontWant(id) in s.links[(u, v)].queues.control ==> Seen(s, u, id)
    ensures IDontWant(id) in s.links[(u, v)].wire ==> Seen(s, u, id)
    ensures !s.links[(u, v)].hand.Empty? && s.links[(u, v)].hand.frame == IDontWant(id) ==> Seen(s, u, id)
  {
    ReachableInv(c, s);
    assert EdgeAt(c, s, u, v) && PeerAt(c, s, u) && PeerAt(c, s, v);
    var l := s.links[(u, v)];
    if IDontWant(id) in l.queues.control || IDontWant(id) in l.wire
      || (!l.hand.Empty? && l.hand.frame == IDontWant(id)) {
      assert FrameOk(c, s.peers[u], IDontWant(id));
    }
  }

  /** The data frames of a message that wait at the sending end of a link. */
  ghost function Waiting(l: Link, id: MessageId): nat {
    SumBy(l.queues.data, DataFor(id)) + (if l.hand.Empty? then 0 else DataFor(id)(l.hand.frame))
  }

  ghost predicate FinishedForwarding(p: PeerState, id: MessageId) {
    Started(p, id) && forall w :: w in p.workers ==> WorkerQuiet(w, id)
  }

  /**
   * Frame conservation, per edge. Once a peer has finished its forwarding loop for a message, the
   * decision for each neighbour other than the supplier has exactly one fate: sent, dropped,
   * suppressed, or still waiting. For the supplier there is none. Where a HopWave trough chose a
   * part of the neighbours, there is at most one.
   */
  lemma OneFatePerNeighbor(c: Config, s: State, u: Node, v: Node, id: MessageId)
    requires c.Valid() && Reachable(c, s) && LinkAt(s, u, v)
    requires FinishedForwarding(s.peers[u], id)
    ensures Seen(s, u, id) && id in s.peers[u].arrival
    ensures
      var l := s.links[(u, v)];
      var fates := l.log[Sent(id)] + l.log[Dropped(id)] + l.log[Suppressed(id)] + Waiting(l, id);
      var owed := Bit(s.peers[u].arrival[id].from != Some(v));
      fates <= owed && (FullRelay(c.protocol) ==> fates == owed)
  {
    ReachableInv(c, s);
    assert EdgeAt(c, s, u, v) && PeerAt(c, s, u);
    var p := s.peers[u];
    WorkersOweNothing(v, p, id);
    assert SumBy(p.workers, OwedBy(v, id)) + Tally(s.links[(u, v)], id) <= Owed(p, v, id);
  }

  lemma WorkersOweNothing(v: Node, p: PeerState, id: MessageId)
    requires forall w :: w in p.workers ==> WorkerQuiet(w, id)
    ensures SumBy(p.workers, OwedBy(v, id)) == 0
  {
    forall i | 0 <= i < |p.workers| ensures OwedBy(v, id)(p.workers[i]) == 0 {
      assert p.workers[i] in p.workers;
      assert WorkerQuiet(p.workers[i], id);
    }
    SumByZero(p.workers, OwedBy(v, id));
  }

  /**
   * Whatever the protocol and the drops, a directed edge carries a message at most once. Until its sent
   * event is recorded, a frame that was written may already have been received.
   */
  lemma AtMostOncePerEdge(c: Config, s: State, u: Node, v: Node, id: MessageId)
    requires c.Valid() && Reachable(c, s) && LinkAt(s, u, v)
    ensures
      var l := s.links[(u, v)];
      var receptions := s.peers[v].log[Received(u, id, false)] + s.peers[v].log[Received(u, id, true)];
      && receptions <= l.log[Sent(id)] + Unrecorded(l, id)
      && l.log[Sent(id)] + Unrecorded(l, id) + l.log[Dropped(id)] + l.log[Suppressed(id)] <= 1
  {
    ReachableInv(c, s);
    assert EdgeAt(c, s, u, v);
    OnceOnLink(c, u, v, s.peers[u], s.links[(u, v)], s.peers[v], id);
  }

  lemma OnceOnLink(c: Config, u: Node, v: Node, p: PeerState, l: Link, q: PeerState, id: MessageId)
    requires LinkLaw(c, v, p, l) && WireLaw(u, l, q)
    ensures q.log[Received(u, id, false)] + q.log[Received(u, id, true)] <= l.log[Sent(id)] + Unrecorded(l, id)
    ensures l.log[Sent(id)] + Unrecorded(l, id) + l.log[Dropped(id)] + l.log[Suppressed(id)] <= 1
  {
    assert SumBy(p.workers, OwedBy(v, id)) + Tally(l, id) <= Owed(p, v, id);
    assert SumBy(l.wire, DataFor(id)) + q.log[Received(u, id, false)] + q.log[Received(u, id, true)]
           == l.log[Sent(id)] + Unrecorded(l, id);
  }

  lemma NeighborLink(c: Config, s: State, u: Node, v: Node)
    requires c.Valid() && Inv(c, s) && Adjacent(c.neighbors, u, v)
    ensures LinkAt(s, u, v)
  {}

  lemma FatesPointwise(c: Config, s: State, u: Node, v: Node, id: MessageId)
    requires c.Valid() && Reachable(c, s) && FullRelay(c.protocol)
    requires u < |s.peers| && Adjacent(c.neighbors, u, v) && FinishedForwarding(s.peers[u], id)
    ensures id in s.peers[u].arrival
    ensures FatesOf(s, u, id)(v) == NotSupplier(s.peers[u].arrival[id].from)(v)
  {
    ReachableInv(c, s);
    NeighborLink(c, s, u, v);
    OneFatePerNeighbor(c, s, u, v, id);
  }

  lemma StartedArrival(c: Config, s: State, u: Node, id: MessageId)
    requires c.Valid() && Reachable(c, s) && u < |s.peers| && Started(s.peers[u], id)
    ensures |s.peers| == |c.neighbors| && id in s.peers[u].arrival && ArrivalOk(c, u, s.peers[u], id)
  {
    ReachableInv(c, s);
    assert PeerAt(c, s, u);
  }

  /** The fates of a whole forwarding loop add up to the degree, less one for a received message. */
  lemma FrameConservation(c: Config, s: State, u: Node, id: MessageId)
    requires c.Valid() && Reachable(c, s) && FullRelay(c.protocol)
    requires u < |s.peers| && FinishedForwarding(s.peers[u], id)
    ensures u < |c.neighbors| && id in s.peers[u].arrival
    ensures
      SumBy(c.neighbors[u], FatesOf(s, u, id)) + Bit(s.peers[u].arrival[id].from.Some?) == |c.neighbors[u]|
  {
    StartedArrival(c, s, u, id);
    var from := s.peers[u].arrival[id].from;
    forall i | 0 <= i < |c.neighbors[u]|
      ensures FatesOf(s, u, id)(c.neighbors[u][i]) == NotSupplier(from)(c.neighbors[u][i])
    {
      assert Adjacent(c.neighbors, u, c.neighbors[u][i]);
      FatesPointwise(c, s, u, c.neighbors[u][i], id);
    }
    SumByEqual(c.neighbors[u], FatesOf(s, u, id), NotSupplier(from));
    CountOthers(c.neighbors[u], from);
  }

  ghost function FatesOf(s: State, u: Node, id: MessageId): Node -> nat {
    (v: Node) =>
      if (u, v) in s.links then
        var l := s.links[(u, v)];
        l.log[Sent(id)] + l.log[Dropped(id)] + l.log[Suppressed(id)] + Waiting(l, id)
      else 0
  }

  ghost function NotSupplier(from: Option<Node>): Node -> nat {
    (v: Node) => Bit(from != Some(v))
  }

  lemma {:induction false} CountOthers(s: seq<Node>, from: Option<Node>)
    requires forall i, j :: 0 <= i < j < |s| ==> s[i] != s[j]
    ensures SumBy(s, NotSupplier(from)) + Bit(from.Some? && from.value in s) == |s|
  {
    if s != [] {
      CountOthers(s[1..], from);
    }
  }

  // The plan of a forwarding

  ghost function KnownAt(s: State, u: Node, id: MessageId): Knowledge {
    if u < |s.peers| then s.peers[u].known.About(id) else NEW_KNOWLEDGE
  }

  /** What one step can do to the knowledge of a peer: one of the four transitions, or nothing. */
  ghost predicate KnownMoves(protocol: Protocol, k: Known, k': Known) {
    || k' == k
    || (exists id :: k' == k.RegisterLocal(id))
    || (exists id, from :: k' == k.RegisterReceived(protocol, id, from).0)
    || (exists id, from :: k' == k.RegisterIDontWant(id, from))
    || (exists id :: k' == k.Start(id))
  }

  lemma StepMovesKnown(c: Config, s: State, step: Step, u: Node)
    requires Enabled(c, s, step) && u < |s.peers|
    ensures |Apply(c, s, step).peers| == |s.peers|
    ensures KnownMoves(c.protocol, s.peers[u].known, Apply(c, s, step).peers[u].known)
  {
    match step
    case Inject(x) =>
      assert x == u ==>
        Apply(c, s, step).peers[u].known == s.peers[u].known.RegisterLocal(MessageId(u, s.peers[u].sequence + 1));
    case BeginForwarding(x, w) =>
      assert x == u ==>
        Apply(c, s, step).peers[u].known == s.peers[u].known.Start(s.peers[u].workers[w].item.message.id);
    case Deliver(x, y) => DeliverMovesKnown(c, s, x, y);
    case _ =>
  }

  lemma DeliverMovesKnown(c: Config, s: State, u: Node, v: Node)
    requires Enabled(c, s, Deliver(u, v))
    ensures KnownMoves(c.protocol, s.peers[v].known, Apply(c, s, Deliver(u, v)).peers[v].known)
  {
    var f := s.links[(u, v)].wire[0];
    match f
    case Data(m) =>
      assert Apply(c, s, Deliver(u, v)).peers[v].known == s.peers[v].known.RegisterReceived(c.protocol, m.id, u).0;
    case IDontWant(id) =>
      assert c.protocol.IDontWantFlooding? ==>
        Apply(c, s, Deliver(u, v)).peers[v].known == s.peers[v].known.RegisterIDontWant(id, u);
  }

  lemma StepKeepsPlan(protocol: Protocol, k: Known, k': Known, id: MessageId)
    requires KnownMoves(protocol, k, k') && id in k.seen && k.About(id).forwardingStarted
    ensures OnlyNotices(k.About(id), k'.About(id))
  {
    if k' != k {
      if other :| k' == k.RegisterLocal(other) {
        PlanIsFixedOnceStarted(k, protocol, id, other, 0, 0);
      } else if other, from :| k' == k.RegisterReceived(protocol, other, from).0 {
        PlanIsFixedOnceStarted(k, protocol, id, other, from, 0);
      } else if other, from :| k' == k.RegisterIDontWant(other, from) {
        PlanIsFixedOnceStarted(k, protocol, id, other, from, 0);
      } else {
        var other :| k' == k.Start(other);
        PlanIsFixedOnceStarted(k, protocol, id, other, 0, 0);
      }
    }
  }

  lemma StartedIsSeen(p: PeerState, id: MessageId)
    requires OneCopy(p) && Started(p, id)
    ensures id in p.known.seen
  {
    assert CopiesAt(p, id) == Bit(id in p.known.seen);
  }

  /**
   * Over whole runs: once a peer has started to forward a message, no later step changes its duplicate
   * senders, and notices of unwilling peers are only added.
   */
  lemma {:induction false} PlanIsFixed(c: Config, s: State, steps: seq<Step>, t: State, u: Node, id: MessageId)
    requires c.Valid() && Inv(c, s) && Run(c, s, steps, t) && u < |s.peers| && KnownAt(s, u, id).forwardingStarted
    ensures u < |t.peers| && OnlyNotices(KnownAt(s, u, id), KnownAt(t, u, id))
    decreases |steps|
  {
    if steps != [] {
      var next := Apply(c, s, steps[0]);
      PeerOf(c, s, u);
      StartedIsSeen(s.peers[u], id);
      StepMovesKnown(c, s, steps[0], u);
      StepKeepsPlan(c.protocol, s.peers[u].known, next.peers[u].known, id);
      StepKeepsInv(c, s, steps[0]);
      PlanIsFixed(c, next, steps[1..], t, u, id);
    }
  }
}
