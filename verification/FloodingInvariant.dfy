/** What every step of the flooding system keeps. */
module FloodingInvariant {
  import opened Wrappers
  import opened Wire
  import opened Graph
  import opened Sums
  import opened Flooding
  import HopWave

  // Counting the copies of one message

  ghost function HandlerFor(id: MessageId): Handler -> nat {
    (h: Handler) => if h.item.message.id == id then 1 else 0
  }

  ghost function ItemFor(id: MessageId): Item -> nat {
    (item: Item) => if item.message.id == id then 1 else 0
  }

  ghost function DelayFor(id: MessageId): Worker -> nat {
    (w: Worker) => if w.Delaying? && w.item.message.id == id then 1 else 0
  }

  ghost function DataFor(id: MessageId): Frame -> nat {
    (f: Frame) => if f.Data? && f.message.id == id then 1 else 0
  }

  /** How often a worker still has to deal with neighbour v for a message. */
  ghost function WorkerOwes(w: Worker, v: Node, id: MessageId): nat {
    match w
    case Deciding(item, _, todo, eligible) =>
      if item.message.id != id then 0
      else (if item.from == Some(v) then 0 else multiset(todo)[v]) + multiset(eligible)[v]
    case Relaying(m, targets) => if m.id == id then multiset(targets)[v] else 0
    case Pushing(m, target, targets) =>
      if m.id == id then (if target == v then 1 else 0) + multiset(targets)[v] else 0
    case _ => 0
  }

  ghost function OwedBy(v: Node, id: MessageId): Worker -> nat {
    (w: Worker) => WorkerOwes(w, v, id)
  }

  ghost function Started(p: PeerState, id: MessageId): bool {
    p.known.About(id).forwardingStarted
  }

  ghost function Bit(b: bool): nat {
    if b then 1 else 0
  }

  /** Where the one copy of a message that a peer has seen is, by the stages it goes through. */
  ghost function CopiesAt(p: PeerState, id: MessageId): nat {
    SumBy(p.handlers, HandlerFor(id)) + SumBy(p.queue, ItemFor(id)) + SumBy(p.workers, DelayFor(id))
    + p.log[NodeDropped(id)] + Bit(Started(p, id))
  }

  /** The data frames of a message on the sender side of a link, and the fates already recorded. */
  ghost function Tally(l: Link, id: MessageId): nat {
    SumBy(l.queues.data, DataFor(id)) + (if l.hand.Empty? then 0 else DataFor(id)(l.hand.frame))
    + l.log[Sent(id)] + l.log[Suppressed(id)] + l.log[Dropped(id)]
  }

  /** One forwarding decision per neighbour other than the supplier, once forwarding has started. */
  ghost function Owed(p: PeerState, v: Node, id: MessageId): nat {
    Bit(Started(p, id) && !(id in p.arrival && p.arrival[id].from == Some(v)))
  }

  /** Every relay goes to all eligible neighbours: always, unless HopWave really has troughs. */
  ghost predicate FullRelay(protocol: Protocol) {
    protocol.HopWave? && protocol.Valid() ==> HopWave.Period(protocol.i) == 1 || protocol.f == 1.0
  }

  ghost predicate Suppresses(protocol: Protocol) {
    protocol.DuplicateAware? || protocol.IDontWantFlooding?
  }

  // Peers

  ghost predicate ItemOk(c: Config, p: PeerState, item: Item)
    requires c.protocol.Valid()
  {
    var id := item.message.id;
    && id in p.arrival
    && item.from == p.arrival[id].from
    && item.message.hop == p.arrival[id].depth % UINT32
    && item.message.wave == HopWave.ReceivedWave(c.protocol, p.arrival[id].depth)
  }

  /** A message as its sender relays it. */
  ghost predicate RelayOk(c: Config, p: PeerState, m: Message)
    requires c.protocol.Valid()
  {
    && m.id in p.arrival
    && m.hop == (p.arrival[m.id].depth + 1) % UINT32
    && m.wave == HopWave.WaveAt(c.protocol, p.arrival[m.id].depth)
  }

  ghost predicate Among(s: seq<Node>, neighbors: seq<Node>) {
    forall v :: v in s ==> v in neighbors
  }

  ghost predicate WorkerOk(c: Config, u: Node, p: PeerState, w: Worker)
    requires c.protocol.Valid() && u < |c.neighbors|
  {
    match w
    case Idle => true
    case Delaying(item) => ItemOk(c, p, item)
    case Deciding(item, suppressed, todo, eligible) =>
      && ItemOk(c, p, item)
      && Started(p, item.message.id)
      && (!Suppresses(c.protocol) ==> suppressed == {})
      && Among(todo, c.neighbors[u])
      && Among(eligible, c.neighbors[u])
    case Relaying(m, targets) =>
      RelayOk(c, p, m) && Started(p, m.id) && Among(targets, c.neighbors[u])
    case Pushing(m, target, targets) =>
      RelayOk(c, p, m) && Started(p, m.id) && target in c.neighbors[u] && Among(targets, c.neighbors[u])
  }

  ghost predicate ContentsOk(c: Config, u: Node, p: PeerState)
    requires c.protocol.Valid() && u < |c.neighbors|
  {
    && (forall h :: h in p.handlers ==> ItemOk(c, p, h.item) && Among(h.announce, c.neighbors[u]))
    && (forall item :: item in p.queue ==> ItemOk(c, p, item))
    && (forall w :: w in p.workers ==> WorkerOk(c, u, p, w))
  }

  ghost predicate OneCopy(p: PeerState) {
    forall id :: CopiesAt(p, id) == Bit(id in p.known.seen)
  }

  ghost predicate ArrivalOk(c: Config, u: Node, p: PeerState, id: MessageId)
    requires u < |c.neighbors| && id in p.arrival
  {
    var a := p.arrival[id];
    && (a.from.None? <==> id.origin == u)
    && (a.from.None? <==> a.depth == 0)
    && (a.from.Some? ==> a.from.value in c.neighbors[u])
    && (id.origin == u ==> id.sequence <= p.sequence)
  }

  ghost predicate HistoryOk(c: Config, u: Node, p: PeerState)
    requires u < |c.neighbors| == |c.workers|
  {
    && p.arrival.Keys == p.known.seen
    && (forall id :: id in p.arrival ==> ArrivalOk(c, u, p, id))
    && (forall id :: p.log[Created(id)] == Bit(id in p.arrival && p.arrival[id].from.None?))
    && (forall id :: p.log[Processed(id)] == Bit(Started(p, id)))
    && |p.workers| == c.workers[u]
  }

  /** Each protocol uses its own kind of suppression and no other. */
  ghost predicate KnowledgeOk(c: Config, u: Node, p: PeerState)
    requires u < |c.neighbors|
  {
    forall id ::
      && (!c.protocol.DuplicateAware? ==> p.known.About(id).duplicateSenders == {})
      && (!c.protocol.IDontWantFlooding? ==> p.known.About(id).dontWantPeers == {})
  }

  ghost predicate PeerOk(c: Config, u: Node, p: PeerState)
    requires c.protocol.Valid() && u < |c.neighbors| == |c.workers|
  {
    ContentsOk(c, u, p) && OneCopy(p) && HistoryOk(c, u, p) && KnowledgeOk(c, u, p)
  }

  // Links: p is the peer at the sending end u, q the peer at the receiving end v

  ghost predicate FrameOk(c: Config, p: PeerState, f: Frame)
    requires c.protocol.Valid()
  {
    match f
    case Data(m) => RelayOk(c, p, m)
    case IDontWant(id) => id in p.arrival
  }

  ghost predicate LinkContents(c: Config, p: PeerState, l: Link)
    requires c.protocol.Valid()
  {
    && (forall f :: f in l.queues.control ==> f.IDontWant? && FrameOk(c, p, f))
    && (forall f :: f in l.queues.data ==> f.Data? && FrameOk(c, p, f))
    && (!l.hand.Empty? ==> FrameOk(c, p, l.hand.frame))
    && (forall f :: f in l.wire ==> FrameOk(c, p, f))
    && (!Suppresses(c.protocol) ==> forall id :: l.log[Suppressed(id)] == 0)
  }

  /** Each decision to forward has one fate; only a HopWave trough may drop the decision. */
  ghost predicate LinkLaw(c: Config, v: Node, p: PeerState, l: Link) {
    forall id ::
      && SumBy(p.workers, OwedBy(v, id)) + Tally(l, id) <= Owed(p, v, id)
      && (FullRelay(c.protocol) ==> SumBy(p.workers, OwedBy(v, id)) + Tally(l, id) == Owed(p, v, id))
  }

  /** The frame just written, while its sent event is not yet recorded. */
  ghost function Unrecorded(l: Link, id: MessageId): nat {
    if l.hand.Written? then DataFor(id)(l.hand.frame) else 0
  }

  /** A frame that was written is on the wire or was received. */
  ghost predicate WireLaw(u: Node, l: Link, q: PeerState) {
    forall id ::
      SumBy(l.wire, DataFor(id)) + q.log[Received(u, id, false)] + q.log[Received(u, id, true)]
      == l.log[Sent(id)] + Unrecorded(l, id)
  }

  /** One receipt is the first, that of the supplier; any receipt leaves the peer with the message. */
  ghost predicate ReceiptsOk(u: Node, q: PeerState) {
    forall id ::
      && q.log[Received(u, id, false)] == Bit(id in q.arrival && q.arrival[id].from == Some(u))
      && (q.log[Received(u, id, true)] > 0 ==> id in q.arrival)
  }

  ghost predicate SupplierOk(u: Node, p: PeerState, q: PeerState) {
    forall id :: id in q.arrival && q.arrival[id].from == Some(u) ==>
      id in p.arrival && q.arrival[id].depth == p.arrival[id].depth + 1
  }

  /** Whoever u leaves out has the message. */
  ghost predicate SuppressionOk(v: Node, p: PeerState, l: Link, q: PeerState) {
    && (forall id :: v in p.known.About(id).duplicateSenders ==> id in q.arrival)
    && (forall id :: v in p.known.About(id).dontWantPeers ==> id in q.arrival)
    && (forall w :: w in p.workers && w.Deciding? && v in w.suppressed ==> w.item.message.id in q.arrival)
    && (forall id :: l.log[Suppressed(id)] > 0 ==> id in q.arrival)
  }

  ghost predicate EdgeOk(c: Config, u: Node, v: Node, p: PeerState, l: Link, q: PeerState)
    requires c.protocol.Valid()
  {
    && LinkContents(c, p, l)
    && LinkLaw(c, v, p, l)
    && WireLaw(u, l, q)
    && ReceiptsOk(u, q)
    && SupplierOk(u, p, q)
    && SuppressionOk(v, p, l, q)
  }

  ghost predicate IssuedOk(s: State) {
    && (forall u: Node, id :: u < |s.peers| && id in s.peers[u].arrival ==> id in s.issued)
    && (forall id :: id in s.issued ==> id.origin < |s.peers| && id in s.peers[id.origin].arrival)
  }

  ghost predicate PeerAt(c: Config, s: State, u: Node)
    requires c.Valid()
  {
    u < |s.peers| == |c.neighbors| && PeerOk(c, u, s.peers[u])
  }

  ghost predicate EdgeAt(c: Config, s: State, u: Node, v: Node)
    requires c.Valid()
  {
    u < |s.peers| && v < |s.peers| && (u, v) in s.links && EdgeOk(c, u, v, s.peers[u], s.links[(u, v)], s.peers[v])
  }

  ghost predicate Inv(c: Config, s: State)
    requires c.Valid()
  {
    && |s.peers| == |c.neighbors|
    && (forall e :: e in s.links <==> Adjacent(c.neighbors, e.0, e.1))
    && (forall u: Node {:trigger PeerAt(c, s, u)} :: u < |s.peers| ==> PeerAt(c, s, u))
    && (forall u: Node, v: Node {:trigger EdgeAt(c, s, u, v)} ::
         Adjacent(c.neighbors, u, v) ==> EdgeAt(c, s, u, v))
    && IssuedOk(s)
  }

  lemma InitInv(c: Config, s: State)
    requires c.Valid() && Init(c, s)
    ensures Inv(c, s)
  {
    forall u: Node | u < |s.peers| ensures PeerAt(c, s, u) {
      NewPeerOk(c, u, s.peers[u]);
    }
    forall u: Node, v: Node | Adjacent(c.neighbors, u, v)
      ensures EdgeAt(c, s, u, v)
    {
      assert (u, v) in s.links;
      NewEdgeOk(c, u, v, s.peers[u], s.links[(u, v)], s.peers[v]);
    }
  }

  lemma NewPeerOk(c: Config, u: Node, p: PeerState)
    requires c.Valid() && u < |c.neighbors| && p == NewPeer(c.workers[u])
    ensures PeerOk(c, u, p)
  {
    forall id ensures CopiesAt(p, id) == 0 {
      SumByZero(p.workers, DelayFor(id));
    }
  }

  lemma NewEdgeOk(c: Config, u: Node, v: Node, p: PeerState, l: Link, q: PeerState)
    requires c.Valid() && Adjacent(c.neighbors, u, v)
    requires p == NewPeer(c.workers[u]) && l == NEW_LINK && q == NewPeer(c.workers[v])
    ensures EdgeOk(c, u, v, p, l, q)
  {
    forall id ensures SumBy(p.workers, OwedBy(v, id)) == 0 {
      SumByZero(p.workers, OwedBy(v, id));
    }
  }
}
