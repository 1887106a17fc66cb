/** How much traffic one message causes, counted over the recorded events. */
module FloodingTraffic {
  import opened Wrappers
  import opened Wire
  import opened Graph
  import opened Sums
  import opened Flooding
  import opened FloodingInvariant
  import opened FloodingArrivals
  import opened FloodingTree
  import opened FloodingCoverage

  // Events of one message by directed edge

  ghost function SentOn(s: State, id: MessageId, u: Node, v: Node): nat {
    if (u, v) in s.links then s.links[(u, v)].log[Sent(id)] else 0
  }

  ghost function SuppressedOn(s: State, id: MessageId, u: Node, v: Node): nat {
    if (u, v) in s.links then s.links[(u, v)].log[Suppressed(id)] else 0
  }

  ghost function DuplicatesOn(s: State, id: MessageId, u: Node, v: Node): nat {
    if (u, v) in s.links && v < |s.peers| then s.peers[v].log[Received(u, id, true)] else 0
  }

  ghost function SentAt(s: State, id: MessageId): (nat, nat) -> nat {
    (u: nat, v: nat) => SentOn(s, id, u, v)
  }

  ghost function SuppressedAt(s: State, id: MessageId): (nat, nat) -> nat {
    (u: nat, v: nat) => SuppressedOn(s, id, u, v)
  }

  ghost function DuplicatesAt(s: State, id: MessageId): (nat, nat) -> nat {
    (u: nat, v: nat) => DuplicatesOn(s, id, u, v)
  }

  /** The number of message_sent events of a message. */
  ghost function Transmissions(s: State, id: MessageId): nat {
    Grid(|s.peers|, SentAt(s, id))
  }

  /** The number of message_suppressed events of a message. */
  ghost function Suppressions(s: State, id: MessageId): nat {
    Grid(|s.peers|, SuppressedAt(s, id))
  }

  /** The number of message_received events of a message that are marked as duplicates. */
  ghost function DuplicateReceptions(s: State, id: MessageId): nat {
    Grid(|s.peers|, DuplicatesAt(s, id))
  }

  // The component of a node

  ghost function Component(g: Neighbors, origin: Node): set<Node> {
    set u: Node | u < |g| && Connected(g, origin, u)
  }

  /** The ordered pairs of adjacent nodes of the component. */
  ghost function PairOn(g: Neighbors, origin: Node, u: Node, v: Node): nat {
    Bit(Connected(g, origin, u) && Adjacent(g, u, v))
  }

  ghost function UpOn(g: Neighbors, origin: Node, u: Node, v: Node): nat {
    if u < v then PairOn(g, origin, u, v) else 0
  }

  ghost function PairAt(g: Neighbors, origin: Node): (nat, nat) -> nat {
    (u: nat, v: nat) => PairOn(g, origin, u, v)
  }

  ghost function EdgeUp(g: Neighbors, origin: Node): (nat, nat) -> nat {
    (u: nat, v: nat) => UpOn(g, origin, u, v)
  }

  /** The number of undirected edges of the component, each counted at its smaller end. */
  ghost function ComponentEdges(g: Neighbors, origin: Node): nat {
    Grid(|g|, EdgeUp(g, origin))
  }

  lemma PairIsUpOrDown(g: Neighbors, origin: Node, u: Node, v: Node)
    requires Simple(g) && u < |g| && v < |g|
    ensures PairOn(g, origin, u, v) == UpOn(g, origin, u, v) + UpOn(g, origin, v, u)
  {
    assert Adjacent(g, u, v) <==> Adjacent(g, v, u);
    assert !Adjacent(g, u, u);
    if Adjacent(g, u, v) {
      if Connected(g, origin, u) {
        ConnectedStep(g, origin, u, v);
      }
      if Connected(g, origin, v) {
        ConnectedStep(g, origin, v, u);
      }
    }
  }

  /** Each edge is two ordered pairs. */
  lemma Handshake(g: Neighbors, origin: Node)
    requires Simple(g)
    ensures Grid(|g|, PairAt(g, origin)) == 2 * ComponentEdges(g, origin)
  {
    var up := EdgeUp(g, origin);
    forall u: nat, v: nat | u < |g| && v < |g| ensures PairAt(g, origin)(u, v) == up(u, v) + Transpose(up)(u, v) {
      PairIsUpOrDown(g, origin, u, v);
    }
    GridPlus(|g|, up, Transpose(up), PairAt(g, origin));
    GridSwap(|g|, up);
  }

  // Suppliers

  ghost function SupplierOn(s: State, id: MessageId, u: Node, v: Node): nat {
    Bit(u < |s.peers| && id in s.peers[u].arrival && s.peers[u].arrival[id].from == Some(v))
  }

  ghost function SupplierAt(s: State, id: MessageId): (nat, nat) -> nat {
    (u: nat, v: nat) => SupplierOn(s, id, u, v)
  }

  ghost function SeenBeyond(s: State, id: MessageId): nat -> nat {
    (u: nat) => Bit(Seen(s, u, id) && u != id.origin)
  }

  /** Every peer that has the message, but the origin, has one supplier. */
  lemma SupplierCount(c: Config, s: State, id: MessageId)
    requires c.Valid() && Inv(c, s) && id in s.issued
    ensures Grid(|s.peers|, SupplierAt(s, id)) + 1 == |Reached(s, id)|
  {
    var n := |s.peers|;
    forall u: nat | u < n ensures RowSums(n, SupplierAt(s, id))(u) == SeenBeyond(s, id)(u) {
      SupplierRow(c, s, id, u);
    }
    SumToEqual(n, RowSums(n, SupplierAt(s, id)), SeenBeyond(s, id));
    OriginHasIt(c, s, id);
    CountSeen(s, id, n);
  }

  lemma ArrivedIsSeen(c: Config, s: State, u: Node)
    requires c.Valid() && Inv(c, s) && u < |s.peers|
    ensures s.peers[u].arrival.Keys == s.peers[u].known.seen
  {
    assert PeerAt(c, s, u);
  }

  lemma SupplierRow(c: Config, s: State, id: MessageId, u: Node)
    requires c.Valid() && Inv(c, s) && u < |s.peers|
    ensures SumTo(|s.peers|, Row(SupplierAt(s, id), u)) == SeenBeyond(s, id)(u)
  {
    var n := |s.peers|;
    var row := Row(SupplierAt(s, id), u);
    ArrivedIsSeen(c, s, u);
    if Seen(s, u, id) {
      SupplierStep(c, s, id, u);
      if u != id.origin {
        SumToUnit(n, s.peers[u].arrival[id].from.value, row);
      } else {
        SumToZero(n, row);
      }
    } else {
      SumToZero(n, row);
    }
  }

  ghost function ReachedBelow(s: State, id: MessageId, n: nat): set<Node> {
    set u: Node | u < n && u < |s.peers| && id in s.peers[u].known.seen
  }

  lemma {:induction false} CountSeen(s: State, id: MessageId, n: nat)
    requires n <= |s.peers| && Seen(s, id.origin, id)
    ensures SumTo(n, SeenBeyond(s, id)) + Bit(id.origin < n) == |ReachedBelow(s, id, n)|
    ensures n == |s.peers| ==> ReachedBelow(s, id, n) == Reached(s, id)
  {
    if n > 0 {
      CountSeen(s, id, n - 1);
      if Seen(s, n - 1, id) {
        assert ReachedBelow(s, id, n) == ReachedBelow(s, id, n - 1) + {n - 1};
      } else {
        assert ReachedBelow(s, id, n) == ReachedBelow(s, id, n - 1);
      }
    }
  }

  // The law

  lemma EdgeTraffic(c: Config, s: State, id: MessageId, u: Node, v: Node)
    requires c.Valid() && Inv(c, s) && FullRelay(c.protocol) && Quiescent(s, id) && NoDataDrop(s, id)
    requires Adjacent(c.neighbors, u, v) && u < |s.peers|
    ensures Bit(Seen(s, u, id)) == SentOn(s, id, u, v) + SuppressedOn(s, id, u, v) + SupplierOn(s, id, u, v)
    ensures SentOn(s, id, u, v) == SupplierOn(s, id, v, u) + DuplicatesOn(s, id, u, v)
    ensures !Suppresses(c.protocol) ==> SuppressedOn(s, id, u, v) == 0
  {
    QuietEdgeAt(c, s, u, v, id);
  }

  lemma SupplierIsNeighbor(c: Config, s: State, id: MessageId, u: Node, v: Node)
    requires c.Valid() && Inv(c, s) && u < |s.peers| && SupplierOn(s, id, u, v) > 0
    ensures v < |s.peers| && Adjacent(c.neighbors, u, v) && Adjacent(c.neighbors, v, u)
  {
    ArrivedIsSeen(c, s, u);
    SupplierStep(c, s, id, u);
  }

  lemma NoTrafficElsewhere(c: Config, s: State, id: MessageId, u: Node, v: Node)
    requires c.Valid() && Inv(c, s) && u < |s.peers| && v < |s.peers| && !Adjacent(c.neighbors, u, v)
    ensures SentOn(s, id, u, v) == 0 && SuppressedOn(s, id, u, v) == 0 && DuplicatesOn(s, id, u, v) == 0
    ensures SupplierOn(s, id, u, v) == 0 && SupplierOn(s, id, v, u) == 0
  {
    assert (u, v) !in s.links;
    if SupplierOn(s, id, u, v) > 0 {
      SupplierIsNeighbor(c, s, id, u, v);
    }
    if SupplierOn(s, id, v, u) > 0 {
      SupplierIsNeighbor(c, s, id, v, u);
    }
  }

  /** One ordered pair of peers at rest: who sends, who suppresses, and what arrives. */
  lemma PairTraffic(c: Config, s: State, id: MessageId, u: Node, v: Node)
    requires c.Valid() && Inv(c, s) && FullRelay(c.protocol) && Quiescent(s, id) && NoDataDrop(s, id)
    requires u < |s.peers| && v < |s.peers|
    requires Seen(s, u, id) <==> Connected(c.neighbors, id.origin, u)
    ensures PairOn(c.neighbors, id.origin, u, v)
            == SentOn(s, id, u, v) + SuppressedOn(s, id, u, v) + SupplierOn(s, id, u, v)
    ensures SentOn(s, id, u, v) == SupplierOn(s, id, v, u) + DuplicatesOn(s, id, u, v)
    ensures !Suppresses(c.protocol) ==> SuppressedOn(s, id, u, v) == 0
  {
    if Adjacent(c.neighbors, u, v) {
      EdgeTraffic(c, s, id, u, v);
    } else {
      NoTrafficElsewhere(c, s, id, u, v);
    }
  }

  ghost function SentOrSuppressed(s: State, id: MessageId): (nat, nat) -> nat {
    (u: nat, v: nat) => SentOn(s, id, u, v) + SuppressedOn(s, id, u, v)
  }

  lemma AllPairs(c: Config, s: State, id: MessageId)
    requires c.Valid() && Reachable(c, s) && FullRelay(c.protocol) && id in s.issued
    requires Quiescent(s, id) && NoDataDrop(s, id)
    ensures |s.peers| == |c.neighbors|
    ensures forall u: nat, v: nat :: u < |s.peers| && v < |s.peers| ==>
      PairAt(c.neighbors, id.origin)(u, v) == SentOrSuppressed(s, id)(u, v) + SupplierAt(s, id)(u, v)
    ensures forall u: nat, v: nat :: u < |s.peers| && v < |s.peers| ==>
      SentAt(s, id)(u, v) == Transpose(SupplierAt(s, id))(u, v) + DuplicatesAt(s, id)(u, v)
    ensures forall u: nat, v: nat :: u < |s.peers| && v < |s.peers| && !Suppresses(c.protocol) ==>
      SuppressedAt(s, id)(u, v) == 0
  {
    ReachableInv(c, s);
    Coverage(c, s, id);
    forall u: nat, v: nat | u < |s.peers| && v < |s.peers|
      ensures PairOn(c.neighbors, id.origin, u, v)
            == SentOn(s, id, u, v) + SuppressedOn(s, id, u, v) + SupplierOn(s, id, u, v)
      ensures SentOn(s, id, u, v) == SupplierOn(s, id, v, u) + DuplicatesOn(s, id, u, v)
      ensures !Suppresses(c.protocol) ==> SuppressedOn(s, id, u, v) == 0
    {
      PairTraffic(c, s, id, u, v);
    }
  }

  lemma TrafficSums(c: Config, s: State, id: MessageId)
    requires c.Valid() && Reachable(c, s) && FullRelay(c.protocol) && id in s.issued
    requires Quiescent(s, id) && NoDataDrop(s, id)
    ensures |s.peers| == |c.neighbors|
    ensures
      Grid(|s.peers|, PairAt(c.neighbors, id.origin))
      == Transmissions(s, id) + Suppressions(s, id) + Grid(|s.peers|, SupplierAt(s, id))
    ensures Transmissions(s, id) == Grid(|s.peers|, SupplierAt(s, id)) + DuplicateReceptions(s, id)
    ensures !Suppresses(c.protocol) ==> Suppressions(s, id) == 0
  {
    var k := |s.peers|;
    var supplier := SupplierAt(s, id);
    AllPairs(c, s, id);
    GridPlus(k, SentOrSuppressed(s, id), supplier, PairAt(c.neighbors, id.origin));
    GridPlus(k, SentAt(s, id), SuppressedAt(s, id), SentOrSuppressed(s, id));
    GridPlus(k, Transpose(supplier), DuplicatesAt(s, id), SentAt(s, id));
    GridSwap(k, supplier);
    if !Suppresses(c.protocol) {
      ZeroGrid(k, SuppressedAt(s, id));
    }
  }

  /**
   * The exact traffic of a message that came to rest without a drop, in a component of N peers
   * and E edges: sent and suppressed copies together number 2E - (N - 1), and each received copy
   * that is not among the N - 1 first ones is a duplicate. Where nothing is suppressed, as under
   * base flooding, that makes 2E - (N - 1) transmissions and 2(E - N + 1) duplicates.
   */
  lemma ExactTraffic(c: Config, s: State, id: MessageId)
    requires c.Valid() && Reachable(c, s) && FullRelay(c.protocol) && id in s.issued
    requires Quiescent(s, id) && NoDataDrop(s, id)
    ensures
      var n := |Component(c.neighbors, id.origin)|;
      var e := ComponentEdges(c.neighbors, id.origin);
      && Transmissions(s, id) + Suppressions(s, id) + n == 2 * e + 1
      && Transmissions(s, id) + 1 == DuplicateReceptions(s, id) + n
      && (!Suppresses(c.protocol) ==>
            && Suppressions(s, id) == 0
            && Transmissions(s, id) == 2 * e - (n - 1)
            && DuplicateReceptions(s, id) == 2 * (e - n + 1))
  {
    TrafficSums(c, s, id);
    ReachableSupplierCount(c, s, id);
    Handshake(c.neighbors, id.origin);
    ComponentReached(c, s, id);
  }

  lemma ReachableSupplierCount(c: Config, s: State, id: MessageId)
    requires c.Valid() && Reachable(c, s) && id in s.issued
    ensures Grid(|s.peers|, SupplierAt(s, id)) + 1 == |Reached(s, id)|
  {
    ReachableInv(c, s);
    SupplierCount(c, s, id);
  }

  lemma ZeroGrid(n: nat, a: (nat, nat) -> nat)
    requires forall u: nat, v: nat :: u < n && v < n ==> a(u, v) == 0
    ensures Grid(n, a) == 0
  {
    forall u: nat | u < n ensures RowSums(n, a)(u) == 0 {
      SumToZero(n, Row(a, u));
    }
    SumToZero(n, RowSums(n, a));
  }

  lemma ComponentReached(c: Config, s: State, id: MessageId)
    requires c.Valid() && Reachable(c, s) && FullRelay(c.protocol) && id in s.issued
    requires Quiescent(s, id) && NoDataDrop(s, id)
    ensures Component(c.neighbors, id.origin) == Reached(s, id)
  {
    ReachableInv(c, s);
    Coverage(c, s, id);
    forall u: Node ensures u in Component(c.neighbors, id.origin) <==> u in Reached(s, id) {
      assert Seen(s, u, id) <==> Connected(c.neighbors, id.origin, u);
    }
  }
}
