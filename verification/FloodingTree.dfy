/** First deliveries form a tree rooted at the origin; hops count its depth. */
module FloodingTree {
  import opened Wrappers
  import opened Wire
  import opened Graph
  import opened Flooding
  import opened FloodingInvariant
  import opened FloodingArrivals
  import HopWave
  import Sequences

  ghost predicate Seen(s: State, u: Node, id: MessageId) {
    u < |s.peers| && id in s.peers[u].known.seen
  }

  ghost predicate Supplied(s: State, u: Node, v: Node, id: MessageId) {
    u < |s.peers| && v < |s.peers| && id in s.peers[v].arrival && s.peers[v].arrival[id].from == Some(u)
  }

  /** A route of first deliveries from the origin, each peer supplied by the one before it. */
  ghost predicate DeliveryRoute(s: State, id: MessageId, route: seq<Node>) {
    && route != []
    && route[0] == id.origin
    && (forall i :: 0 <= i < |route| ==> Seen(s, route[i], id))
    && (forall i :: 0 <= i < |route| - 1 ==> Supplied(s, route[i], route[i + 1], id))
    && (forall i :: 0 <= i < |route| ==> id in s.peers[route[i]].arrival && s.peers[route[i]].arrival[id].depth == i)
  }

  /** The supplier of a peer is a neighbour that saw the message one hop earlier. */
  lemma SupplierStep(c: Config, s: State, id: MessageId, v: Node)
    requires c.Valid() && Inv(c, s) && Seen(s, v, id)
    ensures s.peers[v].arrival.Keys == s.peers[v].known.seen
    ensures
      var a := s.peers[v].arrival[id];
      && (a.from.None? <==> v == id.origin)
      && (a.from.None? <==> a.depth == 0)
      && (a.from.Some? ==>
            && Adjacent(c.neighbors, a.from.value, v)
            && Seen(s, a.from.value, id)
            && s.peers[a.from.value].arrival.Keys == s.peers[a.from.value].known.seen
            && a.depth == s.peers[a.from.value].arrival[id].depth + 1)
  {
    assert PeerAt(c, s, v);
    assert ArrivalOk(c, v, s.peers[v], id);
    var a := s.peers[v].arrival[id];
    if a.from.Some? {
      var u := a.from.value;
      assert Adjacent(c.neighbors, u, v);
      assert EdgeAt(c, s, u, v) && PeerAt(c, s, u);
    }
  }

  lemma {:induction false} RouteTo(c: Config, s: State, id: MessageId, v: Node) returns (route: seq<Node>)
    requires c.Valid() && Inv(c, s) && Seen(s, v, id)
    ensures DeliveryRoute(s, id, route) && route[|route| - 1] == v
    ensures Path(c.neighbors, route)
    decreases Depth(s.peers[v], id)
  {
    SupplierStep(c, s, id, v);
    var a := s.peers[v].arrival[id];
    if a.from.None? {
      route := [v];
    } else {
      var u := a.from.value;
      var prefix := RouteTo(c, s, id, u);
      route := prefix + [v];
      assert Supplied(s, u, v, id);
    }
  }

  /** Peers on a route are pairwise distinct, so its length is bounded by the peers reached. */
  lemma {:induction false} DistinctBound(route: seq<Node>, reached: set<Node>)
    requires forall i :: 0 <= i < |route| ==> route[i] in reached
    requires forall i, j :: 0 <= i < j < |route| ==> route[i] != route[j]
    ensures |route| <= |reached|
  {
    if route != [] {
      var last := route[|route| - 1];
      DistinctBound(route[..|route| - 1], reached - {last});
    }
  }

  ghost function Reached(s: State, id: MessageId): set<Node> {
    set u: Node | u < |s.peers| && id in s.peers[u].known.seen
  }

  /**
   * In every reachable state, whoever has seen a message is joined to its origin by a unique
   * chain of suppliers, which is a path of the topology; its length is the depth of the peer,
   * and that is less than the number of peers reached.
   */
  lemma FirstDeliveryTree(c: Config, s: State, id: MessageId, v: Node) returns (route: seq<Node>)
    requires c.Valid() && Reachable(c, s) && Seen(s, v, id)
    ensures DeliveryRoute(s, id, route) && Path(c.neighbors, route)
    ensures route[|route| - 1] == v && |route| == s.peers[v].arrival[id].depth + 1
    ensures |route| <= |Reached(s, id)|
    ensures forall other :: DeliveryRoute(s, id, other) && other[|other| - 1] == v ==> other == route
  {
    ReachableInv(c, s);
    route := RouteTo(c, s, id, v);
    forall i | 0 <= i < |route| ensures route[i] in Reached(s, id) {
      assert Seen(s, route[i], id);
    }
    DistinctBound(route, Reached(s, id));
    forall other | DeliveryRoute(s, id, other) && other[|other| - 1] == v ensures other == route {
      RouteUnique(s, id, route, other);
    }
  }

  lemma {:induction false} RouteUnique(s: State, id: MessageId, a: seq<Node>, b: seq<Node>)
    requires DeliveryRoute(s, id, a) && DeliveryRoute(s, id, b)
    requires a[|a| - 1] == b[|b| - 1]
    ensures a == b
  {
    assert |a| == |b|;
    if |a| > 1 {
      var i := |a| - 2;
      assert Supplied(s, a[i], a[i + 1], id) && Supplied(s, b[i], b[i + 1], id);
      RouteUnique(s, id, a[..|a| - 1], b[..|b| - 1]);
      assert a == a[..|a| - 1] + [a[|a| - 1]];
      assert b == b[..|b| - 1] + [b[|b| - 1]];
    }
  }

  ghost predicate Carries(l: Link, f: Frame) {
    f in l.queues.data || f in l.wire || (!l.hand.Empty? && l.hand.frame == f)
  }

  /**
   * With fewer than 2^32 peers the 32-bit fields never wrap: a data frame on a link carries the
   * depth of its sender plus one as Hop, and under HopWave its cycle field is (Hop - 1) modulo the
   * cycle length of the code, which is I itself for I <= 2^32.
   */
  lemma FrameHops(c: Config, s: State, u: Node, v: Node, m: Message)
    requires c.Valid() && Reachable(c, s) && |c.neighbors| < UINT32
    requires LinkAt(s, u, v) && Carries(s.links[(u, v)], Data(m))
    ensures Seen(s, u, m.id) && m.hop == Depth(s.peers[u], m.id) + 1 <= |Reached(s, m.id)|
    ensures c.protocol.HopWave? ==> m.wave == (m.hop - 1) % HopWave.Period(c.protocol.i)
    ensures c.protocol.HopWave? && c.protocol.i <= UINT32 ==> m.wave == (m.hop - 1) % c.protocol.i
    ensures !c.protocol.HopWave? ==> m.wave == 0
  {
    ReachableInv(c, s);
    LinkRelay(c, s, u, v, m);
    DepthBound(c, s, m.id, u);
    RelayHops(c, s.peers[u], m);
  }

  lemma LinkFrame(c: Config, s: State, u: Node, v: Node, f: Frame)
    requires c.Valid() && Inv(c, s) && LinkAt(s, u, v) && Carries(s.links[(u, v)], f)
    ensures FrameOk(c, s.peers[u], f) && s.peers[u].arrival.Keys == s.peers[u].known.seen
  {
    assert EdgeAt(c, s, u, v) && PeerAt(c, s, u);
  }

  lemma LinkRelay(c: Config, s: State, u: Node, v: Node, m: Message)
    requires c.Valid() && Inv(c, s) && LinkAt(s, u, v) && Carries(s.links[(u, v)], Data(m))
    ensures RelayOk(c, s.peers[u], m) && Seen(s, u, m.id)
  {
    LinkFrame(c, s, u, v, Data(m));
  }

  lemma RelayHops(c: Config, p: PeerState, m: Message)
    requires c.protocol.Valid() && RelayOk(c, p, m) && Depth(p, m.id) + 1 < UINT32
    ensures m.hop == Depth(p, m.id) + 1
    ensures c.protocol.HopWave? ==> m.wave == (m.hop - 1) % HopWave.Period(c.protocol.i)
    ensures c.protocol.HopWave? && c.protocol.i <= UINT32 ==> m.wave == (m.hop - 1) % c.protocol.i
    ensures !c.protocol.HopWave? ==> m.wave == 0
  {
    var depth := Depth(p, m.id);
    SmallMod(depth + 1);
    if c.protocol.HopWave? {
      HopWave.PeriodIsI(c.protocol.i);
      assert m.hop - 1 == depth;
    }
  }

  ghost predicate Holds(p: PeerState, item: Item) {
    item in p.queue || Delaying(item) in p.workers
  }

  /** What a peer queues or processes carries its depth in the delivery tree as Hop. */
  lemma ItemHops(c: Config, s: State, u: Node, item: Item)
    requires c.Valid() && Reachable(c, s) && |c.neighbors| < UINT32
    requires u < |s.peers| && Holds(s.peers[u], item)
    ensures Seen(s, u, item.message.id)
    ensures item.message.hop == Depth(s.peers[u], item.message.id) < |Reached(s, item.message.id)|
    ensures item.message.id in s.peers[u].arrival && item.from == s.peers[u].arrival[item.message.id].from
  {
    ReachableInv(c, s);
    HeldItem(c, s, u, item);
    DepthBound(c, s, item.message.id, u);
    SmallMod(Depth(s.peers[u], item.message.id));
  }

  lemma HeldItem(c: Config, s: State, u: Node, item: Item)
    requires c.Valid() && Inv(c, s) && u < |s.peers| && Holds(s.peers[u], item)
    ensures ItemOk(c, s.peers[u], item) && s.peers[u].arrival.Keys == s.peers[u].known.seen
  {
    assert PeerAt(c, s, u);
    if Delaying(item) in s.peers[u].workers {
      assert WorkerOk(c, u, s.peers[u], Delaying(item));
    }
  }

  lemma SmallMod(d: nat)
    requires d < UINT32
    ensures d % UINT32 == d
  {
  }

  lemma DepthBound(c: Config, s: State, id: MessageId, v: Node)
    requires c.Valid() && Reachable(c, s) && Seen(s, v, id)
    ensures Depth(s.peers[v], id) < |Reached(s, id)| <= |c.neighbors|
  {
    ReachableInv(c, s);
    var route := FirstDeliveryTree(c, s, id, v);
    var all := Sequences.Range(|s.peers|);
    Sequences.DistinctSize(all);
    forall u | u in Reached(s, id) ensures u in Sequences.Elements(all) {
      assert all[u] == u;
    }
    Sequences.SubsetSize(Reached(s, id), Sequences.Elements(all));
  }
}
