/** From a generated edge list through the coordinator's configurations to the flooding protocol. */
module Deployment {
  import opened EdgeLists
  import opened EdgePaths
  import opened FinishTopology
  import opened RuntimeConfigs
  import Flooding
  import FloodingAmple
  import FloodingArrivals
  import FloodingCoverage
  import FloodingInvariant
  import FloodingProgress
  import FloodingTree
  import Graph
  import Wire

  /** The topology section that a generated edge list expands to. */
  ghost predicate Expands(nodes: seq<NodeId>, generated: seq<Edge>, t: Topology) {
    && t.nodes == nodes
    && |t.edges| == |generated|
    && forall k {:trigger generated[k]} :: 0 <= k < |generated| ==>
         && generated[k].a < |nodes| && generated[k].b < |nodes|
         && t.edges[k].source == nodes[generated[k].a] && t.edges[k].target == nodes[generated[k].b]
  }

  ghost predicate DistinctIds(nodes: seq<NodeId>) {
    forall i, j {:trigger SameId(nodes, i, j)} :: 0 <= i < |nodes| && 0 <= j < |nodes| && SameId(nodes, i, j) ==> i == j
  }

  ghost predicate SameId(nodes: seq<NodeId>, i: int, j: int) {
    0 <= i < |nodes| && 0 <= j < |nodes| && nodes[i] == nodes[j]
  }

  /** A simple edge list over distinct ids expands to a valid topology. */
  lemma ExpandedIsValid(nodes: seq<NodeId>, generated: seq<Edge>, t: Topology)
    requires DistinctIds(nodes) && SimpleEdges(|nodes|, generated) && Expands(nodes, generated, t)
    ensures t.Valid()
  {
    forall i, j ensures t.DifferentNodes(i, j) {
      assert 0 <= i < j < |nodes| && nodes[i] == nodes[j] ==> SameId(nodes, i, j);
    }
    forall k | 0 <= k < |t.edges|
      ensures t.edges[k].source in t.nodes && t.edges[k].target in t.nodes && t.edges[k].source != t.edges[k].target
    {
      var e := generated[k];
      assert e in generated;
      assert nodes[e.a] == nodes[e.b] ==> SameId(nodes, e.a, e.b);
    }
    forall j, k ensures t.DifferentPairs(j, k) {
      if 0 <= j < k < |generated| {
        PairsStayDifferent(nodes, generated, t, j, k);
      }
    }
  }

  lemma PairsStayDifferent(nodes: seq<NodeId>, generated: seq<Edge>, t: Topology, j: nat, k: nat)
    requires DistinctIds(nodes) && SimpleEdges(|nodes|, generated) && Expands(nodes, generated, t)
    requires j < k < |generated|
    ensures {t.edges[j].source, t.edges[j].target} != {t.edges[k].source, t.edges[k].target}
  {
    var e, f := generated[j], generated[k];
    assert e in generated && f in generated;
    assert Differ(generated, j, k);
    assert nodes[e.a] == nodes[f.a] ==> SameId(nodes, e.a, f.a);
    assert nodes[e.a] == nodes[f.b] ==> SameId(nodes, e.a, f.b);
    assert nodes[e.b] == nodes[f.a] ==> SameId(nodes, e.b, f.a);
    assert nodes[e.b] == nodes[f.b] ==> SameId(nodes, e.b, f.b);
    assert nodes[e.a] in {nodes[e.a], nodes[e.b]} && nodes[e.b] in {nodes[e.a], nodes[e.b]};
  }

  /** Edge k of the topology joins two nodes exactly when it is the generated edge of their pair. */
  lemma JoinsIsPair(nodes: seq<NodeId>, generated: seq<Edge>, t: Topology, k: nat, u: nat, v: nat)
    requires DistinctIds(nodes) && SimpleEdges(|nodes|, generated) && Expands(nodes, generated, t)
    requires k < |generated| && u < |nodes| && v < |nodes|
    ensures Joins(t, k, u, v) <==> generated[k].Pair() == Key(u, v)
  {
    var e := generated[k];
    assert e in generated;
    assert nodes[e.a] == nodes[u] ==> SameId(nodes, e.a, u);
    assert nodes[e.b] == nodes[v] ==> SameId(nodes, e.b, v);
    assert nodes[e.a] == nodes[v] ==> SameId(nodes, e.a, v);
    assert nodes[e.b] == nodes[u] ==> SameId(nodes, e.b, u);
  }

  ghost function Indexes(s: seq<Neighbor>): (r: seq<Wire.Node>)
    ensures |r| == |s| && forall i :: 0 <= i < |s| ==> r[i] == s[i].index
  {
    seq(|s|, (i: nat) requires i < |s| => s[i].index)
  }

  /** The neighbour lists that the peers start with. */
  ghost function GraphOf(t: Topology, registrations: Registrations): (g: Graph.Neighbors)
    requires Buildable(t, registrations)
    ensures |g| == |t.nodes| && forall u: nat :: u < |g| ==> g[u] == Indexes(ConfigOf(t, registrations, u).neighbors)
  {
    seq(|t.nodes|, (u: nat) requires u < |t.nodes| => Indexes(ConfigOf(t, registrations, u).neighbors))
  }

  lemma ListsEdge(t: Topology, registrations: Registrations, u: nat, v: nat)
    requires Buildable(t, registrations) && u < |t.nodes|
    ensures Graph.Adjacent(GraphOf(t, registrations), u, v) <==> exists k :: Joins(t, k, u, v)
  {
    var neighbors := ConfigOf(t, registrations, u).neighbors;
    var list := GraphOf(t, registrations)[u];
    if v in list {
      var i :| 0 <= i < |list| && list[i] == v;
      var e := neighbors[i];
      ConfigLists(t, registrations, u, e);
      var k :| Entered(t, registrations, u, k, e);
      assert Joins(t, k, u, v);
    }
    if k :| Joins(t, k, u, v) {
      var e := EntryFor(t, registrations, t.nodes[v], t.edges[k].network);
      IndexUnique(t, v);
      assert Entered(t, registrations, u, k, e);
      ConfigLists(t, registrations, u, e);
      var i :| 0 <= i < |neighbors| && neighbors[i] == e;
      assert list[i] == v;
    }
  }

  /** The configured graph is simple: no repetition, no loop, mutual. */
  lemma DeployedGraphIsSimple(t: Topology, registrations: Registrations)
    requires Buildable(t, registrations)
    ensures Graph.Simple(GraphOf(t, registrations))
  {
    var g := GraphOf(t, registrations);
    forall u: Wire.Node | u < |g|
      ensures forall i, j :: 0 <= i < j < |g[u]| ==> g[u][i] != g[u][j]
      ensures forall v :: v in g[u] ==> v < |g| && v != u && u in g[v]
    {
      ConfigsAreSorted(t, registrations, u);
      var neighbors := ConfigOf(t, registrations, u).neighbors;
      forall i, j | 0 <= i < j < |g[u]| ensures g[u][i] != g[u][j] {
        assert IndexOrder(neighbors, i, j);
      }
      forall v | v in g[u] ensures v < |g| && v != u && u in g[v] {
        ListsEdge(t, registrations, u, v);
        var k :| Joins(t, k, u, v);
        JoinsUnique(t, k, k, u, v);
        assert Joins(t, k, v, u);
        ListsEdge(t, registrations, v, u);
      }
    }
  }

  /** The configured graph is the generated one. */
  lemma DeployedGraphIsGenerated(nodes: seq<NodeId>, generated: seq<Edge>, t: Topology, registrations: Registrations,
                                 u: nat, v: nat)
    requires DistinctIds(nodes) && SimpleEdges(|nodes|, generated) && Expands(nodes, generated, t)
    requires Buildable(t, registrations) && u < |nodes| && v < |nodes|
    ensures Graph.Adjacent(GraphOf(t, registrations), u, v) <==> Key(u, v) in Pairs(generated)
  {
    ListsEdge(t, registrations, u, v);
    if k :| Joins(t, k, u, v) {
      JoinsIsPair(nodes, generated, t, k, u, v);
      assert generated[k] in generated;
    }
    if Key(u, v) in Pairs(generated) {
      var e :| e in generated && e.Pair() == Key(u, v);
      var k :| 0 <= k < |generated| && generated[k] == e;
      JoinsIsPair(nodes, generated, t, k, u, v);
    }
  }

  /** Walks over the generated edges are paths through the deployed peers. */
  lemma LinkedIsConnected(nodes: seq<NodeId>, generated: seq<Edge>, t: Topology, registrations: Registrations, u: nat,
                          v: nat)
    requires DistinctIds(nodes) && SimpleEdges(|nodes|, generated) && Expands(nodes, generated, t)
    requires Buildable(t, registrations) && u < |nodes| && Linked(Pairs(generated), u, v)
    ensures Graph.Connected(GraphOf(t, registrations), u, v)
  {
    var p :| Walk(Pairs(generated), p) && p[0] == u && p[|p| - 1] == v;
    WalkInRange(nodes, generated, p);
    var g := GraphOf(t, registrations);
    forall i | 0 <= i < |p| - 1 ensures Graph.Adjacent(g, p[i], p[i + 1]) {
      assert Key(p[i], p[i + 1]) in Pairs(generated);
      DeployedGraphIsGenerated(nodes, generated, t, registrations, p[i], p[i + 1]);
    }
    assert Graph.Path(g, p);
  }

  lemma WalkInRange(nodes: seq<NodeId>, generated: seq<Edge>, p: seq<nat>)
    requires SimpleEdges(|nodes|, generated) && Walk(Pairs(generated), p) && p[0] < |nodes|
    ensures forall i :: 0 <= i < |p| ==> p[i] < |nodes|
  {
    forall i | 0 <= i < |p| ensures p[i] < |nodes| {
      if i > 0 {
        assert Key(p[i - 1], p[i - 1 + 1]) in Pairs(generated);
        var e :| e in generated && e.Pair() == Key(p[i - 1], p[i]);
      }
    }
  }

  /**
   * End to end: over the peers deployed from a connected generated topology, a message that has come
   * to rest without a drop has been seen by every node, whatever the interleaving and however many
   * control frames were lost.
   */
  lemma EveryNodeIsReached(nodes: seq<NodeId>, generated: seq<Edge>, t: Topology, registrations: Registrations,
                           c: Flooding.Config, s: Flooding.State, id: Wire.MessageId)
    requires DistinctIds(nodes) && SimpleEdges(|nodes|, generated) && ConnectedOn(|nodes|, Pairs(generated))
    requires Expands(nodes, generated, t) && Buildable(t, registrations)
    requires c.neighbors == GraphOf(t, registrations)
    requires c.Valid() && Flooding.Reachable(c, s) && FloodingInvariant.FullRelay(c.protocol)
    requires id in s.issued && FloodingCoverage.Quiescent(s, id) && FloodingCoverage.NoDataDrop(s, id)
    ensures forall v: nat :: v < |nodes| ==> FloodingTree.Seen(s, v, id)
  {
    FloodingCoverage.Coverage(c, s, id);
    forall v: nat | v < |nodes| ensures FloodingTree.Seen(s, v, id) {
      IssuedInRange(c, s, id);
      LinkedIsConnected(nodes, generated, t, registrations, id.origin, v);
    }
  }

  /**
   * And over peers deployed from any generated list that was finished with ensure_connected set: the
   * repair makes the list connected, and the normal form that follows keeps it so.
   */
  lemma EnsuredConnectionReachesAll(nodes: seq<NodeId>, generated: seq<Edge>, finished: seq<Edge>, t: Topology,
                                    registrations: Registrations, c: Flooding.Config, s: Flooding.State,
                                    id: Wire.MessageId)
    requires DistinctIds(nodes) && Finished(|nodes|, generated, true, finished)
    requires Expands(nodes, finished, t) && Buildable(t, registrations)
    requires c.neighbors == GraphOf(t, registrations)
    requires c.Valid() && Flooding.Reachable(c, s) && FloodingInvariant.FullRelay(c.protocol)
    requires id in s.issued && FloodingCoverage.Quiescent(s, id) && FloodingCoverage.NoDataDrop(s, id)
    ensures forall v: nat :: v < |nodes| ==> FloodingTree.Seen(s, v, id)
  {
    EveryNodeIsReached(nodes, finished, t, registrations, c, s, id);
  }

  /**
   * Without a proviso on the run: if the queues have room for all injected messages, no link is lossy and
   * no write fails, then every message is at every node once nothing but an injection is left to happen.
   */
  lemma AmpleDeploymentReachesAll(nodes: seq<NodeId>, generated: seq<Edge>, finished: seq<Edge>, t: Topology,
                                  registrations: Registrations, c: Flooding.Config, start: Flooding.State,
                                  steps: seq<Flooding.Step>, s: Flooding.State, id: Wire.MessageId)
    requires DistinctIds(nodes) && Finished(|nodes|, generated, true, finished)
    requires Expands(nodes, finished, t) && Buildable(t, registrations)
    requires c.neighbors == GraphOf(t, registrations)
    requires c.Valid() && Flooding.Init(c, start) && Flooding.Run(c, start, steps, s)
    requires FloodingInvariant.FullRelay(c.protocol) && FloodingProgress.Standstill(c, s)
    requires FloodingAmple.Ample(c, |s.issued|) && FloodingAmple.NoFailedWrite(steps) && id in s.issued
    ensures forall v: nat :: v < |nodes| ==> FloodingTree.Seen(s, v, id)
  {
    FloodingInvariant.InitInv(c, start);
    FloodingAmple.NothingIsDropped(c, start, steps, s, id);
    FloodingProgress.StandstillIsQuiescent(c, s, id);
    EnsuredConnectionReachesAll(nodes, generated, finished, t, registrations, c, s, id);
  }

  lemma IssuedInRange(c: Flooding.Config, s: Flooding.State, id: Wire.MessageId)
    requires c.Valid() && Flooding.Reachable(c, s) && id in s.issued
    ensures id.origin < |c.neighbors|
  {
    FloodingArrivals.ReachableInv(c, s);
  }
}
