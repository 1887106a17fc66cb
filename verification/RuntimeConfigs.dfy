/** The per-node runtime configuration built from the topology and the frozen registrations. */
module RuntimeConfigs {

  type NodeId = string

  datatype EdgeNetwork = EdgeNetwork(delayMS: real, lossRate: real, bandwidthMbps: real)

  datatype EdgeSpec = EdgeSpec(source: NodeId, target: NodeId, network: EdgeNetwork)

  datatype Registration = Registration(slot: int, peerID: string, address: string, controlURL: string)

  datatype Neighbor = Neighbor(nodeID: NodeId, index: nat, peerID: string, address: string, network: EdgeNetwork)

  datatype NodeConfig = NodeConfig(nodeID: NodeId, index: nat, neighbors: seq<Neighbor>)

  /** A validated topology: distinct ids, edges between known and different nodes, no pair twice. */
  datatype Topology = Topology(nodes: seq<NodeId>, edges: seq<EdgeSpec>) {
    ghost predicate Valid() {
      && (forall i, j {:trigger DifferentNodes(i, j)} :: DifferentNodes(i, j))
      && (forall k :: 0 <= k < |edges| ==>
            edges[k].source in nodes && edges[k].target in nodes && edges[k].source != edges[k].target)
      && forall j, k {:trigger DifferentPairs(j, k)} :: DifferentPairs(j, k)
    }

    ghost predicate DifferentNodes(i: int, j: int) {
      0 <= i < j < |nodes| ==> nodes[i] != nodes[j]
    }

    ghost predicate DifferentPairs(j: int, k: int) {
      0 <= j < k < |edges| ==> {edges[j].source, edges[j].target} != {edges[k].source, edges[k].target}
    }
  }

  type Registrations = map<int, Registration>

  /** Slots 1 .. n, all filled. */
  ghost predicate AllSlots(n: nat, registrations: Registrations) {
    forall slot :: 1 <= slot <= n ==> slot in registrations
  }

  function IndexOf(nodes: seq<NodeId>, id: NodeId): (i: nat)
    requires id in nodes
    ensures i < |nodes| && nodes[i] == id
  {
    if nodes[0] == id then 0 else 1 + IndexOf(nodes[1..], id)
  }

  lemma IndexUnique(t: Topology, i: nat)
    requires t.Valid() && i < |t.nodes|
    ensures IndexOf(t.nodes, t.nodes[i]) == i
  {
    var j := IndexOf(t.nodes, t.nodes[i]);
    assert t.DifferentNodes(i, j) && t.DifferentNodes(j, i);
  }

  ghost predicate Buildable(t: Topology, registrations: Registrations) {
    t.Valid() && AllSlots(|t.nodes|, registrations)
  }

  /** What a node is told about the other end of one of its edges. */
  ghost function EntryFor(t: Topology, registrations: Registrations, id: NodeId, network: EdgeNetwork): Neighbor
    requires Buildable(t, registrations) && id in t.nodes
  {
    var index := IndexOf(t.nodes, id);
    Neighbor(id, index, registrations[index + 1].peerID, registrations[index + 1].address, network)
  }

  /** The entries of one node, edge by edge. */
  ghost function Entries(t: Topology, registrations: Registrations, id: NodeId, k: nat): seq<Neighbor>
    requires Buildable(t, registrations) && k <= |t.edges|
  {
    if k == 0 then []
    else
      var e := t.edges[k - 1];
      Entries(t, registrations, id, k - 1) +
      if e.source == id then [EntryFor(t, registrations, e.target, e.network)]
      else if e.target == id then [EntryFor(t, registrations, e.source, e.network)]
      else []
  }

  ghost predicate IndexOrder(s: seq<Neighbor>, i: int, j: int) {
    0 <= i < j < |s| ==> s[i].index < s[j].index
  }

  ghost predicate ByIndex(s: seq<Neighbor>) {
    forall i, j {:trigger IndexOrder(s, i, j)} :: IndexOrder(s, i, j)
  }

  ghost predicate IndexesDiffer(s: seq<Neighbor>, i: int, j: int) {
    0 <= i < j < |s| ==> s[i].index != s[j].index
  }

  ghost predicate AllDiffer(s: seq<Neighbor>) {
    forall i, j {:trigger IndexesDiffer(s, i, j)} :: IndexesDiffer(s, i, j)
  }

  function InsertByIndex(x: Neighbor, s: seq<Neighbor>): seq<Neighbor> {
    if s == [] then [x]
    else if x.index < s[0].index then [x] + s
    else [s[0]] + InsertByIndex(x, s[1..])
  }

  lemma {:induction false} InsertMembers(x: Neighbor, s: seq<Neighbor>)
    ensures multiset(InsertByIndex(x, s)) == multiset(s) + multiset{x}
  {
    if s != [] {
      assert s == [s[0]] + s[1..];
      if x.index >= s[0].index {
        InsertMembers(x, s[1..]);
      }
    }
  }

  lemma {:induction false} InsertKeepsIndexOrder(x: Neighbor, s: seq<Neighbor>)
    requires ByIndex(s) && forall y :: y in s ==> y.index != x.index
    ensures ByIndex(InsertByIndex(x, s))
  {
    if s == [] {
    } else if x.index < s[0].index {
      forall i, j ensures IndexOrder([x] + s, i, j) {
        assert IndexOrder(s, i - 1, j - 1) && IndexOrder(s, 0, j - 1);
      }
    } else {
      var tail := s[1..];
      assert s[0] in s;
      forall i, j ensures IndexOrder(tail, i, j) {
        assert IndexOrder(s, i + 1, j + 1);
      }
      InsertKeepsIndexOrder(x, tail);
      var rest := InsertByIndex(x, tail);
      forall i, j ensures IndexOrder([s[0]] + rest, i, j) {
        assert IndexOrder(rest, i - 1, j - 1);
        if 0 == i < j < |rest| + 1 {
          InsertedMember(x, tail, j - 1);
          if rest[j - 1] != x {
            var k :| 0 <= k < |tail| && tail[k] == rest[j - 1];
            assert IndexOrder(s, 0, k + 1);
          }
        }
      }
    }
  }

  lemma InsertedMember(x: Neighbor, s: seq<Neighbor>, j: nat)
    requires j < |InsertByIndex(x, s)|
    ensures InsertByIndex(x, s)[j] == x || InsertByIndex(x, s)[j] in s
  {
    var r := InsertByIndex(x, s);
    InsertMembers(x, s);
    assert r[j] in multiset(r);
    assert r[j] in multiset(s) + multiset{x};
  }

  function SortByIndex(s: seq<Neighbor>): seq<Neighbor> {
    if s == [] then [] else InsertByIndex(s[|s| - 1], SortByIndex(s[..|s| - 1]))
  }

  lemma {:induction false} SortMembers(s: seq<Neighbor>)
    ensures multiset(SortByIndex(s)) == multiset(s)
  {
    if s != [] {
      assert s == s[..|s| - 1] + [s[|s| - 1]];
      SortMembers(s[..|s| - 1]);
      InsertMembers(s[|s| - 1], SortByIndex(s[..|s| - 1]));
    }
  }

  /** Entries of different nodes come out strictly ascending. */
  lemma {:induction false} SortedByIndex(s: seq<Neighbor>)
    requires AllDiffer(s)
    ensures ByIndex(SortByIndex(s))
  {
    if s != [] {
      var front, last := s[..|s| - 1], s[|s| - 1];
      forall i, j ensures IndexesDiffer(front, i, j) {
        assert IndexesDiffer(s, i, j);
      }
      SortedByIndex(front);
      SortMembers(front);
      forall y | y in SortByIndex(front) ensures y.index != last.index {
        assert y in multiset(SortByIndex(front));
        var i :| 0 <= i < |front| && front[i] == y;
        assert IndexesDiffer(s, i, |s| - 1);
      }
      InsertKeepsIndexOrder(last, SortByIndex(front));
    }
  }

  ghost function ConfigOf(t: Topology, registrations: Registrations, i: nat): NodeConfig
    requires Buildable(t, registrations) && i < |t.nodes|
  {
    NodeConfig(t.nodes[i], i, SortByIndex(Entries(t, registrations, t.nodes[i], |t.edges|)))
  }

  /** Edge k joins the nodes at two positions, in either direction. */
  ghost predicate Joins(t: Topology, k: int, u: nat, v: nat) {
    && 0 <= k < |t.edges| && u < |t.nodes| && v < |t.nodes|
    && ((t.edges[k].source == t.nodes[u] && t.edges[k].target == t.nodes[v])
        || (t.edges[k].source == t.nodes[v] && t.edges[k].target == t.nodes[u]))
  }

  /** Edge k gives node u the entry e. */
  ghost predicate Entered(t: Topology, registrations: Registrations, u: nat, k: int, e: Neighbor)
    requires Buildable(t, registrations)
  {
    Joins(t, k, u, e.index) && e == EntryFor(t, registrations, t.nodes[e.index], t.edges[k].network)
  }

  /** One of the first k edges gives node u the entry e. */
  ghost predicate EnteredBefore(t: Topology, registrations: Registrations, u: nat, k: int, e: Neighbor)
    requires Buildable(t, registrations)
  {
    exists j :: 0 <= j < k && Entered(t, registrations, u, j, e)
  }

  lemma EnteredBeforeNext(t: Topology, registrations: Registrations, u: nat, k: nat, e: Neighbor)
    requires Buildable(t, registrations)
    ensures EnteredBefore(t, registrations, u, k + 1, e) <==>
      EnteredBefore(t, registrations, u, k, e) || Entered(t, registrations, u, k, e)
  {}

  lemma {:induction false} EntriesMember(t: Topology, registrations: Registrations, u: nat, k: nat, e: Neighbor)
    requires Buildable(t, registrations) && k <= |t.edges| && u < |t.nodes|
    ensures e in Entries(t, registrations, t.nodes[u], k) <==> EnteredBefore(t, registrations, u, k, e)
  {
    if k > 0 {
      EntriesMember(t, registrations, u, k - 1, e);
      EntryMember(t, registrations, u, k - 1, e);
      EnteredBeforeNext(t, registrations, u, k - 1, e);
    }
  }

  lemma EntryMember(t: Topology, registrations: Registrations, u: nat, k: nat, e: Neighbor)
    requires Buildable(t, registrations) && k < |t.edges| && u < |t.nodes|
    ensures e in Entries(t, registrations, t.nodes[u], k + 1) <==>
      e in Entries(t, registrations, t.nodes[u], k) || Entered(t, registrations, u, k, e)
  {
    EntriesNext(t, registrations, t.nodes[u], k);
  }

  /** Two edges join no two nodes twice. */
  lemma JoinsUnique(t: Topology, j: int, k: int, u: nat, v: nat)
    requires t.Valid() && Joins(t, j, u, v) && Joins(t, k, u, v)
    ensures j == k && u != v
  {
    assert t.DifferentPairs(j, k) && t.DifferentPairs(k, j);
  }

  /** A configured neighbour is the other end of an edge, with its registered identity and the edge's network. */
  lemma ConfigLists(t: Topology, registrations: Registrations, u: nat, e: Neighbor)
    requires Buildable(t, registrations) && u < |t.nodes|
    ensures e in ConfigOf(t, registrations, u).neighbors <==> exists k :: Entered(t, registrations, u, k, e)
  {
    var entries := Entries(t, registrations, t.nodes[u], |t.edges|);
    SortMembers(entries);
    assert e in SortByIndex(entries) <==> e in multiset(SortByIndex(entries));
    assert e in entries <==> e in multiset(entries);
    EntriesMember(t, registrations, u, |t.edges|, e);
  }

  /** The identity another node is told about v. */
  ghost predicate Presents(e: Neighbor, t: Topology, registrations: Registrations, v: nat)
    requires Buildable(t, registrations)
  {
    && v < |t.nodes|
    && e.nodeID == t.nodes[v] && e.index == v
    && e.peerID == registrations[v + 1].peerID && e.address == registrations[v + 1].address
  }

  /**
   * Mutual: whoever u lists is presented under its frozen registration, and lists u in return,
   * under u's frozen registration and with the same network.
   */
  lemma ConfigsAreMutual(t: Topology, registrations: Registrations, u: nat, e: Neighbor) returns (f: Neighbor)
    requires Buildable(t, registrations) && u < |t.nodes| && e in ConfigOf(t, registrations, u).neighbors
    ensures Presents(e, t, registrations, e.index) && e.index != u && e.index < |t.nodes|
    ensures f in ConfigOf(t, registrations, e.index).neighbors
    ensures Presents(f, t, registrations, u) && f.network == e.network
  {
    ConfigLists(t, registrations, u, e);
    var k :| Entered(t, registrations, u, k, e);
    f := EntryFor(t, registrations, t.nodes[u], t.edges[k].network);
    IndexUnique(t, u);
    assert Entered(t, registrations, e.index, k, f);
    ConfigLists(t, registrations, e.index, f);
  }

  /** Entries of different edges point to different nodes. */
  lemma EntriesApart(t: Topology, registrations: Registrations, u: nat, k: nat, e: Neighbor, f: Neighbor)
    requires Buildable(t, registrations) && u < |t.nodes| && k < |t.edges|
    requires e in Entries(t, registrations, t.nodes[u], k) && Entered(t, registrations, u, k, f)
    ensures e.index != f.index
  {
    EntriesMember(t, registrations, u, k, e);
    var j :| 0 <= j < k && Entered(t, registrations, u, j, e);
    if e.index == f.index {
      JoinsUnique(t, j, k, u, f.index);
    }
  }

  lemma {:induction false} EntriesDiffer(t: Topology, registrations: Registrations, u: nat, k: nat)
    requires Buildable(t, registrations) && k <= |t.edges| && u < |t.nodes|
    ensures AllDiffer(Entries(t, registrations, t.nodes[u], k))
  {
    if k > 0 {
      var before := Entries(t, registrations, t.nodes[u], k - 1);
      var all := Entries(t, registrations, t.nodes[u], k);
      EntriesDiffer(t, registrations, u, k - 1);
      forall i, j ensures IndexesDiffer(all, i, j) {
        assert IndexesDiffer(before, i, j);
        if 0 <= i < j < |all| && j >= |before| {
          assert before[i] in before;
          EntriesApart(t, registrations, u, k - 1, before[i], all[j]);
        }
      }
    }
  }

  /** Every node's neighbour list is strictly sorted by node index. */
  lemma ConfigsAreSorted(t: Topology, registrations: Registrations, u: nat)
    requires Buildable(t, registrations) && u < |t.nodes|
    ensures ByIndex(ConfigOf(t, registrations, u).neighbors)
  {
    EntriesDiffer(t, registrations, u, |t.edges|);
    SortedByIndex(Entries(t, registrations, t.nodes[u], |t.edges|));
  }

  /** The neighbour table: an id without an entry stands for the empty list. */
  function Listed(neighbors: map<NodeId, seq<Neighbor>>, id: NodeId): seq<Neighbor> {
    if id in neighbors then neighbors[id] else []
  }

  ghost predicate ListedUpTo(t: Topology, registrations: Registrations, neighbors: map<NodeId, seq<Neighbor>>, k: nat) {
    && Buildable(t, registrations) && k <= |t.edges|
    && forall id :: id in t.nodes ==> Listed(neighbors, id) == Entries(t, registrations, id, k)
  }

  /** The registrations and indexes by node id. */
  ghost predicate Directory(t: Topology, registrations: Registrations, byNode: map<NodeId, Registration>,
                            indexByNode: map<NodeId, nat>) {
    && Buildable(t, registrations)
    && forall id :: id in t.nodes ==>
         && id in byNode && id in indexByNode
         && indexByNode[id] == IndexOf(t.nodes, id)
         && byNode[id] == registrations[IndexOf(t.nodes, id) + 1]
  }

  function Append(neighbors: map<NodeId, seq<Neighbor>>, id: NodeId, entry: Neighbor): map<NodeId, seq<Neighbor>> {
    neighbors[id := Listed(neighbors, id) + [entry]]
  }

  lemma ListedNext(t: Topology, registrations: Registrations, neighbors: map<NodeId, seq<Neighbor>>, k: nat,
                   toTarget: Neighbor, toSource: Neighbor)
    requires ListedUpTo(t, registrations, neighbors, k) && k < |t.edges|
    requires toTarget == EntryFor(t, registrations, t.edges[k].target, t.edges[k].network)
    requires toSource == EntryFor(t, registrations, t.edges[k].source, t.edges[k].network)
    ensures
      var next := Append(Append(neighbors, t.edges[k].source, toTarget), t.edges[k].target, toSource);
      ListedUpTo(t, registrations, next, k + 1)
  {
    var edge := t.edges[k];
    var next := Append(Append(neighbors, edge.source, toTarget), edge.target, toSource);
    forall id | id in t.nodes ensures Listed(next, id) == Entries(t, registrations, id, k + 1) {
      assert Listed(neighbors, id) == Entries(t, registrations, id, k);
      AppendBoth(neighbors, edge.source, toTarget, edge.target, toSource, id);
      EntriesNext(t, registrations, id, k);
    }
  }

  lemma AppendBoth(neighbors: map<NodeId, seq<Neighbor>>, a: NodeId, x: Neighbor, b: NodeId, y: Neighbor, id: NodeId)
    requires a != b
    ensures Listed(Append(Append(neighbors, a, x), b, y), id)
         == Listed(neighbors, id) + if id == a then [x] else if id == b then [y] else []
  {}

  lemma EntriesNext(t: Topology, registrations: Registrations, id: NodeId, k: nat)
    requires Buildable(t, registrations) && k < |t.edges|
    ensures
      var e := t.edges[k];
      Entries(t, registrations, id, k + 1) == Entries(t, registrations, id, k) +
      if id == e.source then [EntryFor(t, registrations, e.target, e.network)]
      else if id == e.target then [EntryFor(t, registrations, e.source, e.network)]
      else []
  {}

  /** What the tables say about the ends of an edge. */
  lemma DirectoryEntries(t: Topology, registrations: Registrations, byNode: map<NodeId, Registration>,
                         indexByNode: map<NodeId, nat>, k: nat)
    requires Directory(t, registrations, byNode, indexByNode) && k < |t.edges|
    ensures
      var e := t.edges[k];
      && e.source in byNode && e.source in indexByNode && e.target in byNode && e.target in indexByNode
      && EntryFor(t, registrations, e.target, e.network)
         == Neighbor(e.target, indexByNode[e.target], byNode[e.target].peerID, byNode[e.target].address, e.network)
      && EntryFor(t, registrations, e.source, e.network)
         == Neighbor(e.source, indexByNode[e.source], byNode[e.source].peerID, byNode[e.source].address, e.network)
  {
    assert t.edges[k].source in t.nodes && t.edges[k].target in t.nodes;
  }

  /** Both ends of every edge learn about each other. */
  method BuildNeighbors(t: Topology, ghost registrations: Registrations,
                        byNode: map<NodeId, Registration>, indexByNode: map<NodeId, nat>)
    returns (neighbors: map<NodeId, seq<Neighbor>>)
    requires Directory(t, registrations, byNode, indexByNode)
    ensures ListedUpTo(t, registrations, neighbors, |t.edges|)
  {
    neighbors := map[];
    var k := 0;
    while k < |t.edges|
      invariant 0 <= k <= |t.edges| && ListedUpTo(t, registrations, neighbors, k)
    {
      var edge := t.edges[k];
      DirectoryEntries(t, registrations, byNode, indexByNode, k);
      var source, target := byNode[edge.source], byNode[edge.target];
      var toTarget := Neighbor(edge.target, indexByNode[edge.target], target.peerID, target.address, edge.network);
      var toSource := Neighbor(edge.source, indexByNode[edge.source], source.peerID, source.address, edge.network);
      ListedNext(t, registrations, neighbors, k, toTarget, toSource);
      neighbors := Append(neighbors, edge.source, toTarget);
      neighbors := Append(neighbors, edge.target, toSource);
      k := k + 1;
    }
  }
}
