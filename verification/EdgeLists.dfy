/** The edge list and the adjacency maps that the topology generators keep side by side. */
module EdgeLists {
  import opened Sums
  import opened Wrappers

  /** An edge with the delay baseline that some generators attach to it. */
  datatype Edge = Edge(a: nat, b: nat, baseline: Option<real>) {
    function Pair(): (nat, nat) {
      (a, b)
    }
  }

  function Canonicalize(e: Edge): (r: Edge)
    ensures r.a <= r.b && r.baseline == e.baseline && {r.a, r.b} == {e.a, e.b}
  {
    if e.a <= e.b then e else Edge(e.b, e.a, e.baseline)
  }

  /** The unordered pair of two nodes, the smaller first. */
  function Key(a: nat, b: nat): (nat, nat) {
    if a <= b then (a, b) else (b, a)
  }

  ghost function Pairs(edges: seq<Edge>): set<(nat, nat)> {
    set e | e in edges :: e.Pair()
  }

  ghost predicate Differ(edges: seq<Edge>, i: int, j: int) {
    0 <= i < j < |edges| ==> edges[i].Pair() != edges[j].Pair()
  }

  /** No pair twice. */
  ghost predicate NoRepeats(edges: seq<Edge>) {
    forall i, j {:trigger Differ(edges, i, j)} :: Differ(edges, i, j)
  }

  ghost predicate AllPlain(edges: seq<Edge>) {
    forall e :: e in edges ==> e.baseline.None?
  }

  /** Simple graph over 0 .. n-1: canonical edges in range, no loops, no pair twice. */
  ghost predicate SimpleEdges(n: nat, edges: seq<Edge>) {
    && (forall e :: e in edges ==> e.a < e.b < n)
    && NoRepeats(edges)
  }

  ghost predicate Adjoins(adjacency: seq<set<nat>>, a: nat, b: nat) {
    a < |adjacency| && b in adjacency[a]
  }

  /** The adjacency maps and the edge list describe one graph. */
  ghost predicate Agree(edges: seq<Edge>, adjacency: seq<set<nat>>) {
    forall a: nat, b: nat :: a < |adjacency| && b < |adjacency| ==>
      (b in adjacency[a] <==> Key(a, b) in Pairs(edges))
  }

  ghost predicate Consistent(n: nat, edges: seq<Edge>, adjacency: seq<set<nat>>) {
    && |adjacency| == n
    && SimpleEdges(n, edges)
    && (forall a: nat, b: nat :: Adjoins(adjacency, a, b) ==> b < n && a != b)
    && Agree(edges, adjacency)
  }

  /** The nodes that an edge list joins to v. */
  ghost function NeighborsOf(n: nat, edges: seq<Edge>, v: nat): set<nat> {
    set u: nat | u < n && Key(v, u) in Pairs(edges)
  }

  ghost function Degree(n: nat, edges: seq<Edge>, v: nat): nat {
    |NeighborsOf(n, edges, v)|
  }

  lemma AdjacencyIsNeighbors(n: nat, edges: seq<Edge>, adjacency: seq<set<nat>>, v: nat)
    requires Consistent(n, edges, adjacency) && v < n
    ensures adjacency[v] == NeighborsOf(n, edges, v)
  {
    forall u: nat | u in adjacency[v] ensures u in NeighborsOf(n, edges, v) {
      assert Adjoins(adjacency, v, u);
    }
  }

  lemma NoRepeatsAppend(edges: seq<Edge>, e: Edge)
    requires NoRepeats(edges) && e.Pair() !in Pairs(edges)
    ensures NoRepeats(edges + [e])
  {
    forall i, j ensures Differ(edges + [e], i, j) {
      assert Differ(edges, i, j);
      assert 0 <= i < |edges| ==> edges[i] in edges;
    }
  }

  lemma PairsAppend(edges: seq<Edge>, e: Edge)
    ensures Pairs(edges + [e]) == Pairs(edges) + {e.Pair()}
  {
    forall p ensures p in Pairs(edges + [e]) <==> p in Pairs(edges) + {e.Pair()} {
      if p in Pairs(edges) {
        var x :| x in edges && x.Pair() == p;
        assert x in edges + [e];
      }
      if p == e.Pair() {
        assert e in edges + [e];
      }
    }
  }

  ghost function Itself(): nat -> nat {
    (x: nat) => x
  }

  /** Each degree is the size of its adjacency map, and together they are twice the edges. */
  ghost predicate DegreesMatch(edges: seq<Edge>, adjacency: seq<set<nat>>, degrees: seq<nat>) {
    && |degrees| == |adjacency|
    && (forall v: nat :: v < |degrees| ==> degrees[v] == |adjacency[v]|)
    && SumBy(degrees, Itself()) == 2 * |edges|
  }

  /** The fields that the helpers for generated edges update. */
  class Builder {
    const n: nat
    var edges: seq<Edge>
    var adjacency: seq<set<nat>>
    var degrees: seq<nat>

    ghost predicate Valid()
      reads this
    {
      Consistent(n, edges, adjacency) && |degrees| == n
    }

    /** Edge list, adjacency maps and degree array all tell the same story. */
    ghost predicate Counted()
      reads this
    {
      Valid() && DegreesMatch(edges, adjacency, degrees)
    }

    constructor (n: nat)
      ensures this.n == n && Valid() && edges == []
      ensures adjacency == seq(n, _ => {}) && degrees == seq(n, _ => 0)
      ensures Counted()
    {
      ghost var zeros: seq<nat> := seq(n, _ => 0);
      SumByZero(zeros, Itself());
      this.n := n;
      edges := [];
      adjacency := seq(n, _ => {});
      degrees := seq(n, _ => 0);
    }

    /** The map insertions shared by the three helpers that add an edge. */
    method Insert(edge: Edge, a: nat, b: nat)
      requires a < |adjacency| && b < |adjacency|
      modifies this`edges, this`adjacency
      ensures edges == old(edges) + [edge]
      ensures adjacency == Joined(old(adjacency), a, b)
    {
      edges := edges + [edge];
      adjacency := adjacency[a := adjacency[a] + {b}];
      adjacency := adjacency[b := adjacency[b] + {a}];
    }

    /** addSimpleGeneratedEdge: an existing pair and a loop change nothing. */
    method AddSimple(a: nat, b: nat)
      requires Valid() && a < n && b < n
      modifies this`edges, this`adjacency
      ensures Valid()
      ensures old(b in adjacency[a]) || a == b ==> edges == old(edges) && adjacency == old(adjacency)
      ensures !old(b in adjacency[a]) && a != b ==>
        && edges == old(edges) + [Plain(a, b)]
        && adjacency == Joined(old(adjacency), a, b)
        && Pairs(edges) == Pairs(old(edges)) + {Key(a, b)}
    {
      if b in adjacency[a] || a == b {
        return;
      }
      JoinKeepsConsistent(n, edges, adjacency, Plain(a, b), a, b);
      Insert(Plain(a, b), a, b);
    }

    /** addGeneratedEdge and addGeneratedEdgeWithDelay, told apart by the baseline. */
    method AddCounted(a: nat, b: nat, baseline: Option<real>)
      requires Valid() && a < n && b < n && a != b
      modifies this
      ensures Valid()
      ensures old(b in adjacency[a]) ==> edges == old(edges) && adjacency == old(adjacency) && degrees == old(degrees)
      ensures !old(b in adjacency[a]) ==>
        && edges == old(edges) + [Canonicalize(Edge(a, b, baseline))]
        && adjacency == Joined(old(adjacency), a, b)
        && Pairs(edges) == Pairs(old(edges)) + {Key(a, b)}
        && degrees == old(degrees)[a := old(degrees)[a] + 1][b := old(degrees)[b] + 1]
      ensures old(Counted()) ==> Counted()
    {
      if b in adjacency[a] {
        return;
      }
      JoinKeepsConsistent(n, edges, adjacency, Canonicalize(Edge(a, b, baseline)), a, b);
      JoinKeepsDegrees(n, edges, adjacency, degrees, Canonicalize(Edge(a, b, baseline)), a, b);
      Insert(Canonicalize(Edge(a, b, baseline)), a, b);
      degrees := degrees[a := degrees[a] + 1];
      degrees := degrees[b := degrees[b] + 1];
    }

    /** removeSimpleGeneratedEdge: the last edge takes the place of the removed one. */
    method RemoveSimple(a: nat, b: nat)
      requires Valid() && a < n && b < n
      modifies this`edges, this`adjacency
      ensures adjacency == Parted(old(adjacency), a, b)
      ensures Plain(a, b) !in old(edges) ==> edges == old(edges)
      ensures Plain(a, b) in old(edges) ==>
        && Valid()
        && |edges| == |old(edges)| - 1
        && (forall e :: e in edges <==> e in old(edges) && e != Plain(a, b))
        && Pairs(edges) == Pairs(old(edges)) - {Key(a, b)}
    {
      var canonical := Plain(a, b);
      ghost var before := edges;
      var i := 0;
      while i < |edges|
        invariant 0 <= i <= |edges|
        invariant edges == before
        invariant forall k :: 0 <= k < i ==> edges[k] != canonical
      {
        if edges[i] == canonical {
          edges := edges[i := edges[|edges| - 1]];
          edges := edges[..|edges| - 1];
          break;
        }
        i := i + 1;
      }
      if i < |before| {
        assert edges == SwapDelete(before, i);
        RemovalKeepsConsistent(n, before, adjacency, i, a, b);
      }
      adjacency := adjacency[a := adjacency[a] - {b}];
      adjacency := adjacency[b := adjacency[b] - {a}];
    }
  }

  /** The canonical edge between two nodes, without a baseline. */
  function Plain(a: nat, b: nat): (r: Edge)
    ensures r.Pair() == Key(a, b) && r.baseline.None?
  {
    Canonicalize(Edge(a, b, None))
  }

  function Joined(adjacency: seq<set<nat>>, a: nat, b: nat): seq<set<nat>>
    requires a < |adjacency| && b < |adjacency|
  {
    var one := adjacency[a := adjacency[a] + {b}];
    one[b := one[b] + {a}]
  }

  function Parted(adjacency: seq<set<nat>>, a: nat, b: nat): seq<set<nat>>
    requires a < |adjacency| && b < |adjacency|
  {
    var one := adjacency[a := adjacency[a] - {b}];
    one[b := one[b] - {a}]
  }

  lemma JoinKeepsConsistent(n: nat, edges: seq<Edge>, adjacency: seq<set<nat>>, e: Edge, a: nat, b: nat)
    requires Consistent(n, edges, adjacency) && a < n && b < n && a != b && b !in adjacency[a]
    requires e.Pair() == Key(a, b)
    ensures Consistent(n, edges + [e], Joined(adjacency, a, b))
    ensures Pairs(edges + [e]) == Pairs(edges) + {Key(a, b)}
  {
    PairsAppend(edges, e);
    var edges', adjacency' := edges + [e], Joined(adjacency, a, b);
    assert e.Pair() !in Pairs(edges);
    NoRepeatsAppend(edges, e);
    forall x: nat, y: nat | x < n && y < n ensures y in adjacency'[x] <==> Key(x, y) in Pairs(edges') {
      assert y in adjacency[x] <==> Key(x, y) in Pairs(edges);
    }
    forall x: nat, y: nat | Adjoins(adjacency', x, y) ensures y < n && x != y {
      assert y in adjacency[x] ==> Adjoins(adjacency, x, y);
    }
  }

  lemma TwoMore(degrees: seq<nat>, a: nat, b: nat)
    requires a < |degrees| && b < |degrees| && a != b
    ensures SumBy(degrees[a := degrees[a] + 1][b := degrees[b] + 1], Itself()) == SumBy(degrees, Itself()) + 2
  {
    var one := degrees[a := degrees[a] + 1];
    SumByUpdate(degrees, a, degrees[a] + 1, Itself());
    SumByUpdate(one, b, degrees[b] + 1, Itself());
  }

  lemma JoinKeepsDegrees(n: nat, edges: seq<Edge>, adjacency: seq<set<nat>>, degrees: seq<nat>, e: Edge, a: nat, b: nat)
    requires Consistent(n, edges, adjacency) && |degrees| == n && a < n && b < n && a != b && b !in adjacency[a]
    ensures
      var degrees' := degrees[a := degrees[a] + 1][b := degrees[b] + 1];
      DegreesMatch(edges, adjacency, degrees) ==> DegreesMatch(edges + [e], Joined(adjacency, a, b), degrees')
  {
    assert Key(a, b) == Key(b, a);
    JoinedSizes(adjacency, a, b);
    TwoMore(degrees, a, b);
  }

  lemma JoinedSizes(adjacency: seq<set<nat>>, a: nat, b: nat)
    requires a < |adjacency| && b < |adjacency| && a != b && b !in adjacency[a] && a !in adjacency[b]
    ensures forall v: nat :: v < |adjacency| ==>
      |Joined(adjacency, a, b)[v]| == |adjacency[v]| + if v == a || v == b then 1 else 0
  {}

  /** The sequence left when the last element takes the place of element i. */
  function SwapDelete(edges: seq<Edge>, i: nat): (r: seq<Edge>)
    requires i < |edges|
    ensures |r| == |edges| - 1
    ensures forall k :: 0 <= k < |r| ==> r[k] == if k == i then edges[|edges| - 1] else edges[k]
  {
    edges[i := edges[|edges| - 1]][..|edges| - 1]
  }

  lemma SwapDeleteMembers(edges: seq<Edge>, i: nat, e: Edge)
    requires i < |edges| && NoRepeats(edges)
    ensures e in SwapDelete(edges, i) <==> e in edges && e != edges[i]
  {
    var rest, last := SwapDelete(edges, i), |edges| - 1;
    if e in rest {
      var k :| 0 <= k < |rest| && rest[k] == e;
      assert e == edges[if k == i then last else k];
      assert Differ(edges, i, last) && Differ(edges, i, k) && Differ(edges, k, i);
    }
    if e in edges && e != edges[i] {
      var k :| 0 <= k < |edges| && edges[k] == e;
      assert rest[if k == last then i else k] == e;
    }
  }

  lemma SwapDeleteDistinct(edges: seq<Edge>, i: nat)
    requires i < |edges| && NoRepeats(edges)
    ensures NoRepeats(SwapDelete(edges, i))
  {
    var last := |edges| - 1;
    forall j, k ensures Differ(SwapDelete(edges, i), j, k) {
      assert Differ(edges, j, k) && Differ(edges, j, last) && Differ(edges, k, last);
    }
  }

  lemma SwapDeletePairs(edges: seq<Edge>, i: nat)
    requires i < |edges| && NoRepeats(edges)
    ensures Pairs(SwapDelete(edges, i)) == Pairs(edges) - {edges[i].Pair()}
  {
    var rest := SwapDelete(edges, i);
    forall p ensures p in Pairs(rest) <==> p in Pairs(edges) - {edges[i].Pair()} {
      if p in Pairs(rest) {
        var e :| e in rest && e.Pair() == p;
        SwapDeleteMembers(edges, i, e);
        SamePairSameEdge(edges, e, edges[i]);
      }
      if p in Pairs(edges) && p != edges[i].Pair() {
        var e :| e in edges && e.Pair() == p;
        SwapDeleteMembers(edges, i, e);
      }
    }
  }

  lemma SamePairSameEdge(edges: seq<Edge>, e: Edge, f: Edge)
    requires NoRepeats(edges) && e in edges && f in edges
    ensures e.Pair() == f.Pair() ==> e == f
  {
    var i :| 0 <= i < |edges| && edges[i] == e;
    var j :| 0 <= j < |edges| && edges[j] == f;
    assert Differ(edges, i, j) && Differ(edges, j, i);
  }

  lemma RemovalKeepsConsistent(n: nat, edges: seq<Edge>, adjacency: seq<set<nat>>, i: nat, a: nat, b: nat)
    requires Consistent(n, edges, adjacency) && a < n && b < n
    requires i < |edges| && edges[i] == Plain(a, b)
    ensures Consistent(n, SwapDelete(edges, i), Parted(adjacency, a, b))
    ensures forall e :: e in SwapDelete(edges, i) <==> e in edges && e != Plain(a, b)
    ensures Pairs(SwapDelete(edges, i)) == Pairs(edges) - {Key(a, b)}
  {
    forall e ensures e in SwapDelete(edges, i) <==> e in edges && e != Plain(a, b) {
      SwapDeleteMembers(edges, i, e);
    }
    SwapDeletePairs(edges, i);
    SwapDeleteDistinct(edges, i);
    PartKeepsConsistent(n, edges, adjacency, SwapDelete(edges, i), a, b);
  }

  lemma PartKeepsConsistent(n: nat, edges: seq<Edge>, adjacency: seq<set<nat>>, rest: seq<Edge>, a: nat, b: nat)
    requires Consistent(n, edges, adjacency) && a < n && b < n
    requires Pairs(rest) == Pairs(edges) - {Key(a, b)} && NoRepeats(rest)
    requires forall e :: e in rest ==> e in edges
    ensures Consistent(n, rest, Parted(adjacency, a, b))
  {
    var adjacency' := Parted(adjacency, a, b);
    forall x: nat, y: nat | x < n && y < n ensures y in adjacency'[x] <==> Key(x, y) in Pairs(rest) {
      assert y in adjacency[x] <==> Key(x, y) in Pairs(edges);
    }
    forall x: nat, y: nat | Adjoins(adjacency', x, y) ensures y < n && x != y {
      assert Adjoins(adjacency, x, y);
    }
  }
}
