/** Simple undirected graphs given by neighbour lists over the nodes 0 .. n-1. */
module Graph {
  import opened Wire

  type Neighbors = seq<seq<Node>>

  ghost predicate Adjacent(g: Neighbors, u: Node, v: Node) {
    u < |g| && v in g[u]
  }

  /** Every neighbour list is free of repetitions, loops and foreign nodes, and adjacency is mutual. */
  ghost predicate Simple(g: Neighbors) {
    forall u: Node :: u < |g| ==>
      && (forall i, j :: 0 <= i < j < |g[u]| ==> g[u][i] != g[u][j])
      && (forall v :: v in g[u] ==> v < |g| && v != u && u in g[v])
  }

  ghost predicate Path(g: Neighbors, p: seq<Node>) {
    && p != []
    && (forall i :: 0 <= i < |p| ==> p[i] < |g|)
    && forall i :: 0 <= i < |p| - 1 ==> Adjacent(g, p[i], p[i + 1])
  }

  ghost predicate Connected(g: Neighbors, u: Node, v: Node) {
    exists p :: Path(g, p) && p[0] == u && p[|p| - 1] == v
  }

  lemma ConnectedStep(g: Neighbors, u: Node, v: Node, w: Node)
    requires Connected(g, u, v) && Adjacent(g, v, w) && w < |g|
    ensures Connected(g, u, w)
  {
    var p :| Path(g, p) && p[0] == u && p[|p| - 1] == v;
    assert Path(g, p + [w]);
  }

  /** A set that holds u and is closed under adjacency holds everything connected to u. */
  lemma {:induction false} ClosedHoldsPath(g: Neighbors, s: set<Node>, p: seq<Node>)
    requires Path(g, p) && p[0] in s
    requires forall u, v :: u in s && Adjacent(g, u, v) ==> v in s
    ensures p[|p| - 1] in s
  {
    if |p| > 1 {
      assert Adjacent(g, p[0], p[1]);
      forall i | 0 <= i < |p[1..]| - 1 ensures Adjacent(g, p[1..][i], p[1..][i + 1]) {
        assert Adjacent(g, p[i + 1], p[i + 2]);
      }
      ClosedHoldsPath(g, s, p[1..]);
    }
  }
}
