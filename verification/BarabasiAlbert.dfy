/** Barabasi-Albert generation: every new node joins m earlier ones, drawn in proportion to their degree. */
module BarabasiAlbert {
  import opened EdgeLists
  import opened EdgePaths
  import opened Growth
  import opened Random
  import opened Sequences
  import opened Wrappers

  /** Rejecting stands for the loop that draws until it meets a node outside the excluded set. */
  datatype Choice = Picked(node: nat) | Rejecting | Panicked

  /** The weight of the first i nodes, the excluded ones left out. */
  ghost function Weight(degrees: seq<nat>, excluded: set<nat>, i: nat): nat
    requires i <= |degrees|
  {
    if i == 0 then 0
    else Weight(degrees, excluded, i - 1) + if i - 1 in excluded then 0 else degrees[i - 1]
  }

  lemma {:induction false} WeightMonotone(degrees: seq<nat>, excluded: set<nat>, i: nat, j: nat)
    requires i <= j <= |degrees|
    ensures Weight(degrees, excluded, i) <= Weight(degrees, excluded, j)
  {
    if i < j {
      WeightMonotone(degrees, excluded, i, j - 1);
    }
  }

  /** Node v answers for the draws in its own stretch of the total, which is as long as its degree. */
  ghost predicate Stretch(degrees: seq<nat>, excluded: set<nat>, v: nat, draw: nat) {
    && v < |degrees|
    && v !in excluded
    && Weight(degrees, excluded, v) <= draw < Weight(degrees, excluded, v) + degrees[v]
  }

  /** The stretches are disjoint, so a draw decides the node. */
  lemma StretchUnique(degrees: seq<nat>, excluded: set<nat>, v: nat, w: nat, draw: nat)
    requires Stretch(degrees, excluded, v, draw) && Stretch(degrees, excluded, w, draw)
    ensures v == w
  {
    if v < w {
      WeightMonotone(degrees, excluded, v + 1, w);
    } else if w < v {
      WeightMonotone(degrees, excluded, w + 1, v);
    }
  }

  /** The choice is degree-proportional, always a fresh node, and never the panic at the end. */
  method WeightedDegreeChoice(degrees: seq<nat>, excluded: set<nat>, rng: Rand)
    returns (choice: Choice, ghost draw: nat)
    ensures choice.Rejecting? <==> Weight(degrees, excluded, |degrees|) == 0
    ensures choice.Picked? ==>
      draw < Weight(degrees, excluded, |degrees|) && Stretch(degrees, excluded, choice.node, draw)
    ensures !choice.Panicked?
  {
    var total := 0;
    var node := 0;
    while node < |degrees|
      invariant 0 <= node <= |degrees|
      invariant total == Weight(degrees, excluded, node)
    {
      if node !in excluded {
        total := total + degrees[node];
      }
      node := node + 1;
    }
    if total <= 0 {
      return Rejecting, 0;
    }
    var left := rng.Intn(total);
    draw := left;
    node := 0;
    while node < |degrees|
      invariant 0 <= node <= |degrees|
      invariant draw == Weight(degrees, excluded, node) + left
    {
      if node !in excluded {
        if left < degrees[node] {
          return Picked(node), draw;
        }
        left := left - degrees[node];
      }
      node := node + 1;
    }
    choice := Panicked;
  }

  /** An unexcluded node of positive degree is enough for the weighted draw. */
  lemma PositiveWeight(degrees: seq<nat>, excluded: set<nat>, v: nat)
    requires v < |degrees| && v !in excluded && degrees[v] > 0
    ensures Weight(degrees, excluded, |degrees|) > 0
  {
    WeightMonotone(degrees, excluded, v + 1, |degrees|);
  }

  /** One draw per target, in proportion to the degrees of the nodes not yet selected. */
  ghost predicate DegreeDrawn(degrees: seq<nat>, picks: seq<nat>, draws: seq<nat>) {
    && |picks| == |draws|
    && forall j: nat {:trigger picks[j]} :: j < |picks| ==> Stretch(degrees, Elements(picks[..j]), picks[j], draws[j])
  }

  lemma DegreeDrawnNext(degrees: seq<nat>, picks: seq<nat>, draws: seq<nat>, pick: nat, draw: nat)
    requires DegreeDrawn(degrees, picks, draws) && Stretch(degrees, Elements(picks), pick, draw)
    ensures DegreeDrawn(degrees, picks + [pick], draws + [draw])
    ensures Elements(picks + [pick]) == Elements(picks) + {pick}
  {
    var more := picks + [pick];
    forall j: nat | j < |more| ensures Stretch(degrees, Elements(more[..j]), more[j], (draws + [draw])[j]) {
      if j < |picks| {
        assert more[..j] == picks[..j] && more[j] == picks[j];
      } else {
        assert more[..j] == picks;
      }
    }
  }

  lemma {:induction false} DegreeDrawnUnique(degrees: seq<nat>, picks: seq<nat>, picks': seq<nat>, draws: seq<nat>,
                                             k: nat)
    requires DegreeDrawn(degrees, picks, draws) && DegreeDrawn(degrees, picks', draws) && k <= |draws|
    ensures picks[..k] == picks'[..k]
  {
    if k > 0 {
      DegreeDrawnUnique(degrees, picks, picks', draws, k - 1);
      StretchUnique(degrees, Elements(picks[..k - 1]), picks[k - 1], picks'[k - 1], draws[k - 1]);
      assert picks[..k] == picks[..k - 1] + [picks[k - 1]];
      assert picks'[..k] == picks'[..k - 1] + [picks'[k - 1]];
    }
  }

  method SelectTargets(b: Builder, m: nat, node: nat, rng: Rand)
    returns (selected: set<nat>, ghost picks: seq<nat>, ghost draws: seq<nat>)
    requires b.Counted() && m < node < b.n && forall v: nat :: v < node ==> b.degrees[v] > 0
    ensures |selected| == m && forall t :: t in selected ==> t < node
    ensures selected == Elements(picks) && |picks| == m && DegreeDrawn(b.degrees[..node], picks, draws)
  {
    selected, picks, draws := {}, [], [];
    while |selected| < m
      invariant |selected| == |picks| <= m && forall t :: t in selected ==> t < node
      invariant selected == Elements(picks) && DegreeDrawn(b.degrees[..node], picks, draws)
      decreases m - |selected|
    {
      var v := SomeoneLeft(selected, node);
      PositiveWeight(b.degrees[..node], selected, v);
      var choice, draw := WeightedDegreeChoice(b.degrees[..node], selected, rng);
      DegreeDrawnNext(b.degrees[..node], picks, draws, choice.node, draw);
      picks, draws := picks + [choice.node], draws + [draw];
      selected := selected + {choice.node};
    }
  }

  // The arrivals as a relation between the draws and the graphs

  datatype Arrival = Arrival(picks: seq<nat>, draws: seq<nat>)

  ghost function DegreesOf(adjacency: seq<set<nat>>, node: nat): (r: seq<nat>)
    requires node <= |adjacency|
    ensures |r| == node && forall v {:trigger r[v]} :: 0 <= v < node ==> r[v] == |adjacency[v]|
  {
    seq(node, v requires 0 <= v < node => |adjacency[v]|)
  }

  /** The node draws m targets by the degrees that the nodes before it have at that moment, and joins them. */
  ghost predicate Arrives(m: nat, node: nat, a: Arrival, before: seq<set<nat>>, after: seq<set<nat>>) {
    && node < |before| && |a.picks| == m
    && DegreeDrawn(DegreesOf(before, node), a.picks, a.draws)
    && Attached(after, before, node, Elements(a.picks))
  }

  ghost predicate ArrivesAt(m: nat, arrivals: seq<Arrival>, stages: seq<seq<set<nat>>>, k: int) {
    0 <= k < |arrivals| && k + 1 < |stages| ==> Arrives(m, m + 1 + k, arrivals[k], stages[k], stages[k + 1])
  }

  /** One arrival after the other. */
  ghost predicate Arrivals(m: nat, arrivals: seq<Arrival>, stages: seq<seq<set<nat>>>) {
    && |stages| == |arrivals| + 1
    && forall k {:trigger ArrivesAt(m, arrivals, stages, k)} :: ArrivesAt(m, arrivals, stages, k)
  }

  /** A clique of m + 1 nodes, and the arrivals of the others. */
  ghost predicate GrownBy(n: nat, m: nat, arrivals: seq<Arrival>, stages: seq<seq<set<nat>>>) {
    Arrivals(m, arrivals, stages) && FullClique(n, Range(m + 1), stages[0])
  }

  lemma ArrivalsNext(m: nat, arrivals: seq<Arrival>, stages: seq<seq<set<nat>>>,
                     node: nat, a: Arrival, before: seq<set<nat>>, after: seq<set<nat>>)
    requires Arrivals(m, arrivals, stages) && node == m + 1 + |arrivals| && before == stages[|arrivals|]
    requires Arrives(m, node, a, before, after)
    ensures Arrivals(m, arrivals + [a], stages + [after])
  {
    var arrivals', stages' := arrivals + [a], stages + [after];
    forall k ensures ArrivesAt(m, arrivals', stages', k) {
      assert ArrivesAt(m, arrivals, stages, k);
      if 0 <= k < |arrivals| {
        assert arrivals'[k] == arrivals[k] && stages'[k] == stages[k] && stages'[k + 1] == stages[k + 1];
      } else if k == |arrivals| {
        assert arrivals'[k] == a && stages'[k] == before && stages'[k + 1] == after;
      }
    }
  }

  lemma ArrivesUnique(m: nat, node: nat, a: Arrival, a': Arrival, before: seq<set<nat>>, before': seq<set<nat>>,
                      after: seq<set<nat>>, after': seq<set<nat>>)
    requires Arrives(m, node, a, before, after) && Arrives(m, node, a', before', after')
    requires before == before' && a.draws == a'.draws
    ensures a == a' && after == after'
  {
    DegreeDrawnUnique(DegreesOf(before, node), a.picks, a'.picks, a.draws, |a.draws|);
    assert a.picks[..|a.draws|] == a.picks && a'.picks[..|a.draws|] == a'.picks;
  }

  ghost predicate SameDrawsAt(arrivals: seq<Arrival>, arrivals': seq<Arrival>, i: int) {
    0 <= i < |arrivals| && i < |arrivals'| ==> arrivals[i].draws == arrivals'[i].draws
  }

  /** The draws decide every selection and every graph: the visiting order of the targets does not enter. */
  lemma {:induction false} GrownByUnique(n: nat, m: nat, arrivals: seq<Arrival>, arrivals': seq<Arrival>,
                                         stages: seq<seq<set<nat>>>, stages': seq<seq<set<nat>>>, k: nat)
    requires GrownBy(n, m, arrivals, stages) && GrownBy(n, m, arrivals', stages')
    requires |arrivals| == |arrivals'| && k <= |arrivals|
    requires forall i {:trigger SameDrawsAt(arrivals, arrivals', i)} :: SameDrawsAt(arrivals, arrivals', i)
    ensures arrivals[..k] == arrivals'[..k] && stages[k] == stages'[k]
  {
    if k == 0 {
      FullCliqueUnique(n, Range(m + 1), stages[0], stages'[0]);
    } else {
      GrownByUnique(n, m, arrivals, arrivals', stages, stages', k - 1);
      var j := k - 1;
      assert ArrivesAt(m, arrivals, stages, j) && ArrivesAt(m, arrivals', stages', j);
      assert SameDrawsAt(arrivals, arrivals', j);
      ArrivesUnique(m, m + 1 + j, arrivals[j], arrivals'[j], stages[j], stages'[j], stages[j + 1], stages'[j + 1]);
      SamePrefix(arrivals, arrivals', j);
    }
  }

  lemma CliqueDone(n: nat, m: nat, order: seq<nat>, edges: seq<Edge>, adjacency: seq<set<nat>>)
    requires Consistent(n, edges, adjacency) && CliqueUpTo(order, adjacency, |order|, |order| + 1) && |order| == m + 1
    ensures Grown(m, order, adjacency) && FullClique(n, order, adjacency)
  {
    CliqueIsGrown(n, m, order, edges, adjacency);
    CliqueIsFull(n, order, edges, adjacency);
  }

  lemma CliqueStart(n: nat, initial: nat)
    requires initial <= n
    ensures CliqueUpTo(Range(initial), seq(n, _ => {}), 0, 1)
  {}

  lemma RowDone(order: seq<nat>, adjacency: seq<set<nat>>, i: nat)
    requires CliqueUpTo(order, adjacency, i, |order|)
    ensures CliqueUpTo(order, adjacency, i + 1, i + 2)
  {}

  /** The edges from node i to the clique's later nodes. */
  method CliqueRow(b: Builder, initial: nat, ghost order: seq<nat>, i: nat)
    requires b.Counted() && AllPlain(b.edges) && i < initial <= b.n && order == Range(initial)
    requires CliqueUpTo(order, b.adjacency, i, i + 1)
    modifies b
    ensures b.Counted() && AllPlain(b.edges)
    ensures CliqueUpTo(order, b.adjacency, i + 1, i + 2)
    ensures |b.edges| == |old(b.edges)| + initial - i - 1
  {
    var j := i + 1;
    while j < initial
      invariant i < j <= initial && b.Counted() && AllPlain(b.edges)
      invariant CliqueUpTo(order, b.adjacency, i, j)
      invariant |b.edges| == |old(b.edges)| + j - i - 1
    {
      CliqueNext(b.n, order, b.edges, b.adjacency, i, j);
      b.AddCounted(i, j, None);
      j := j + 1;
    }
    RowDone(order, b.adjacency, i);
  }

  method GenerateClique(n: nat, m: nat) returns (b: Builder)
    requires m < n
    ensures fresh(b) && b.n == n && b.Counted() && AllPlain(b.edges)
    ensures Grown(m, Range(m + 1), b.adjacency) && |b.edges| == Stubs(m + 1, m)
    ensures FullClique(n, Range(m + 1), b.adjacency)
  {
    b := new Builder(n);
    var initial := m + 1;
    ghost var order := Range(initial);
    CliqueStart(n, initial);
    var i := 0;
    while i < initial
      invariant 0 <= i <= initial && b.Counted() && AllPlain(b.edges)
      invariant CliqueUpTo(order, b.adjacency, i, i + 1)
      invariant |b.edges| == Rows(i, initial)
    {
      CliqueRow(b, initial, order, i);
      i := i + 1;
    }
    CliqueDone(n, m, order, b.edges, b.adjacency);
    RowsAreStubs(initial, m);
  }

  lemma RangeGrowthDegree(n: nat, m: nat, node: nat, edges: seq<Edge>, adjacency: seq<set<nat>>, v: nat)
    requires Consistent(n, edges, adjacency) && Grown(m, Range(node), adjacency) && v < node && m < node
    ensures v < n && |adjacency[v]| >= m
  {
    GrownDegree(n, m, Range(node), edges, adjacency, v);
    assert Range(node)[v] == v;
  }

  lemma RangeGrowthConnected(n: nat, m: nat, edges: seq<Edge>, adjacency: seq<set<nat>>)
    requires Consistent(n, edges, adjacency) && Grown(m, Range(n), adjacency) && 0 < m < n
    ensures ConnectedOn(n, Pairs(edges))
  {
    forall v: nat | v < n ensures Linked(Pairs(edges), 0, v) {
      GrownLinked(n, m, Range(n), edges, adjacency, v);
    }
    RootedIsConnected(n, Pairs(edges), 0);
  }

  lemma RangeGrowthLeastDegree(n: nat, m: nat, edges: seq<Edge>, adjacency: seq<set<nat>>, degrees: seq<nat>)
    requires Consistent(n, edges, adjacency) && DegreesMatch(edges, adjacency, degrees)
    requires Grown(m, Range(n), adjacency) && m < n
    ensures forall v: nat :: v < n ==> Degree(n, edges, v) == degrees[v] >= m
  {
    forall v: nat | v < n ensures Degree(n, edges, v) == degrees[v] >= m {
      RangeGrowthDegree(n, m, n, edges, adjacency, v);
      AdjacencyIsNeighbors(n, edges, adjacency, v);
    }
  }

  /** One arrival: m targets are drawn among the nodes present, and the node joins them. */
  method Arrive(b: Builder, m: nat, node: nat, rng: Rand) returns (ghost arrival: Arrival)
    requires b.Counted() && AllPlain(b.edges) && 0 < m < node < b.n
    requires Grown(m, Range(node), b.adjacency)
    modifies b
    ensures b.Counted() && AllPlain(b.edges)
    ensures Grown(m, Range(node + 1), b.adjacency) && |b.edges| == |old(b.edges)| + m
    ensures Arrives(m, node, arrival, old(b.adjacency), b.adjacency)
  {
    forall v: nat | v < node ensures b.degrees[v] > 0 {
      RangeGrowthDegree(b.n, m, node, b.edges, b.adjacency, v);
    }
    var selected, picks, draws := SelectTargets(b, m, node, rng);
    arrival := Arrival(picks, draws);
    assert b.degrees[..node] == DegreesOf(b.adjacency, node);
    assert node !in Range(node);
    Attach(b, node, selected, None);
    ArrivalIsGrown(m, node, old(b.adjacency), b.adjacency, selected);
  }

  lemma ArrivalIsGrown(m: nat, node: nat, before: seq<set<nat>>, after: seq<set<nat>>, selected: set<nat>)
    requires Grown(m, Range(node), before) && m < node < |before| && |selected| == m
    requires forall t :: t in selected ==> t < node
    requires Attached(after, before, node, selected)
    ensures Grown(m, Range(node + 1), after)
  {
    assert Range(node + 1) == Range(node) + [node];
    forall t | t in selected ensures t in Elements(Range(node)) {
      assert Range(node)[t] == t;
    }
    AttachKeepsGrown(m, Range(node), before, after, node, selected);
  }

  /** Between two arrivals: the nodes below the next one are in. */
  ghost predicate GrownTo(n: nat, m: nat, b: Builder, node: nat, clique: seq<set<nat>>, arrivals: seq<Arrival>,
                          stages: seq<seq<set<nat>>>)
    reads b
  {
    && b.n == n && 0 < m < node <= n && b.Counted() && AllPlain(b.edges)
    && Grown(m, Range(node), b.adjacency) && |b.edges| == Stubs(node, m)
    && Arrivals(m, arrivals, stages) && |arrivals| == node - m - 1
    && stages[0] == clique && stages[|arrivals|] == b.adjacency
  }

  method ArriveNext(n: nat, m: nat, b: Builder, node: nat, rng: Rand, ghost clique: seq<set<nat>>,
                    ghost arrivals: seq<Arrival>, ghost stages: seq<seq<set<nat>>>)
    returns (ghost arrivals': seq<Arrival>, ghost stages': seq<seq<set<nat>>>)
    requires GrownTo(n, m, b, node, clique, arrivals, stages) && node < n
    modifies b
    ensures GrownTo(n, m, b, node + 1, clique, arrivals', stages')
  {
    ghost var arrival := Arrive(b, m, node, rng);
    ArrivalsNext(m, arrivals, stages, node, arrival, old(b.adjacency), b.adjacency);
    arrivals', stages' := arrivals + [arrival], stages + [b.adjacency];
  }

  /** The clique and then all the arrivals. */
  method Grow(n: nat, m: nat, rng: Rand)
    returns (b: Builder, ghost arrivals: seq<Arrival>, ghost stages: seq<seq<set<nat>>>)
    requires 0 < m < n
    ensures fresh(b) && GrownBy(n, m, arrivals, stages)
    ensures stages != [] && GrownTo(n, m, b, n, stages[0], arrivals, stages)
  {
    b := GenerateClique(n, m);
    ghost var clique := b.adjacency;
    arrivals, stages := [], [clique];
    for node := m + 1 to n
      invariant GrownTo(n, m, b, node, clique, arrivals, stages)
    {
      arrivals, stages := ArriveNext(n, m, b, node, rng, clique, arrivals, stages);
    }
  }

  /**
   * For every seed: a simple connected graph with the stated edge count and least degree, grown from
   * a clique by arrivals that each join m earlier nodes, drawn in proportion to their degrees then.
   */
  method GenerateBA(n: nat, m: nat, rng: Rand)
    returns (edges: seq<Edge>, ghost adjacency: seq<set<nat>>, ghost degrees: seq<nat>,
             ghost arrivals: seq<Arrival>, ghost stages: seq<seq<set<nat>>>)
    requires 0 < m < n
    ensures Consistent(n, edges, adjacency) && DegreesMatch(edges, adjacency, degrees)
    ensures Grown(m, Range(n), adjacency)
    ensures GrownBy(n, m, arrivals, stages) && |arrivals| == n - m - 1 && stages[|arrivals|] == adjacency
    ensures |edges| == m * (m + 1) / 2 + (n - m - 1) * m
    ensures forall v: nat :: v < n ==> Degree(n, edges, v) == degrees[v] >= m
    ensures ConnectedOn(n, Pairs(edges))
    ensures AllPlain(edges)
  {
    var b;
    b, arrivals, stages := Grow(n, m, rng);
    edges, adjacency, degrees := b.edges, b.adjacency, b.degrees;
    StubsClosedForm(n, m);
    RangeGrowthLeastDegree(n, m, edges, adjacency, degrees);
    RangeGrowthConnected(n, m, edges, adjacency);
  }
}
