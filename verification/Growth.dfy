/** Growth of a graph by arrival: a clique first, then each new node joins a fixed number of earlier ones. */
module Growth {
  import opened EdgeLists
  import opened EdgePaths
  import opened Sequences
  import opened Wrappers

  function Min(a: nat, b: nat): nat {
    if a <= b then a else b
  }

  /** The neighbours that a node has among those that arrived before it. */
  ghost function Back(adjacency: seq<set<nat>>, order: seq<nat>, j: nat): set<nat>
    requires j < |order| && order[j] < |adjacency|
  {
    adjacency[order[j]] * Elements(order[..j])
  }

  /** The j-th arrival has m earlier neighbours, or all earlier nodes while there are no more than m. */
  ghost predicate Grown(m: nat, order: seq<nat>, adjacency: seq<set<nat>>) {
    && Distinct(order)
    && (forall i :: 0 <= i < |order| ==> order[i] < |adjacency|)
    && (forall v: nat :: v < |adjacency| && v !in order ==> adjacency[v] == {})
    && (forall j: nat {:trigger Back(adjacency, order, j)} :: j < |order| ==> |Back(adjacency, order, j)| == Min(j, m))
  }

  /** The edges after j arrivals. */
  ghost function Stubs(j: nat, m: nat): nat {
    if j == 0 then 0 else Stubs(j - 1, m) + Min(j - 1, m)
  }

  lemma {:induction false} StubsClosedForm(n: nat, m: nat)
    requires m < n
    ensures Stubs(n, m) == m * (m + 1) / 2 + (n - m - 1) * m
  {
    if n == m + 1 {
      StubsTriangle(n, m);
    } else {
      StubsClosedForm(n - 1, m);
      assert (n - m - 1) * m == (n - m - 2) * m + m;
    }
  }

  lemma {:induction false} StubsTriangle(j: nat, m: nat)
    requires j <= m + 1
    ensures 2 * Stubs(j, m) == j * (j - 1)
  {
    if j > 0 {
      StubsTriangle(j - 1, m);
      assert j * (j - 1) == (j - 1) * (j - 2) + 2 * (j - 1);
    }
  }

  /** While the clique grows, every node has all earlier ones as neighbours. */
  lemma CliqueBack(m: nat, order: seq<nat>, adjacency: seq<set<nat>>, i: nat, j: nat)
    requires Grown(m, order, adjacency) && i < j < |order| && j <= m
    ensures order[i] in adjacency[order[j]]
  {
    var back := Back(adjacency, order, j);
    assert Distinct(order[..j]);
    DistinctSize(order[..j]);
    SubsetFull(back, Elements(order[..j]));
    assert order[..j][i] == order[i];
    assert order[i] in Elements(order[..j]);
  }

  /** Every node ends with degree at least m. */
  lemma GrownDegree(n: nat, m: nat, order: seq<nat>, edges: seq<Edge>, adjacency: seq<set<nat>>, j: nat)
    requires Consistent(n, edges, adjacency) && Grown(m, order, adjacency)
    requires j < |order| && m < |order|
    ensures |adjacency[order[j]]| >= m
  {
    if j > m {
      SubsetSize(Back(adjacency, order, j), adjacency[order[j]]);
    } else {
      var v := order[j];
      var clique := Elements(order[..m + 1]);
      assert Distinct(order[..m + 1]);
      DistinctSize(order[..m + 1]);
      assert order[..m + 1][j] == v;
      forall x | x in clique - {v} ensures x in adjacency[v] {
        var i :| 0 <= i < m + 1 && order[..m + 1][i] == x;
        if i < j {
          CliqueBack(m, order, adjacency, i, j);
        } else {
          CliqueBack(m, order, adjacency, j, i);
          assert Key(v, x) == Key(x, v);
        }
      }
      SubsetSize(clique - {v}, adjacency[v]);
    }
  }

  /** Every arrival is linked to the first. */
  lemma {:induction false} GrownLinked(n: nat, m: nat, order: seq<nat>, edges: seq<Edge>, adjacency: seq<set<nat>>,
                                       j: nat)
    requires Consistent(n, edges, adjacency) && Grown(m, order, adjacency)
    requires j < |order| && m > 0
    ensures Linked(Pairs(edges), order[0], order[j])
  {
    if j == 0 {
      LinkedRefl(Pairs(edges), order[0]);
    } else {
      var back := Back(adjacency, order, j);
      assert back != {};
      var x :| x in back;
      var i :| 0 <= i < j && order[..j][i] == x;
      GrownLinked(n, m, order, edges, adjacency, i);
      assert Key(order[j], x) == Key(x, order[j]) && Key(order[j], x) in Pairs(edges);
      LinkedPair(Pairs(edges), x, order[j]);
      LinkedTrans(Pairs(edges), order[0], x, order[j]);
    }
  }

  /** The adjacency maps once the node has joined the targets. */
  ghost predicate Attached(after: seq<set<nat>>, adjacency: seq<set<nat>>, node: nat, targets: set<nat>) {
    && |after| == |adjacency|
    && (node < |after| ==> after[node] == adjacency[node] + targets)
    && forall v: nat {:trigger after[v]} :: v < |after| && v != node ==>
         after[v] == if v in targets then adjacency[v] + {node} else adjacency[v]
  }

  lemma AttachKeepsBack(order: seq<nat>, adjacency: seq<set<nat>>, after: seq<set<nat>>, node: nat, targets: set<nat>,
                        j: nat)
    requires Attached(after, adjacency, node, targets)
    requires node < |adjacency| && node !in order && j < |order| && order[j] < |adjacency|
    ensures Back(after, order + [node], j) == Back(adjacency, order, j)
  {
    assert (order + [node])[..j] == order[..j];
    assert (order + [node])[j] == order[j] && order[j] in order;
    assert node !in Elements(order[..j]);
  }

  lemma AttachedBack(order: seq<nat>, adjacency: seq<set<nat>>, after: seq<set<nat>>, node: nat, targets: set<nat>)
    requires Attached(after, adjacency, node, targets)
    requires node < |adjacency| && adjacency[node] == {} && targets <= Elements(order)
    ensures Back(after, order + [node], |order|) == targets
  {
    assert (order + [node])[..|order|] == order;
  }

  lemma AttachKeepsGrown(m: nat, order: seq<nat>, adjacency: seq<set<nat>>, after: seq<set<nat>>, node: nat,
                         targets: set<nat>)
    requires Grown(m, order, adjacency) && node < |adjacency| && node !in order
    requires Attached(after, adjacency, node, targets)
    requires targets <= Elements(order) && |targets| == Min(|order|, m)
    ensures Grown(m, order + [node], after)
  {
    var order' := order + [node];
    forall j: nat | j < |order'| ensures |Back(after, order', j)| == Min(j, m) {
      if j < |order| {
        AttachKeepsBack(order, adjacency, after, node, targets, j);
      } else {
        AttachedBack(order, adjacency, after, node, targets);
      }
    }
    forall v: nat | v < |after| && v !in order' ensures after[v] == {} {
      assert v !in order && v != node;
      assert v !in targets;
    }
  }

  ghost predicate NewEdge(e: Edge, node: nat, targets: set<nat>, delays: Option<seq<real>>) {
    var t := if e.a == node then e.b else e.a;
    t in targets && e == Canonicalize(Edge(node, t, Baseline(delays, t)))
  }

  /** Every edge of the longer list is an earlier one or joins the node to a target. */
  ghost predicate Joins(edges: seq<Edge>, before: seq<Edge>, node: nat, targets: set<nat>, delays: Option<seq<real>>) {
    forall e :: e in edges ==> e in before || NewEdge(e, node, targets, delays)
  }

  lemma JoinsOne(edges: seq<Edge>, before: seq<Edge>, node: nat, targets: set<nat>, delays: Option<seq<real>>, t: nat)
    requires Joins(edges, before, node, targets, delays) && t in targets
    ensures Joins(edges + [Canonicalize(Edge(node, t, Baseline(delays, t)))], before, node, targets, delays)
  {
    assert NewEdge(Canonicalize(Edge(node, t, Baseline(delays, t))), node, targets, delays);
  }

  function Baseline(delays: Option<seq<real>>, t: nat): Option<real> {
    if delays.Some? && t < |delays.value| then Some(delays.value[t]) else None
  }

  /** The loop that joins a new node to its selected targets, in whatever order the set is visited. */
  method Attach(b: Builder, node: nat, targets: set<nat>, delays: Option<seq<real>>)
    requires b.Counted()
    requires node < b.n && node !in targets && b.adjacency[node] == {} && forall t :: t in targets ==> t < b.n
    modifies b
    ensures b.Counted()
    ensures Attached(b.adjacency, old(b.adjacency), node, targets)
    ensures |b.edges| == |old(b.edges)| + |targets|
    ensures Joins(b.edges, old(b.edges), node, targets, delays)
  {
    var rest := targets;
    ghost var done: set<nat> := {};
    assert Attached(b.adjacency, b.adjacency, node, done);
    while rest != {}
      invariant done !! rest && done + rest == targets
      invariant b.Counted()
      invariant Attached(b.adjacency, old(b.adjacency), node, done)
      invariant |b.edges| == |old(b.edges)| + |done|
      invariant Joins(b.edges, old(b.edges), node, targets, delays)
      decreases |rest|
    {
      var t :| t in rest;
      MoveOne(done, rest, t);
      JoinsOne(b.edges, old(b.edges), node, targets, delays, t);
      AttachOne(b, node, t, delays, old(b.adjacency), done);
      rest := rest - {t};
      done := done + {t};
    }
    assert done == targets;
  }

  method AttachOne(b: Builder, node: nat, t: nat, delays: Option<seq<real>>, ghost start: seq<set<nat>>,
                   ghost done: set<nat>)
    requires b.Counted()
    requires node < b.n && t < b.n && t != node && |start| == b.n && start[node] == {}
    requires t !in done && Attached(b.adjacency, start, node, done)
    modifies b
    ensures b.Counted()
    ensures Attached(b.adjacency, start, node, done + {t})
    ensures b.edges == old(b.edges) + [Canonicalize(Edge(node, t, Baseline(delays, t)))]
  {
    assert t !in b.adjacency[node];
    b.AddCounted(node, t, Baseline(delays, t));
    AttachNext(start, old(b.adjacency), node, done, t);
  }

  lemma AttachNext(start: seq<set<nat>>, adjacency: seq<set<nat>>, node: nat, done: set<nat>, t: nat)
    requires node < |start| && t < |start| && t != node && t !in done && Attached(adjacency, start, node, done)
    ensures Attached(Joined(adjacency, node, t), start, node, done + {t})
  {
    var next := Joined(adjacency, node, t);
    assert next[t] == start[t] + {node};
  }

  /** The first arrivals, joined pair by pair up to the pair of positions (i, j). */
  ghost predicate CliqueUpTo(order: seq<nat>, adjacency: seq<set<nat>>, i: nat, j: nat) {
    && Distinct(order)
    && (forall r :: 0 <= r < |order| ==> order[r] < |adjacency|)
    && (forall v: nat, u: nat :: Adjoins(adjacency, v, u) ==> v in order && u in order)
    && forall r: nat, s: nat :: r < s < |order| ==>
         (order[s] in adjacency[order[r]] <==> r < i || (r == i && s < j))
  }

  lemma CliqueNext(n: nat, order: seq<nat>, edges: seq<Edge>, adjacency: seq<set<nat>>, i: nat, j: nat)
    requires Consistent(n, edges, adjacency) && CliqueUpTo(order, adjacency, i, j) && i < j < |order|
    ensures order[i] != order[j] && order[j] !in adjacency[order[i]]
    ensures CliqueUpTo(order, Joined(adjacency, order[i], order[j]), i, j + 1)
  {
    var next := Joined(adjacency, order[i], order[j]);
    forall r: nat, s: nat | r < s < |order|
      ensures order[s] in next[order[r]] <==> r < i || (r == i && s < j + 1)
    {
      assert order[s] in adjacency[order[r]] <==> r < i || (r == i && s < j);
      assert order[r] == order[i] <==> r == i;
      assert order[s] == order[j] <==> s == j;
      assert !(order[r] == order[j] && order[s] == order[i]);
    }
    forall v: nat, u: nat | Adjoins(next, v, u) ensures v in order && u in order {
      assert Adjoins(adjacency, v, u) || (v == order[i] && u == order[j]) || (v == order[j] && u == order[i]);
    }
  }

  /** The clique on the initial nodes, and nothing else. */
  ghost predicate FullClique(n: nat, initial: seq<nat>, adjacency: seq<set<nat>>) {
    && |adjacency| == n
    && forall v: nat, u: nat :: v < n ==>
         (u in adjacency[v] <==> u != v && u in initial && v in initial)
  }

  lemma FullCliqueUnique(n: nat, initial: seq<nat>, adjacency: seq<set<nat>>, adjacency': seq<set<nat>>)
    requires FullClique(n, initial, adjacency) && FullClique(n, initial, adjacency')
    ensures adjacency == adjacency'
  {
    forall v: nat | v < n ensures adjacency[v] == adjacency'[v] {
      forall u: nat ensures u in adjacency[v] <==> u in adjacency'[v] {
        assert u in adjacency[v] <==> u != v && u in initial && v in initial;
      }
    }
  }

  lemma CliqueIsFull(n: nat, initial: seq<nat>, edges: seq<Edge>, adjacency: seq<set<nat>>)
    requires Consistent(n, edges, adjacency) && CliqueUpTo(initial, adjacency, |initial|, |initial| + 1)
    ensures FullClique(n, initial, adjacency)
  {
    forall v: nat, u: nat | v < n ensures u in adjacency[v] <==> u != v && u in initial && v in initial {
      assert u in adjacency[v] ==> Adjoins(adjacency, v, u);
      if u != v && u in initial && v in initial {
        var r :| 0 <= r < |initial| && initial[r] == v;
        var s :| 0 <= s < |initial| && initial[s] == u;
        assert Key(u, v) == Key(v, u);
        assert r < s ==> initial[s] in adjacency[initial[r]];
        assert s < r ==> initial[r] in adjacency[initial[s]];
      }
    }
  }

  lemma CliqueIsGrown(n: nat, m: nat, order: seq<nat>, edges: seq<Edge>, adjacency: seq<set<nat>>)
    requires Consistent(n, edges, adjacency) && CliqueUpTo(order, adjacency, |order|, |order| + 1)
    requires |order| <= m + 1
    ensures Grown(m, order, adjacency)
  {
    forall j: nat | j < |order| ensures |Back(adjacency, order, j)| == Min(j, m) {
      CliqueBackSize(n, order, edges, adjacency, j);
    }
    forall v: nat | v < |adjacency| && v !in order ensures adjacency[v] == {} {
      forall u | u in adjacency[v] ensures false {
        assert Adjoins(adjacency, v, u);
      }
    }
  }

  lemma CliqueBackSize(n: nat, order: seq<nat>, edges: seq<Edge>, adjacency: seq<set<nat>>, j: nat)
    requires Consistent(n, edges, adjacency) && CliqueUpTo(order, adjacency, |order|, |order| + 1)
    requires j < |order|
    ensures |Back(adjacency, order, j)| == j
  {
    var earlier := order[..j];
    assert Distinct(earlier);
    DistinctSize(earlier);
    forall x | x in Elements(earlier) ensures x in adjacency[order[j]] {
      var r :| 0 <= r < j && earlier[r] == x;
      assert order[j] in adjacency[order[r]];
      assert Key(order[r], order[j]) == Key(order[j], order[r]);
    }
    assert Back(adjacency, order, j) == Elements(earlier);
  }

  /** The edges of a clique of size l once i rows of its pairs are in. */
  ghost function Rows(i: nat, l: nat): int {
    if i == 0 then 0 else Rows(i - 1, l) + l - i
  }

  lemma {:induction false} RowsTriangle(i: nat, l: nat)
    ensures 2 * Rows(i, l) == i * (2 * l - 1 - i)
  {
    if i > 0 {
      RowsTriangle(i - 1, l);
      assert i * (2 * l - 1 - i) == (i - 1) * (2 * l - 1 - (i - 1)) + 2 * (l - i);
    }
  }

  lemma RowsAreStubs(l: nat, m: nat)
    requires l <= m + 1
    ensures Rows(l, l) == Stubs(l, m)
  {
    RowsTriangle(l, l);
    StubsTriangle(l, m);
  }
}
