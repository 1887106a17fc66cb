/** The core shortcuts and the edge budget of the double-ring generator. */
module DrsFill {
  import opened DoubleRing
  import opened DrsGenerator
  import opened DrsTurns
  import opened EdgeLists
  import opened Random
  import opened Rings
  import opened Sequences
  import opened Wrappers

  /** An edge inside one of the rings, of two nodes not yet joined. */
  method AddInside(n: nat, b: Builder, inner: seq<nat>, outer: seq<nat>, beta: nat, a: nat, c: nat)
    requires b.n == n && b.Valid() && Wired(n, inner, outer, beta, b.edges, b.adjacency)
    requires a < n && c < n && a != c && SameSide(inner, outer, a, c) && c !in b.adjacency[a]
    modifies b`edges, b`adjacency
    ensures b.Valid() && Wired(n, inner, outer, beta, b.edges, b.adjacency)
    ensures b.edges == old(b.edges) + [Plain(a, c)] && b.adjacency == Joined(old(b.adjacency), a, c)
    ensures Pairs(b.edges) == Pairs(old(b.edges)) + {Key(a, c)} && Grows(old(b.adjacency), b.adjacency)
  {
    InsideKeepsWired(n, inner, outer, beta, b.edges, b.adjacency, Plain(a, c), a, c);
    b.AddSimple(a, c);
  }

  /** The ring maps built with the rings: what they say of two inner nodes. */
  ghost predicate InnerMaps(n: nat, inner: seq<nat>, ringAdjacency: seq<set<nat>>) {
    && |ringAdjacency| == n
    && forall v: nat, u: nat {:trigger u in ringAdjacency[v]} :: v < n && v in inner && u in inner ==>
         (u in ringAdjacency[v] <==> Key(v, u) in RingPairs(inner, |inner|))
  }

  lemma RingMapsInner(n: nat, inner: seq<nat>, outer: seq<nat>, ringAdjacency: seq<set<nat>>)
    requires TwoRings(n, inner, outer)
    requires RingMaps(n, ringAdjacency, RingPairs(inner, |inner|) + RingPairs(outer, |outer|))
    ensures InnerMaps(n, inner, ringAdjacency)
  {
    RingPairsInside(outer);
    forall v: nat, u: nat | v < n && v in inner && u in inner
      ensures u in ringAdjacency[v] <==> Key(v, u) in RingPairs(inner, |inner|)
    {
      assert u < n && u !in outer && v !in outer;
    }
  }

  /** innerShortcutCount: the inner neighbours off the ring. */
  method InnerShortcutCount(n: nat, b: Builder, inner: seq<nat>, ringAdjacency: seq<set<nat>>, node: nat)
    returns (count: nat)
    requires b.n == n && b.Valid() && node < n && node in inner && InnerMaps(n, inner, ringAdjacency)
    ensures count == |ShortcutsOf(b.adjacency, inner, node)|
  {
    count := 0;
    var rest := b.adjacency[node];
    ghost var found: set<nat> := {};
    while rest != {}
      invariant rest <= b.adjacency[node]
      invariant found == (set u | u in ShortcutsOf(b.adjacency, inner, node) && u !in rest) && count == |found|
      decreases |rest|
    {
      var neighbor :| neighbor in rest;
      rest := rest - {neighbor};
      if neighbor in inner && neighbor !in ringAdjacency[node] {
        count := count + 1;
        found := found + {neighbor};
      }
    }
    assert found == ShortcutsOf(b.adjacency, inner, node);
  }

  /** The inner nodes a shortcut from the node could still reach. */
  method ShortcutTargets(n: nat, b: Builder, inner: seq<nat>, ringAdjacency: seq<set<nat>>, node: nat)
    returns (targets: seq<nat>)
    requires b.n == n && b.Valid() && node < n && node in inner && Distinct(inner) && InnerMaps(n, inner, ringAdjacency)
    requires RingPairs(inner, |inner|) <= Pairs(b.edges) && forall u :: u in inner ==> u < n
    ensures Distinct(targets)
    ensures forall u :: u in targets <==> u in inner && u != node && u !in b.adjacency[node]
  {
    targets := [];
    var i := 0;
    while i < |inner|
      invariant 0 <= i <= |inner| && Distinct(targets)
      invariant forall u :: u in targets <==> u in inner[..i] && u != node && u !in b.adjacency[node]
    {
      var target := inner[i];
      assert target in inner;
      assert inner[..i + 1] == inner[..i] + [target];
      assert target !in inner[..i];
      if target != node && target !in ringAdjacency[node] && target !in b.adjacency[node] {
        targets := targets + [target];
      }
      i := i + 1;
    }
    assert inner[..i] == inner;
  }

  /** A new inner neighbour off the ring is one shortcut more. */
  lemma ShortcutNext(n: nat, inner: seq<nat>, edges: seq<Edge>, adjacency: seq<set<nat>>, node: nat, target: nat)
    requires Consistent(n, edges, adjacency) && RingPairs(inner, |inner|) <= Pairs(edges)
    requires node < n && target < n && node != target && target in inner && target !in adjacency[node]
    ensures ShortcutsOf(Joined(adjacency, node, target), inner, node) == ShortcutsOf(adjacency, inner, node) + {target}
    ensures Joined(adjacency, node, target)[node] == adjacency[node] + {target}
  {
    assert Key(node, target) in Pairs(edges) <==> target in adjacency[node];
  }

  /** The targets from position j on are not yet neighbours of the node. */
  ghost predicate Ready(inner: seq<nat>, adjacency: seq<set<nat>>, node: nat, targets: seq<nat>, j: nat) {
    && node < |adjacency| && Distinct(targets)
    && forall i: nat {:trigger targets[i]} :: j <= i < |targets| ==>
         targets[i] in inner && targets[i] != node && targets[i] !in adjacency[node]
  }

  method AddShortcut(n: nat, b: Builder, inner: seq<nat>, outer: seq<nat>, beta: nat, node: nat, targets: seq<nat>,
                     j: nat)
    requires b.n == n && b.Valid() && Wired(n, inner, outer, beta, b.edges, b.adjacency)
    requires node in inner && j < |targets| && Ready(inner, b.adjacency, node, targets, j)
    modifies b`edges, b`adjacency
    ensures b.Valid() && Wired(n, inner, outer, beta, b.edges, b.adjacency)
    ensures Ready(inner, b.adjacency, node, targets, j + 1) && Grows(old(b.adjacency), b.adjacency)
    ensures |ShortcutsOf(b.adjacency, inner, node)| == |ShortcutsOf(old(b.adjacency), inner, node)| + 1
    ensures exists e :: b.edges == old(b.edges) + [e] && JoinsInner(inner, node, e)
  {
    var target := targets[j];
    assert target < n;
    assert JoinsInner(inner, node, Plain(node, target));
    ShortcutNext(n, inner, b.edges, b.adjacency, node, target);
    assert target !in ShortcutsOf(b.adjacency, inner, node);
    AddInside(n, b, inner, outer, beta, node, target);
  }

  method AddShortcutsTo(n: nat, b: Builder, inner: seq<nat>, outer: seq<nat>, beta: nat, node: nat, targets: seq<nat>,
                        need: nat)
    requires b.n == n && b.Valid() && Wired(n, inner, outer, beta, b.edges, b.adjacency)
    requires node in inner && need <= |targets| && Ready(inner, b.adjacency, node, targets, 0)
    modifies b`edges, b`adjacency
    ensures b.Valid() && Wired(n, inner, outer, beta, b.edges, b.adjacency) && Grows(old(b.adjacency), b.adjacency)
    ensures node < n && |ShortcutsOf(b.adjacency, inner, node)| == |ShortcutsOf(old(b.adjacency), inner, node)| + need
    ensures Extended(inner, node, old(b.edges), b.edges, need)
  {
    var j := 0;
    while j < need
      invariant 0 <= j <= need && b.Valid() && Wired(n, inner, outer, beta, b.edges, b.adjacency)
      invariant Ready(inner, b.adjacency, node, targets, j) && Grows(old(b.adjacency), b.adjacency)
      invariant |ShortcutsOf(b.adjacency, inner, node)| == |ShortcutsOf(old(b.adjacency), inner, node)| + j
      invariant Extended(inner, node, old(b.edges), b.edges, j)
    {
      ghost var before, edges := b.adjacency, b.edges;
      AddShortcut(n, b, inner, outer, beta, node, targets, j);
      ghost var e :| b.edges == edges + [e] && JoinsInner(inner, node, e);
      ExtendedNext(inner, node, old(b.edges), edges, j, e);
      j := j + 1;
    }
  }

  /** The turn of one inner node: missing shortcuts are added, and targets never run out. */
  method ShortcutRound(n: nat, b: Builder, inner: seq<nat>, outer: seq<nat>, beta: nat, ringAdjacency: seq<set<nat>>,
                       node: nat, rng: Rand)
    returns (error: Option<DrsError>)
    requires b.n == n && b.Valid() && Wired(n, inner, outer, beta, b.edges, b.adjacency)
    requires node in inner && InnerMaps(n, inner, ringAdjacency) && beta + 3 <= |inner|
    modifies b`edges, b`adjacency
    ensures error.None?
    ensures b.Valid() && Wired(n, inner, outer, beta, b.edges, b.adjacency) && Grows(old(b.adjacency), b.adjacency)
    ensures HasShortcuts(b.adjacency, inner, node, beta)
    ensures Turn(inner, beta, node, Stage(old(b.edges), old(b.adjacency)), Stage(b.edges, b.adjacency))
  {
    AscendingDistinct(inner);
    var count := InnerShortcutCount(n, b, inner, ringAdjacency, node);
    var need := beta - count;
    if need <= 0 {
      return None;
    }
    var candidates := ShortcutTargets(n, b, inner, ringAdjacency, node);
    EnoughTargets(n, inner, b.edges, b.adjacency, node, candidates);
    if |candidates| < need {
      return Some(TargetsExhausted(node, need, |candidates|));
    }
    var targets := rng.Shuffle(candidates);
    ShuffledReady(inner, b.adjacency, node, candidates, targets);
    AddShortcutsTo(n, b, inner, outer, beta, node, targets, need);
    return None;
  }

  lemma ShuffledReady(inner: seq<nat>, adjacency: seq<set<nat>>, node: nat, candidates: seq<nat>, targets: seq<nat>)
    requires node < |adjacency| && Distinct(candidates) && multiset(candidates) == multiset(targets)
    requires forall u :: u in candidates <==> u in inner && u != node && u !in adjacency[node]
    ensures Ready(inner, adjacency, node, targets, 0)
  {
    PermutationDistinct(candidates, targets);
    forall i: nat | i < |targets| ensures targets[i] in inner && targets[i] != node && targets[i] !in adjacency[node] {
      PermutationMembers(candidates, targets, targets[i]);
    }
  }

  /** The first i nodes of the order have had their turn. */
  ghost predicate Served(inner: seq<nat>, beta: nat, order: seq<nat>, adjacency: seq<set<nat>>, i: nat) {
    forall k: nat {:trigger order[k]} :: k < i && k < |order| ==> HasShortcuts(adjacency, inner, order[k], beta)
  }

  lemma ServedNext(inner: seq<nat>, beta: nat, order: seq<nat>, before: seq<set<nat>>, after: seq<set<nat>>, i: nat)
    requires Served(inner, beta, order, before, i) && Grows(before, after)
    requires i < |order| && HasShortcuts(after, inner, order[i], beta)
    ensures Served(inner, beta, order, after, i + 1)
  {
    forall k: nat | k < i ensures HasShortcuts(after, inner, order[k], beta) {
      ShortcutsStay(before, after, inner, order[k], beta);
    }
  }

  lemma AllServed(inner: seq<nat>, beta: nat, order: seq<nat>, adjacency: seq<set<nat>>)
    requires Served(inner, beta, order, adjacency, |order|) && multiset(order) == multiset(inner)
    ensures forall v: nat :: v in inner ==> HasShortcuts(adjacency, inner, v, beta)
  {
    forall v: nat | v in inner ensures HasShortcuts(adjacency, inner, v, beta) {
      PermutationMembers(inner, order, v);
      var k: nat :| k < |order| && order[k] == v;
    }
  }

  /** Between two turns; the stages are the graph before and after each of them. */
  ghost predicate ServedTo(n: nat, b: Builder, inner: seq<nat>, outer: seq<nat>, beta: nat, order: seq<nat>,
                           start: Stage, stages: seq<Stage>, i: nat)
    reads b
  {
    && b.n == n && b.Valid() && Wired(n, inner, outer, beta, b.edges, b.adjacency)
    && Served(inner, beta, order, b.adjacency, i)
    && i <= |order| && |stages| == i + 1 && Turns(n, inner, outer, beta, order, stages)
    && stages[0] == start && stages[i] == Stage(b.edges, b.adjacency)
  }

  method NextTurn(n: nat, b: Builder, inner: seq<nat>, outer: seq<nat>, beta: nat, ringAdjacency: seq<set<nat>>,
                  rng: Rand, order: seq<nat>, ghost start: Stage, ghost stages: seq<Stage>, i: nat)
    returns (error: Option<DrsError>, ghost stages': seq<Stage>)
    requires ServedTo(n, b, inner, outer, beta, order, start, stages, i) && i < |order|
    requires InnerMaps(n, inner, ringAdjacency) && beta + 3 <= |inner| && multiset(order) == multiset(inner)
    modifies b`edges, b`adjacency
    ensures error.None? && ServedTo(n, b, inner, outer, beta, order, start, stages', i + 1)
  {
    PermutationMembers(inner, order, order[i]);
    error := ShortcutRound(n, b, inner, outer, beta, ringAdjacency, order[i], rng);
    ServedNext(inner, beta, order, old(b.adjacency), b.adjacency, i);
    TurnsNext(n, inner, outer, beta, order, stages, Stage(b.edges, b.adjacency));
    stages' := stages + [Stage(b.edges, b.adjacency)];
  }

  /** All turns, in a random order of the inner nodes. */
  method ShortcutRounds(n: nat, b: Builder, inner: seq<nat>, outer: seq<nat>, beta: nat,
                        ringAdjacency: seq<set<nat>>, rng: Rand)
    returns (error: Option<DrsError>, ghost turns: seq<nat>, ghost stages: seq<Stage>)
    requires b.n == n && b.Valid() && Wired(n, inner, outer, beta, b.edges, b.adjacency)
    requires InnerMaps(n, inner, ringAdjacency) && beta + 3 <= |inner|
    modifies b`edges, b`adjacency
    ensures error.None?
    ensures b.Valid() && Wired(n, inner, outer, beta, b.edges, b.adjacency)
    ensures forall v: nat :: v in inner ==> HasShortcuts(b.adjacency, inner, v, beta)
    ensures multiset(turns) == multiset(inner) && |stages| == |turns| + 1
    ensures Turns(n, inner, outer, beta, turns, stages)
    ensures stages[0] == Stage(old(b.edges), old(b.adjacency)) && stages[|turns|] == Stage(b.edges, b.adjacency)
  {
    var order := rng.Shuffle(inner);
    ghost var start := Stage(b.edges, b.adjacency);
    turns, stages := order, [start];
    TurnsStart(n, inner, outer, beta, order, start);
    for i := 0 to |order|
      invariant ServedTo(n, b, inner, outer, beta, order, start, stages, i)
    {
      error, stages := NextTurn(n, b, inner, outer, beta, ringAdjacency, rng, order, start, stages, i);
      if error.Some? {
        return;
      }
    }
    AllServed(inner, beta, order, b.adjacency);
    error := None;
  }
}
