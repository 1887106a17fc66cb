/**
 * Double-ring small-world generation: rings, access links, core shortcuts, then the edge budget.
 *
 * This part closes the two rings and connects every outer node to beta inner ones; the shortcuts are
 * in DrsFill, the candidates of the fill in DrsCandidates and the budget in DrsBudget.
 */
module DrsGenerator {
  import opened DoubleRing
  import opened EdgeLists
  import opened Random
  import opened Rings
  import opened Sequences

  datatype DrsError =
    | InvalidK
    | InvalidAlpha
    | RingsTooSmall(inner: int, outer: int)
    | BetaNotPositive
    | BetaTooLarge(maximum: int)
    | NodeCountMismatch
    | TargetsExhausted(node: int, need: int, remain: int)
    | BudgetExceeded(budget: nat, mandatory: nat)
    | BudgetUnreachable(budget: nat, constructed: nat)

  /** The ring-neighbour maps agree with the ring edges added so far. */
  ghost predicate RingMaps(n: nat, ringAdjacency: seq<set<nat>>, pairs: set<(nat, nat)>) {
    && |ringAdjacency| == n
    && forall v: nat, u: nat :: v < n && u < n ==> (u in ringAdjacency[v] <==> Key(v, u) in pairs)
  }

  lemma RingMapsNext(n: nat, ringAdjacency: seq<set<nat>>, pairs: set<(nat, nat)>, a: nat, b: nat)
    requires RingMaps(n, ringAdjacency, pairs) && a < n && b < n
    ensures RingMaps(n, Joined(ringAdjacency, a, b), pairs + {Key(a, b)})
  {
    var next := Joined(ringAdjacency, a, b);
    forall v: nat, u: nat | v < n && u < n ensures u in next[v] <==> Key(v, u) in pairs + {Key(a, b)} {
      assert u in ringAdjacency[v] <==> Key(v, u) in pairs;
    }
  }

  /** Nothing joins two nodes of the ring yet. */
  ghost predicate Bare(edges: seq<Edge>, ring: seq<nat>) {
    forall p :: p in Pairs(edges) ==> !(p.0 in ring && p.1 in ring)
  }

  /** One edge of a ring. */
  method AddRingEdge(b: Builder, ring: seq<nat>, i: nat, ghost before: set<(nat, nat)>)
    requires b.Valid() && AllPlain(b.edges) && Ascending(ring) && i < |ring| && |ring| >= 3
    requires ring[i] < b.n && ring[Next(|ring|, i)] < b.n
    requires Pairs(b.edges) == before + RingPairs(ring, i) && Key(ring[i], ring[Next(|ring|, i)]) !in before
    modifies b`edges, b`adjacency
    ensures b.Valid() && AllPlain(b.edges)
    ensures Pairs(b.edges) == before + RingPairs(ring, i + 1) && |b.edges| == |old(b.edges)| + 1
  {
    var node, next := ring[i], ring[Next(|ring|, i)];
    AscendingDistinct(ring);
    RingPairNew(ring, i);
    assert next !in b.adjacency[node];
    b.AddSimple(node, next);
  }

  /** The first i edges of the ring are in, and in the maps. */
  ghost predicate RingTo(b: Builder, ring: seq<nat>, ringAdjacency: seq<set<nat>>, before: set<(nat, nat)>,
                         pairs: set<(nat, nat)>, i: nat)
    reads b
  {
    && b.Valid() && AllPlain(b.edges) && i <= |ring|
    && Pairs(b.edges) == before + RingPairs(ring, i)
    && RingMaps(b.n, ringAdjacency, pairs + RingPairs(ring, i))
  }

  method ExtendRing(b: Builder, ring: seq<nat>, ringAdjacency: seq<set<nat>>, ghost before: set<(nat, nat)>,
                    ghost pairs: set<(nat, nat)>, i: nat)
    returns (ringAdjacency': seq<set<nat>>)
    requires RingTo(b, ring, ringAdjacency, before, pairs, i) && i < |ring|
    requires Ascending(ring) && |ring| >= 3 && (forall k :: 0 <= k < |ring| ==> ring[k] < b.n)
    requires forall p :: p in before ==> !(p.0 in ring && p.1 in ring)
    modifies b`edges, b`adjacency
    ensures RingTo(b, ring, ringAdjacency', before, pairs, i + 1) && |b.edges| == |old(b.edges)| + 1
  {
    AheadIsModulo(|ring|, i, 1);
    var node := ring[i];
    var next := ring[(i + 1) % |ring|];
    assert node in ring && next in ring;
    AddRingEdge(b, ring, i, before);
    RingMapsNext(b.n, ringAdjacency, pairs + RingPairs(ring, i), node, next);
    RingPairsGrow(ring, i, pairs);
    ringAdjacency' := ringAdjacency[node := ringAdjacency[node] + {next}];
    ringAdjacency' := ringAdjacency'[next := ringAdjacency'[next] + {node}];
  }

  method AddRing(b: Builder, ring: seq<nat>, ringAdjacency: seq<set<nat>>, ghost pairs: set<(nat, nat)>)
    returns (ringAdjacency': seq<set<nat>>)
    requires b.Valid() && Ascending(ring) && |ring| >= 3 && (forall i :: 0 <= i < |ring| ==> ring[i] < b.n)
    requires AllPlain(b.edges) && Bare(b.edges, ring) && RingMaps(b.n, ringAdjacency, pairs)
    modifies b`edges, b`adjacency
    ensures b.Valid() && AllPlain(b.edges)
    ensures Pairs(b.edges) == Pairs(old(b.edges)) + RingPairs(ring, |ring|) && |b.edges| == |old(b.edges)| + |ring|
    ensures RingMaps(b.n, ringAdjacency', pairs + RingPairs(ring, |ring|))
  {
    ringAdjacency' := ringAdjacency;
    ghost var before := Pairs(b.edges);
    assert before + {} == before && pairs + {} == pairs;
    for i := 0 to |ring|
      invariant RingTo(b, ring, ringAdjacency', before, pairs, i) && |b.edges| == |old(b.edges)| + i
    {
      ringAdjacency' := ExtendRing(b, ring, ringAdjacency', before, pairs, i);
    }
  }

  lemma RingPairsGrow(ring: seq<nat>, i: nat, pairs: set<(nat, nat)>)
    requires i < |ring|
    ensures pairs + RingPairs(ring, i) + {Key(ring[i], ring[Next(|ring|, i)])} == pairs + RingPairs(ring, i + 1)
  {}

  /** The access links after the first k outer nodes. */
  ghost predicate AccessUpTo(inner: seq<nat>, outer: seq<nat>, adjacency: seq<set<nat>>, beta: nat, k: nat) {
    forall i: nat {:trigger outer[i]} :: i < |outer| ==>
      HasAccess(adjacency, inner, outer[i], if i < k then beta else 0)
  }

  /** Both rings closed; the maps know exactly their edges. */
  method AddRings(n: nat, inner: seq<nat>, outer: seq<nat>) returns (b: Builder, ringAdjacency: seq<set<nat>>)
    requires TwoRings(n, inner, outer)
    ensures fresh(b) && b.n == n && b.Valid() && Ringed(n, inner, outer, b.edges, b.adjacency, 0)
    ensures |b.edges| == |inner| + |outer|
    ensures RingMaps(n, ringAdjacency, RingPairs(inner, |inner|) + RingPairs(outer, |outer|))
    ensures forall beta: nat :: AccessUpTo(inner, outer, b.adjacency, beta, 0)
  {
    b := new Builder(n);
    ringAdjacency := seq(n, _ => {});
    assert Pairs(b.edges) == {};
    InRangeOf(n, inner, outer);
    ringAdjacency := AddRing(b, inner, ringAdjacency, {});
    InnerRingIsBare(n, inner, outer, b.edges);
    ringAdjacency := AddRing(b, outer, ringAdjacency, {} + RingPairs(inner, |inner|));
    assert {} + RingPairs(inner, |inner|) + RingPairs(outer, |outer|)
      == RingPairs(inner, |inner|) + RingPairs(outer, |outer|);
    RingsTally(n, inner, outer, b.edges);
    NoAccessYet(n, inner, outer, b.edges, b.adjacency);
  }

  lemma InnerRingIsBare(n: nat, inner: seq<nat>, outer: seq<nat>, edges: seq<Edge>)
    requires TwoRings(n, inner, outer) && Pairs(edges) == {} + RingPairs(inner, |inner|)
    ensures Bare(edges, outer)
  {
    RingPairsInside(inner);
  }

  lemma {:induction false} RingPairsSize(ring: seq<nat>, k: nat)
    requires Distinct(ring) && k <= |ring| && |ring| >= 3
    ensures |RingPairs(ring, k)| == k
  {
    if k > 0 {
      RingPairsSize(ring, k - 1);
      RingPairNew(ring, k - 1);
    }
  }

  /** The two cycles have as many edges as nodes, all of them inside a ring. */
  lemma RingsTally(n: nat, inner: seq<nat>, outer: seq<nat>, edges: seq<Edge>)
    requires TwoRings(n, inner, outer) && |edges| == |inner| + |outer|
    requires Pairs(edges) == {} + RingPairs(inner, |inner|) + RingPairs(outer, |outer|)
    ensures Tally(edges, Elements(inner), Elements(outer), 0)
  {
    AscendingDistinct(inner);
    AscendingDistinct(outer);
    RingPairsSize(inner, |inner|);
    RingPairsSize(outer, |outer|);
    RingPairsInside(inner);
    RingPairsInside(outer);
    OnlyInside(Pairs(edges), RingPairs(inner, |inner|), RingPairs(outer, |outer|), inner);
    OnlyInside(Pairs(edges), RingPairs(outer, |outer|), RingPairs(inner, |inner|), outer);
  }

  lemma OnlyInside(pairs: set<(nat, nat)>, mine: set<(nat, nat)>, other: set<(nat, nat)>, ring: seq<nat>)
    requires forall p :: p in pairs <==> p in mine || p in other
    requires forall p :: p in mine ==> p.0 in ring && p.1 in ring
    requires forall p :: p in other ==> p.0 !in ring
    ensures Within(pairs, Elements(ring)) == mine
  {}

  lemma InRangeOf(n: nat, inner: seq<nat>, outer: seq<nat>)
    requires TwoRings(n, inner, outer)
    ensures forall i :: 0 <= i < |inner| ==> inner[i] < n
    ensures forall i :: 0 <= i < |outer| ==> outer[i] < n
  {
    forall i | 0 <= i < |inner| ensures inner[i] < n {
      assert inner[i] in inner;
    }
    forall i | 0 <= i < |outer| ensures outer[i] < n {
      assert outer[i] in outer;
    }
  }

  lemma RingPairsInside(ring: seq<nat>)
    ensures forall p :: p in RingPairs(ring, |ring|) ==> p.0 in ring && p.1 in ring
  {
    forall p | p in RingPairs(ring, |ring|) ensures p.0 in ring && p.1 in ring {
      RingPairsMember(ring, |ring|, p);
    }
  }

  lemma NoAccessYet(n: nat, inner: seq<nat>, outer: seq<nat>, edges: seq<Edge>, adjacency: seq<set<nat>>)
    requires TwoRings(n, inner, outer) && Consistent(n, edges, adjacency)
    requires Pairs(edges) == RingPairs(inner, |inner|) + RingPairs(outer, |outer|)
    ensures forall beta: nat :: AccessUpTo(inner, outer, adjacency, beta, 0)
  {
    RingPairsInside(inner);
    RingPairsInside(outer);
    forall i: nat | i < |outer| ensures HasAccess(adjacency, inner, outer[i], 0) {
      var v := outer[i];
      assert v in outer;
      assert v < n;
      forall u | u in inner ensures u !in adjacency[v] {
        assert Key(v, u) in Pairs(edges) <==> u in adjacency[v];
      }
      assert AccessOf(adjacency, inner, v) == {};
    }
  }

  /** All outer nodes but the k-th keep their access links. */
  ghost predicate SameAccess(inner: seq<nat>, outer: seq<nat>, k: nat, before: seq<set<nat>>, after: seq<set<nat>>) {
    forall i: nat {:trigger outer[i]} :: i < |outer| && i != k ==>
      outer[i] < |before| && outer[i] < |after| && AccessOf(after, inner, outer[i]) == AccessOf(before, inner, outer[i])
  }

  /** One access link changes the links of its outer node alone. */
  lemma AccessNext(n: nat, inner: seq<nat>, outer: seq<nat>, adjacency: seq<set<nat>>, k: nat, target: nat)
    requires TwoRings(n, inner, outer) && |adjacency| == n && k < |outer| && target in inner
    requires target < n && outer[k] < n && target !in adjacency[outer[k]]
    ensures SameAccess(inner, outer, k, adjacency, Joined(adjacency, outer[k], target))
    ensures AccessOf(Joined(adjacency, outer[k], target), inner, outer[k])
      == AccessOf(adjacency, inner, outer[k]) + {target}
  {
    var after := Joined(adjacency, outer[k], target);
    assert outer[k] in outer && outer[k] !in inner;
    AscendingDistinct(outer);
    forall i: nat | i < |outer| && i != k
      ensures outer[i] < |adjacency| && AccessOf(after, inner, outer[i]) == AccessOf(adjacency, inner, outer[i])
    {
      assert outer[i] in outer && outer[i] != outer[k] && outer[i] !in inner;
    }
  }

  /** The links of one outer node: the first beta of its shuffled candidates. */
  method ConnectOuter(n: nat, b: Builder, inner: seq<nat>, outer: seq<nat>, k: nat, candidates: seq<nat>, beta: nat,
                      ghost x: nat)
    requires b.n == n && b.Valid() && Ringed(n, inner, outer, b.edges, b.adjacency, x) && k < |outer|
    requires Distinct(candidates) && (forall u :: u in candidates ==> u in inner) && beta <= |candidates|
    requires AccessUpTo(inner, outer, b.adjacency, beta, k)
    modifies b`edges, b`adjacency
    ensures b.Valid() && Ringed(n, inner, outer, b.edges, b.adjacency, x + beta)
    ensures AccessUpTo(inner, outer, b.adjacency, beta, k + 1)
    ensures |b.edges| == |old(b.edges)| + beta
  {
    var node := outer[k];
    assert node in outer;
    ghost var before := b.adjacency;
    NoAccess(inner, outer, before, beta, k);
    assert Elements(candidates[..0]) == {};
    var j := 0;
    while j < beta
      invariant 0 <= j <= beta && b.Valid() && Ringed(n, inner, outer, b.edges, b.adjacency, x + j)
      invariant |b.edges| == |old(b.edges)| + j
      invariant AccessOf(b.adjacency, inner, node) == Elements(candidates[..j])
      invariant SameAccess(inner, outer, k, before, b.adjacency)
    {
      LinkOuter(n, b, inner, outer, k, candidates, j, x + j);
      j := j + 1;
    }
    assert Distinct(candidates[..beta]);
    DistinctSize(candidates[..beta]);
    AccessAdvances(inner, outer, before, b.adjacency, beta, k);
  }

  lemma NoAccess(inner: seq<nat>, outer: seq<nat>, adjacency: seq<set<nat>>, beta: nat, k: nat)
    requires AccessUpTo(inner, outer, adjacency, beta, k) && k < |outer|
    ensures outer[k] < |adjacency| && AccessOf(adjacency, inner, outer[k]) == {}
    ensures SameAccess(inner, outer, k, adjacency, adjacency)
  {
    assert HasAccess(adjacency, inner, outer[k], 0);
  }

  method LinkOuter(n: nat, b: Builder, inner: seq<nat>, outer: seq<nat>, k: nat, candidates: seq<nat>, j: nat,
                   ghost x: nat)
    requires b.n == n && b.Valid() && Ringed(n, inner, outer, b.edges, b.adjacency, x) && k < |outer| && outer[k] < n
    requires Distinct(candidates) && (forall u :: u in candidates ==> u in inner) && j < |candidates|
    requires AccessOf(b.adjacency, inner, outer[k]) == Elements(candidates[..j])
    modifies b`edges, b`adjacency
    ensures b.Valid() && Ringed(n, inner, outer, b.edges, b.adjacency, x + 1)
    ensures |b.edges| == |old(b.edges)| + 1
    ensures AccessOf(b.adjacency, inner, outer[k]) == Elements(candidates[..j + 1])
    ensures forall before :: SameAccess(inner, outer, k, before, old(b.adjacency)) ==>
      SameAccess(inner, outer, k, before, b.adjacency)
  {
    var node, target := outer[k], candidates[j];
    assert node in outer && target in candidates && target in inner;
    assert target !in candidates[..j];
    assert target !in AccessOf(b.adjacency, inner, node);
    AcrossKeepsRinged(n, inner, outer, b.edges, b.adjacency, x, Plain(node, target), node, target);
    AccessNext(n, inner, outer, b.adjacency, k, target);
    b.AddSimple(node, target);
    assert candidates[..j + 1] == candidates[..j] + [target];
  }

  lemma AccessAdvances(inner: seq<nat>, outer: seq<nat>, before: seq<set<nat>>, after: seq<set<nat>>, beta: nat, k: nat)
    requires AccessUpTo(inner, outer, before, beta, k) && k < |outer|
    requires outer[k] < |after| && |AccessOf(after, inner, outer[k])| == beta
    requires SameAccess(inner, outer, k, before, after)
    ensures AccessUpTo(inner, outer, after, beta, k + 1)
  {
    forall i: nat | i < |outer| ensures HasAccess(after, inner, outer[i], if i < k + 1 then beta else 0) {
      assert HasAccess(before, inner, outer[i], if i < k then beta else 0);
    }
  }

  /** The access links of the k-th outer node. */
  method ConnectOuterAt(n: nat, b: Builder, inner: seq<nat>, outer: seq<nat>, k: nat, beta: nat, rng: Rand,
                        ghost x: nat)
    requires b.n == n && b.Valid() && Ringed(n, inner, outer, b.edges, b.adjacency, x) && k < |outer| && beta <= |inner|
    requires AccessUpTo(inner, outer, b.adjacency, beta, k)
    modifies b`edges, b`adjacency
    ensures b.Valid() && Ringed(n, inner, outer, b.edges, b.adjacency, x + beta)
    ensures AccessUpTo(inner, outer, b.adjacency, beta, k + 1)
    ensures |b.edges| == |old(b.edges)| + beta
  {
    var candidates := rng.Shuffle(inner);
    AscendingDistinct(inner);
    PermutationDistinct(inner, candidates);
    forall u | u in candidates ensures u in inner {
      PermutationMembers(inner, candidates, u);
    }
    ConnectOuter(n, b, inner, outer, k, candidates, beta, x);
  }

  lemma TimesNext(k: nat, beta: nat)
    ensures (k + 1) * beta == k * beta + beta
  {}

  method ConnectOuterRing(n: nat, b: Builder, inner: seq<nat>, outer: seq<nat>, beta: nat, rng: Rand)
    requires b.n == n && b.Valid() && Ringed(n, inner, outer, b.edges, b.adjacency, 0) && beta <= |inner|
    requires AccessUpTo(inner, outer, b.adjacency, beta, 0)
    modifies b`edges, b`adjacency
    ensures b.Valid() && Wired(n, inner, outer, beta, b.edges, b.adjacency)
    ensures |b.edges| == |old(b.edges)| + |outer| * beta
  {
    ghost var x: nat := 0;
    var k := 0;
    while k < |outer|
      invariant 0 <= k <= |outer| && b.Valid() && Ringed(n, inner, outer, b.edges, b.adjacency, x)
      invariant AccessUpTo(inner, outer, b.adjacency, beta, k)
      invariant |b.edges| == |old(b.edges)| + x && x == k * beta
    {
      ConnectOuterAt(n, b, inner, outer, k, beta, rng, x);
      TimesNext(k, beta);
      x := x + beta;
      k := k + 1;
    }
    AllHaveAccess(inner, outer, b.adjacency, beta, k);
  }

  lemma AllHaveAccess(inner: seq<nat>, outer: seq<nat>, adjacency: seq<set<nat>>, beta: nat, k: nat)
    requires AccessUpTo(inner, outer, adjacency, beta, k) && k == |outer|
    ensures forall v: nat :: v in outer ==> HasAccess(adjacency, inner, v, beta)
  {
    forall v: nat | v in outer ensures HasAccess(adjacency, inner, v, beta) {
      var i: nat :| i < |outer| && outer[i] == v;
    }
  }
}
