/**
 * What the double-ring construction keeps: its rings, its access links and the count of its edges.
 *
 * Edges are counted by where they lie, inside the inner ring, inside the outer ring or across, which
 * bounds the whole by two complete rings and the access links.
 */
module DoubleRing {
  import opened EdgeLists
  import opened Rings
  import opened Sequences

  ghost function Within(pairs: set<(nat, nat)>, s: set<nat>): set<(nat, nat)> {
    set p | p in pairs && p.0 in s && p.1 in s
  }

  /** Edges inside the one set, inside the other, and x edges between them. */
  ghost predicate Tally(edges: seq<Edge>, s: set<nat>, t: set<nat>, x: nat) {
    |edges| == |Within(Pairs(edges), s)| + |Within(Pairs(edges), t)| + x
  }

  lemma WithinNext(edges: seq<Edge>, e: Edge, s: set<nat>)
    requires e.Pair() !in Pairs(edges)
    ensures |Within(Pairs(edges + [e]), s)| == |Within(Pairs(edges), s)| + if e.a in s && e.b in s then 1 else 0
  {
    PairsAppend(edges, e);
    var before, after := Within(Pairs(edges), s), Within(Pairs(edges + [e]), s);
    if e.a in s && e.b in s {
      assert after == before + {e.Pair()};
    } else {
      assert after == before;
    }
  }

  lemma TallyInside(edges: seq<Edge>, e: Edge, s: set<nat>, t: set<nat>, x: nat)
    requires Tally(edges, s, t, x) && s !! t && e.Pair() !in Pairs(edges)
    requires (e.a in s && e.b in s) || (e.a in t && e.b in t)
    ensures Tally(edges + [e], s, t, x)
  {
    WithinNext(edges, e, s);
    WithinNext(edges, e, t);
    assert e.a in s ==> e.a !in t;
  }

  lemma TallyAcross(edges: seq<Edge>, e: Edge, s: set<nat>, t: set<nat>, x: nat)
    requires Tally(edges, s, t, x) && s !! t && e.Pair() !in Pairs(edges)
    requires (e.a in s && e.b in t) || (e.a in t && e.b in s)
    ensures Tally(edges + [e], s, t, x + 1)
  {
    WithinNext(edges, e, s);
    WithinNext(edges, e, t);
    assert e.a in s ==> e.a !in t;
    assert e.b in s ==> e.b !in t;
  }

  /** The number of pairs among l nodes. */
  ghost function Choose2(l: nat): nat {
    if l == 0 then 0 else Choose2(l - 1) + (l - 1)
  }

  lemma {:induction false} Choose2ClosedForm(l: nat)
    ensures 2 * Choose2(l) == l * (l - 1)
  {
    if l > 0 {
      Choose2ClosedForm(l - 1);
      assert l * (l - 1) == (l - 1) * (l - 2) + 2 * (l - 1);
    }
  }

  ghost function PairedWith(s: seq<nat>, last: nat): set<(nat, nat)> {
    if s == [] then {} else PairedWith(s[..|s| - 1], last) + {(s[|s| - 1], last)}
  }

  lemma {:induction false} PairedWithMember(s: seq<nat>, last: nat, p: (nat, nat))
    ensures p in PairedWith(s, last) <==> p.0 in s && p.1 == last
  {
    if s != [] {
      PairedWithMember(s[..|s| - 1], last, p);
      assert s == s[..|s| - 1] + [s[|s| - 1]];
    }
  }

  lemma {:induction false} PairedWithSize(s: seq<nat>, last: nat)
    requires Distinct(s)
    ensures |PairedWith(s, last)| == |s|
  {
    if s != [] {
      var front := s[..|s| - 1];
      PairedWithSize(front, last);
      PairedWithMember(front, last, (s[|s| - 1], last));
    }
  }

  ghost function AllPairs(ring: seq<nat>): set<(nat, nat)> {
    if ring == [] then {}
    else AllPairs(ring[..|ring| - 1]) + PairedWith(ring[..|ring| - 1], ring[|ring| - 1])
  }

  lemma {:induction false} AllPairsMember(ring: seq<nat>, p: (nat, nat))
    requires Ascending(ring)
    ensures p in AllPairs(ring) <==> p.0 < p.1 && p.0 in ring && p.1 in ring
  {
    if ring != [] {
      var front, last := ring[..|ring| - 1], ring[|ring| - 1];
      AscendingFront(ring);
      AllPairsMember(front, p);
      PairedWithMember(front, last, p);
      assert ring == front + [last];
    }
  }

  lemma AscendingFront(ring: seq<nat>)
    requires Ascending(ring) && ring != []
    ensures Ascending(ring[..|ring| - 1])
    ensures forall i :: 0 <= i < |ring| - 1 ==> ring[i] < ring[|ring| - 1]
  {
    var front := ring[..|ring| - 1];
    forall i, j ensures InOrder(front, i, j) {
      assert InOrder(ring, i, j);
    }
    forall i | 0 <= i < |ring| - 1 ensures ring[i] < ring[|ring| - 1] {
      assert InOrder(ring, i, |ring| - 1);
    }
  }

  lemma {:induction false} AllPairsSize(ring: seq<nat>)
    requires Ascending(ring)
    ensures |AllPairs(ring)| == Choose2(|ring|)
  {
    if ring != [] {
      var front, last := ring[..|ring| - 1], ring[|ring| - 1];
      AscendingFront(ring);
      AscendingDistinct(front);
      AllPairsSize(front);
      PairedWithSize(front, last);
      forall p | p in PairedWith(front, last) ensures p !in AllPairs(front) {
        PairedWithMember(front, last, p);
        AllPairsMember(front, p);
      }
      assert AllPairs(front) !! PairedWith(front, last);
    }
  }

  /** A ring holds at most all its pairs, and exactly so many when none is missing. */
  lemma RingCapacity(n: nat, edges: seq<Edge>, ring: seq<nat>)
    requires SimpleEdges(n, edges) && Ascending(ring)
    ensures |Within(Pairs(edges), Elements(ring))| <= Choose2(|ring|)
    ensures (forall a: nat, b: nat :: a in ring && b in ring && a < b ==> Key(a, b) in Pairs(edges)) ==>
      |Within(Pairs(edges), Elements(ring))| == Choose2(|ring|)
  {
    var inside := Within(Pairs(edges), Elements(ring));
    AllPairsSize(ring);
    forall p ensures p in inside ==> p in AllPairs(ring) {
      AllPairsMember(ring, p);
    }
    SubsetSize(inside, AllPairs(ring));
    if forall a: nat, b: nat :: a in ring && b in ring && a < b ==> Key(a, b) in Pairs(edges) {
      forall p | p in AllPairs(ring) ensures p in inside {
        AllPairsMember(ring, p);
        assert Key(p.0, p.1) == p;
      }
      assert inside == AllPairs(ring);
    }
  }

  ghost function AccessOf(adjacency: seq<set<nat>>, inner: seq<nat>, v: nat): set<nat>
    requires v < |adjacency|
  {
    set u | u in adjacency[v] && u in inner
  }

  /** The inner neighbours of an inner node that are not its ring neighbours. */
  ghost function ShortcutsOf(adjacency: seq<set<nat>>, inner: seq<nat>, v: nat): set<nat>
    requires v < |adjacency|
  {
    set u | u in adjacency[v] && u in inner && Key(v, u) !in RingPairs(inner, |inner|)
  }

  ghost predicate HasAccess(adjacency: seq<set<nat>>, inner: seq<nat>, v: nat, beta: nat) {
    v < |adjacency| && |AccessOf(adjacency, inner, v)| == beta
  }

  ghost predicate HasShortcuts(adjacency: seq<set<nat>>, inner: seq<nat>, v: nat, beta: nat) {
    v < |adjacency| && |ShortcutsOf(adjacency, inner, v)| >= beta
  }

  /** Two disjoint rings over all nodes, large enough to be cycles. */
  ghost predicate TwoRings(n: nat, inner: seq<nat>, outer: seq<nat>) {
    && |inner| >= 4 && |outer| >= 3
    && Ascending(inner) && Ascending(outer)
    && (forall v: nat :: v in inner || v in outer <==> v < n)
    && (forall v: nat :: !(v in inner && v in outer))
  }

  /** Both rings are closed, and x edges lead from the outer ring to the inner one; no edge has a baseline. */
  ghost predicate Ringed(n: nat, inner: seq<nat>, outer: seq<nat>, edges: seq<Edge>, adjacency: seq<set<nat>>, x: nat) {
    && TwoRings(n, inner, outer)
    && Consistent(n, edges, adjacency) && AllPlain(edges)
    && RingPairs(inner, |inner|) <= Pairs(edges)
    && RingPairs(outer, |outer|) <= Pairs(edges)
    && Tally(edges, Elements(inner), Elements(outer), x)
  }

  /** The access links are in place: exactly beta from every outer node. */
  ghost predicate Wired(n: nat, inner: seq<nat>, outer: seq<nat>, beta: nat, edges: seq<Edge>,
                        adjacency: seq<set<nat>>) {
    && Ringed(n, inner, outer, edges, adjacency, |outer| * beta)
    && forall v: nat {:trigger HasAccess(adjacency, inner, v, beta)} :: v in outer ==>
         HasAccess(adjacency, inner, v, beta)
  }

  ghost predicate SameSide(inner: seq<nat>, outer: seq<nat>, a: nat, b: nat) {
    (a in inner && b in inner) || (a in outer && b in outer)
  }

  lemma SidesApart(n: nat, inner: seq<nat>, outer: seq<nat>)
    requires TwoRings(n, inner, outer)
    ensures Elements(inner) !! Elements(outer)
  {}

  lemma InsideKeepsRinged(n: nat, inner: seq<nat>, outer: seq<nat>, edges: seq<Edge>, adjacency: seq<set<nat>>, x: nat,
                          e: Edge, a: nat, b: nat)
    requires Ringed(n, inner, outer, edges, adjacency, x) && SameSide(inner, outer, a, b)
    requires a < n && b < n && a != b && b !in adjacency[a] && e.Pair() == Key(a, b) && e.baseline.None?
    ensures Ringed(n, inner, outer, edges + [e], Joined(adjacency, a, b), x)
  {
    JoinKeepsConsistent(n, edges, adjacency, e, a, b);
    SidesApart(n, inner, outer);
    TallyInside(edges, e, Elements(inner), Elements(outer), x);
  }

  lemma AcrossKeepsRinged(n: nat, inner: seq<nat>, outer: seq<nat>, edges: seq<Edge>, adjacency: seq<set<nat>>, x: nat,
                          e: Edge, a: nat, b: nat)
    requires Ringed(n, inner, outer, edges, adjacency, x) && a in outer && b in inner
    requires a < n && b < n && b !in adjacency[a] && e.Pair() == Key(a, b) && e.baseline.None?
    ensures Ringed(n, inner, outer, edges + [e], Joined(adjacency, a, b), x + 1)
  {
    assert a != b;
    JoinKeepsConsistent(n, edges, adjacency, e, a, b);
    SidesApart(n, inner, outer);
    TallyAcross(edges, e, Elements(inner), Elements(outer), x);
  }

  /** An edge inside a ring leaves every outer node its access links. */
  lemma InsideKeepsAccess(n: nat, inner: seq<nat>, outer: seq<nat>, adjacency: seq<set<nat>>, a: nat, b: nat, v: nat)
    requires TwoRings(n, inner, outer) && |adjacency| == n && a < n && b < n
    requires SameSide(inner, outer, a, b) && v in outer
    ensures v < n && AccessOf(Joined(adjacency, a, b), inner, v) == AccessOf(adjacency, inner, v)
  {
    assert v !in inner;
    if a in outer {
      assert a !in inner && b !in inner;
    } else {
      assert v != a && v != b;
    }
  }

  lemma InsideKeepsWired(n: nat, inner: seq<nat>, outer: seq<nat>, beta: nat, edges: seq<Edge>,
                         adjacency: seq<set<nat>>,
                         e: Edge, a: nat, b: nat)
    requires Wired(n, inner, outer, beta, edges, adjacency) && SameSide(inner, outer, a, b)
    requires a < n && b < n && a != b && b !in adjacency[a] && e.Pair() == Key(a, b) && e.baseline.None?
    ensures Wired(n, inner, outer, beta, edges + [e], Joined(adjacency, a, b))
  {
    InsideKeepsRinged(n, inner, outer, edges, adjacency, |outer| * beta, e, a, b);
    forall v: nat | v in outer ensures HasAccess(Joined(adjacency, a, b), inner, v, beta) {
      assert HasAccess(adjacency, inner, v, beta);
      InsideKeepsAccess(n, inner, outer, adjacency, a, b, v);
    }
  }

  ghost predicate Grows(adjacency: seq<set<nat>>, more: seq<set<nat>>) {
    && |more| == |adjacency|
    && forall v: nat {:trigger more[v]} :: v < |more| ==> adjacency[v] <= more[v]
  }

  lemma ShortcutsStay(adjacency: seq<set<nat>>, more: seq<set<nat>>, inner: seq<nat>, v: nat, beta: nat)
    requires Grows(adjacency, more) && HasShortcuts(adjacency, inner, v, beta)
    ensures HasShortcuts(more, inner, v, beta)
  {
    assert adjacency[v] <= more[v];
    SubsetSize(ShortcutsOf(adjacency, inner, v), ShortcutsOf(more, inner, v));
  }

  /** No more edges fit than both complete rings and the access links. */
  lemma WiredCapacity(n: nat, inner: seq<nat>, outer: seq<nat>, beta: nat, edges: seq<Edge>, adjacency: seq<set<nat>>)
    requires Wired(n, inner, outer, beta, edges, adjacency)
    ensures |edges| <= Choose2(|inner|) + Choose2(|outer|) + |outer| * beta
    ensures (forall a: nat, b: nat :: a < b && SameSide(inner, outer, a, b) ==> Key(a, b) in Pairs(edges)) ==>
      |edges| == Choose2(|inner|) + Choose2(|outer|) + |outer| * beta
  {
    RingCapacity(n, edges, inner);
    RingCapacity(n, edges, outer);
  }

  /** Between the ring neighbours, the shortcuts and itself an inner node sees the whole inner ring. */
  lemma InnerNeighborCount(n: nat, inner: seq<nat>, edges: seq<Edge>, adjacency: seq<set<nat>>, v: nat)
    requires Consistent(n, edges, adjacency) && Distinct(inner) && |inner| >= 3 && v in inner
    requires (forall u :: u in inner ==> u < n) && RingPairs(inner, |inner|) <= Pairs(edges)
    ensures v < n && |AccessOf(adjacency, inner, v)| == |ShortcutsOf(adjacency, inner, v)| + 2
  {
    var i :| 0 <= i < |inner| && inner[i] == v;
    var next, prev := inner[Next(|inner|, i)], inner[Prev(|inner|, i)];
    CycleNeighbors(inner, i, next);
    CycleNeighbors(inner, i, prev);
    assert next in inner && prev in inner;
    var shortcuts := ShortcutsOf(adjacency, inner, v);
    forall u ensures u in AccessOf(adjacency, inner, v) <==> u in shortcuts + {next, prev} {
      if u in inner {
        CycleNeighbors(inner, i, u);
        assert Key(v, u) in Pairs(edges) <==> u in adjacency[v];
      }
    }
    assert AccessOf(adjacency, inner, v) == shortcuts + {next, prev};
    assert next !in shortcuts && prev !in shortcuts;
    TwoMore(shortcuts, next, prev);
  }

  lemma TwoMore(s: set<nat>, a: nat, b: nat)
    requires a !in s && b !in s && a != b
    ensures |s + {a, b}| == |s| + 2
  {
    assert s + {a, b} == s + {a} + {b};
  }

  /** With beta at most |inner| - 3 enough targets remain for any number of missing shortcuts. */
  lemma EnoughTargets(n: nat, inner: seq<nat>, edges: seq<Edge>, adjacency: seq<set<nat>>, v: nat, targets: seq<nat>)
    requires Consistent(n, edges, adjacency) && Distinct(inner) && |inner| >= 3 && v in inner
    requires (forall u :: u in inner ==> u < n) && RingPairs(inner, |inner|) <= Pairs(edges)
    requires Distinct(targets) && forall u :: u in targets <==> u in inner && u != v && v < n && u !in adjacency[v]
    ensures v < n && |targets| + |ShortcutsOf(adjacency, inner, v)| == |inner| - 3
  {
    InnerNeighborCount(n, inner, edges, adjacency, v);
    var access := AccessOf(adjacency, inner, v);
    assert v !in access by {
      assert v in adjacency[v] ==> Adjoins(adjacency, v, v);
    }
    assert Elements(inner) == Elements(targets) + access + {v};
    DistinctSize(inner);
    DistinctSize(targets);
    assert Elements(targets) !! access;
    DisjointSizes(Elements(targets), access, v);
  }

  lemma DisjointSizes(s: set<nat>, t: set<nat>, v: nat)
    requires s !! t && v !in s && v !in t
    ensures |s + t + {v}| == |s| + |t| + 1
  {}
}
