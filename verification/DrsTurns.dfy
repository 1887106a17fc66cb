/**
 * The shortcut turns of the double-ring generator: what each turn adds, and how many edges that makes.
 *
 * A turn adds exactly what its node lacks, so at most beta edges; and each shortcut is seen from both
 * of its ends, so beta of them at every inner node take at least half as many edges as they are seen.
 */
module DrsTurns {
  import opened DoubleRing
  import opened DrsGenerator
  import opened EdgeLists
  import opened Rings
  import opened Sequences

  datatype Stage = Stage(edges: seq<Edge>, adjacency: seq<set<nat>>)

  /** The edges a turn of node v adds: each joins v to another inner node. */
  ghost predicate JoinsInner(inner: seq<nat>, v: nat, e: Edge) {
    e.a < e.b && ((e.a == v && e.b in inner) || (e.b == v && e.a in inner))
  }

  ghost predicate Extended(inner: seq<nat>, v: nat, s: seq<Edge>, t: seq<Edge>, k: nat) {
    && |t| == |s| + k && t[..|s|] == s
    && forall i :: |s| <= i < |t| ==> JoinsInner(inner, v, t[i])
  }

  lemma ExtendedNext(inner: seq<nat>, v: nat, s: seq<Edge>, t: seq<Edge>, k: nat, e: Edge)
    requires Extended(inner, v, s, t, k) && JoinsInner(inner, v, e)
    ensures Extended(inner, v, s, t + [e], k + 1)
  {
    assert (t + [e])[..|s|] == t[..|s|];
  }

  /** The shortcuts a node still lacks. */
  ghost function Missing(inner: seq<nat>, beta: nat, v: nat, adjacency: seq<set<nat>>): (r: nat)
    requires v < |adjacency|
    ensures r <= beta
  {
    var count := |ShortcutsOf(adjacency, inner, v)|;
    if count >= beta then 0 else beta - count
  }

  /** The turn of node v adds exactly the shortcuts that v lacks at that moment. */
  ghost predicate Turn(inner: seq<nat>, beta: nat, v: nat, s: Stage, t: Stage) {
    && v in inner && v < |s.adjacency|
    && Extended(inner, v, s.edges, t.edges, Missing(inner, beta, v, s.adjacency))
  }

  ghost predicate TurnAt(inner: seq<nat>, beta: nat, order: seq<nat>, stages: seq<Stage>, i: int) {
    0 <= i < |order| && i + 1 < |stages| ==> Turn(inner, beta, order[i], stages[i], stages[i + 1])
  }

  ghost predicate WiredAt(n: nat, inner: seq<nat>, outer: seq<nat>, beta: nat, stages: seq<Stage>, i: int) {
    0 <= i < |stages| ==> Wired(n, inner, outer, beta, stages[i].edges, stages[i].adjacency)
  }

  /** The first turns, one for each node of the order so far. */
  ghost predicate Turns(n: nat, inner: seq<nat>, outer: seq<nat>, beta: nat, order: seq<nat>, stages: seq<Stage>) {
    && 0 < |stages| <= |order| + 1
    && (forall i {:trigger WiredAt(n, inner, outer, beta, stages, i)} :: WiredAt(n, inner, outer, beta, stages, i))
    && forall i {:trigger TurnAt(inner, beta, order, stages, i)} :: TurnAt(inner, beta, order, stages, i)
  }

  lemma TurnsStart(n: nat, inner: seq<nat>, outer: seq<nat>, beta: nat, order: seq<nat>, s: Stage)
    requires Wired(n, inner, outer, beta, s.edges, s.adjacency)
    ensures Turns(n, inner, outer, beta, order, [s])
  {
    forall i ensures WiredAt(n, inner, outer, beta, [s], i) && TurnAt(inner, beta, order, [s], i) {}
  }

  lemma TurnsNext(n: nat, inner: seq<nat>, outer: seq<nat>, beta: nat, order: seq<nat>, stages: seq<Stage>, t: Stage)
    requires Turns(n, inner, outer, beta, order, stages) && |stages| <= |order|
    requires Wired(n, inner, outer, beta, t.edges, t.adjacency)
    requires Turn(inner, beta, order[|stages| - 1], stages[|stages| - 1], t)
    ensures Turns(n, inner, outer, beta, order, stages + [t])
  {
    forall i ensures WiredAt(n, inner, outer, beta, stages + [t], i) {
      assert WiredAt(n, inner, outer, beta, stages, i);
    }
    forall i ensures TurnAt(inner, beta, order, stages + [t], i) {
      assert TurnAt(inner, beta, order, stages, i);
    }
  }

  /** Edges are only appended, at most beta in a turn. */
  lemma {:induction false} TurnsBound(n: nat, inner: seq<nat>, outer: seq<nat>, beta: nat, order: seq<nat>,
                                      stages: seq<Stage>, i: nat)
    requires Turns(n, inner, outer, beta, order, stages) && i < |stages|
    ensures |stages[0].edges| <= |stages[i].edges| <= |stages[0].edges| + i * beta
    ensures stages[i].edges[..|stages[0].edges|] == stages[0].edges
  {
    if i > 0 {
      TurnsBound(n, inner, outer, beta, order, stages, i - 1);
      assert TurnAt(inner, beta, order, stages, i - 1);
      TimesNext(i - 1, beta);
      var first, before := |stages[0].edges|, stages[i - 1].edges;
      assert stages[i].edges[..|before|][..first] == before[..first];
    }
  }

  // Every shortcut is one of at most two nodes

  ghost function Ends(v: nat, s: set<nat>): set<(nat, nat)> {
    set u | u in s :: (v, u)
  }

  lemma {:induction false} EndsSize(v: nat, s: set<nat>)
    ensures |Ends(v, s)| == |s|
  {
    if u :| u in s {
      EndsSize(v, s - {u});
      assert Ends(v, s) == Ends(v, s - {u}) + {(v, u)};
    }
  }

  ghost function Flipped(s: set<(nat, nat)>): set<(nat, nat)> {
    set p | p in s :: (p.1, p.0)
  }

  lemma {:induction false} FlippedSize(s: set<(nat, nat)>)
    ensures |Flipped(s)| <= |s|
  {
    if p :| p in s {
      FlippedSize(s - {p});
      assert Flipped(s) == Flipped(s - {p}) + {(p.1, p.0)};
    }
  }

  /** The shortcuts of the first k inner nodes, each seen from its node. */
  ghost function Seen(inner: seq<nat>, adjacency: seq<set<nat>>, k: nat): set<(nat, nat)>
    requires k <= |inner| && forall i :: 0 <= i < |inner| ==> inner[i] < |adjacency|
  {
    if k == 0 then {}
    else Seen(inner, adjacency, k - 1) + Ends(inner[k - 1], ShortcutsOf(adjacency, inner, inner[k - 1]))
  }

  lemma {:induction false} SeenMembers(inner: seq<nat>, adjacency: seq<set<nat>>, k: nat, p: (nat, nat))
    requires k <= |inner| && forall i :: 0 <= i < |inner| ==> inner[i] < |adjacency|
    requires p in Seen(inner, adjacency, k)
    ensures p.0 in inner[..k] && p.0 < |adjacency| && p.1 in ShortcutsOf(adjacency, inner, p.0)
  {
    assert inner[..k] == if k == 0 then [] else inner[..k - 1] + [inner[k - 1]];
    if k > 0 && p in Seen(inner, adjacency, k - 1) {
      SeenMembers(inner, adjacency, k - 1, p);
    }
  }

  lemma SeenApart(inner: seq<nat>, adjacency: seq<set<nat>>, k: nat, s: set<nat>)
    requires 0 < k <= |inner| && Distinct(inner) && forall i :: 0 <= i < |inner| ==> inner[i] < |adjacency|
    ensures Seen(inner, adjacency, k - 1) !! Ends(inner[k - 1], s)
  {
    assert inner[k - 1] !in inner[..k - 1];
    forall p | p in Seen(inner, adjacency, k - 1) ensures p.0 != inner[k - 1] {
      SeenMembers(inner, adjacency, k - 1, p);
    }
  }

  ghost predicate ServedAt(inner: seq<nat>, adjacency: seq<set<nat>>, beta: nat, i: int) {
    0 <= i < |inner| ==> HasShortcuts(adjacency, inner, inner[i], beta)
  }

  lemma SeenNext(inner: seq<nat>, adjacency: seq<set<nat>>, beta: nat, k: nat)
    requires k < |inner| && Distinct(inner) && forall i :: 0 <= i < |inner| ==> inner[i] < |adjacency|
    requires HasShortcuts(adjacency, inner, inner[k], beta)
    ensures |Seen(inner, adjacency, k + 1)| >= |Seen(inner, adjacency, k)| + beta
  {
    var s := ShortcutsOf(adjacency, inner, inner[k]);
    SeenApart(inner, adjacency, k + 1, s);
    EndsSize(inner[k], s);
  }

  lemma OneMore(x: nat, y: nat, k: nat, beta: nat)
    requires x >= k * beta && y >= x + beta
    ensures y >= (k + 1) * beta
  {
    TimesNext(k, beta);
  }

  lemma {:induction false} SeenSize(inner: seq<nat>, adjacency: seq<set<nat>>, beta: nat, k: nat)
    requires k <= |inner| && Distinct(inner) && forall i :: 0 <= i < |inner| ==> inner[i] < |adjacency|
    requires forall i {:trigger ServedAt(inner, adjacency, beta, i)} :: ServedAt(inner, adjacency, beta, i)
    ensures |Seen(inner, adjacency, k)| >= k * beta
  {
    if k > 0 {
      assert ServedAt(inner, adjacency, beta, k - 1);
      SeenSize(inner, adjacency, beta, k - 1);
      SeenNext(inner, adjacency, beta, k - 1);
      OneMore(|Seen(inner, adjacency, k - 1)|, |Seen(inner, adjacency, k)|, k - 1, beta);
    }
  }

  /** The pairs inside the inner ring that are not its ring edges. */
  ghost function ShortcutPairs(inner: seq<nat>, edges: seq<Edge>): set<(nat, nat)> {
    Within(Pairs(edges), Elements(inner)) - RingPairs(inner, |inner|)
  }

  lemma SeenIsShortcutPair(n: nat, inner: seq<nat>, edges: seq<Edge>, adjacency: seq<set<nat>>, p: (nat, nat))
    requires Consistent(n, edges, adjacency) && forall i :: 0 <= i < |inner| ==> inner[i] < n
    requires p in Seen(inner, adjacency, |inner|)
    ensures p in ShortcutPairs(inner, edges) || (p.1, p.0) in ShortcutPairs(inner, edges)
  {
    SeenMembers(inner, adjacency, |inner|, p);
    assert inner[..|inner|] == inner;
    assert Key(p.0, p.1) in Pairs(edges) <==> p.1 in adjacency[p.0];
  }

  lemma SeenAreShortcutPairs(n: nat, inner: seq<nat>, edges: seq<Edge>, adjacency: seq<set<nat>>)
    requires Consistent(n, edges, adjacency) && forall i :: 0 <= i < |inner| ==> inner[i] < n
    ensures Seen(inner, adjacency, |inner|) <= ShortcutPairs(inner, edges) + Flipped(ShortcutPairs(inner, edges))
  {
    forall p: (nat, nat) | p in Seen(inner, adjacency, |inner|)
      ensures p in ShortcutPairs(inner, edges) + Flipped(ShortcutPairs(inner, edges))
    {
      SeenIsShortcutPair(n, inner, edges, adjacency, p);
      assert p == ((p.1, p.0).1, (p.1, p.0).0);
    }
  }

  lemma ShortcutPairCount(n: nat, inner: seq<nat>, outer: seq<nat>, beta: nat, edges: seq<Edge>,
                          adjacency: seq<set<nat>>)
    requires Wired(n, inner, outer, beta, edges, adjacency)
    ensures |ShortcutPairs(inner, edges)| + |inner| + |outer| + |outer| * beta <= |edges|
  {
    AscendingDistinct(inner);
    AscendingDistinct(outer);
    RingPairsSize(inner, |inner|);
    RingPairsSize(outer, |outer|);
    RingPairsInside(inner);
    RingPairsInside(outer);
    assert RingPairs(inner, |inner|) <= Within(Pairs(edges), Elements(inner));
    SubsetSize(RingPairs(outer, |outer|), Within(Pairs(edges), Elements(outer)));
  }

  /** beta shortcuts at each of the inner nodes take at least half as many edges, since an edge serves two. */
  lemma ShortcutShare(n: nat, inner: seq<nat>, outer: seq<nat>, beta: nat, edges: seq<Edge>, adjacency: seq<set<nat>>)
    requires Wired(n, inner, outer, beta, edges, adjacency)
    requires forall v: nat :: v in inner ==> HasShortcuts(adjacency, inner, v, beta)
    ensures |inner| * beta <= 2 * (|edges| - |inner| - |outer| - |outer| * beta)
  {
    InRangeOf(n, inner, outer);
    AscendingDistinct(inner);
    var pairs := ShortcutPairs(inner, edges);
    ShortcutPairCount(n, inner, outer, beta, edges, adjacency);
    forall i ensures ServedAt(inner, adjacency, beta, i) {
      assert 0 <= i < |inner| ==> inner[i] in inner;
    }
    SeenSize(inner, adjacency, beta, |inner|);
    SeenAreShortcutPairs(n, inner, edges, adjacency);
    FlippedSize(pairs);
    SubsetSize(Seen(inner, adjacency, |inner|), pairs + Flipped(pairs));
  }
}
