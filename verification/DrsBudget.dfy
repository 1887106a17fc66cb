/** The lattice fill of the double-ring generator and its exact success condition. */
module DrsBudget {
  import opened DoubleRing
  import opened DrsCandidates
  import opened DrsFill
  import opened DrsGenerator
  import opened DrsTurns
  import opened EdgeLists
  import opened Random
  import opened Rings
  import opened Sequences
  import opened Wrappers

  ghost predicate Shortcut(inner: seq<nat>, adjacency: seq<set<nat>>, beta: nat) {
    forall v: nat :: v in inner ==> HasShortcuts(adjacency, inner, v, beta)
  }

  lemma ShortcutGrows(inner: seq<nat>, adjacency: seq<set<nat>>, more: seq<set<nat>>, beta: nat)
    requires Shortcut(inner, adjacency, beta) && Grows(adjacency, more)
    ensures Shortcut(inner, more, beta)
  {
    forall v: nat | v in inner ensures HasShortcuts(more, inner, v, beta) {
      ShortcutsStay(adjacency, more, inner, v, beta);
    }
  }

  /** All mandatory edges are in: rings, access links and shortcuts. */
  ghost predicate Mandatory(n: nat, inner: seq<nat>, outer: seq<nat>, beta: nat, edges: seq<Edge>,
                            adjacency: seq<set<nat>>) {
    Wired(n, inner, outer, beta, edges, adjacency) && Shortcut(inner, adjacency, beta)
  }

  ghost function Capacity(inner: nat, outer: nat, beta: nat): nat {
    Choose2(inner) + Choose2(outer) + outer * beta
  }

  /** The capacity is that of two complete graphs and the access links: C(c,2) + C(o,2) + o*beta. */
  lemma CapacityClosedForm(inner: nat, outer: nat, beta: nat)
    ensures 2 * Capacity(inner, outer, beta) == inner * (inner - 1) + outer * (outer - 1) + 2 * (outer * beta)
  {
    Choose2ClosedForm(inner);
    Choose2ClosedForm(outer);
  }

  /** The list only grew at its end. */
  ghost predicate Precedes(before: seq<Edge>, after: seq<Edge>) {
    |before| <= |after| && after[..|before|] == before
  }

  /** One candidate: it becomes an edge unless it is one already. */
  method Place(n: nat, b: Builder, inner: seq<nat>, outer: seq<nat>, beta: nat, edge: Edge) returns (added: bool)
    requires b.n == n && b.Valid() && Mandatory(n, inner, outer, beta, b.edges, b.adjacency)
    requires edge.a < edge.b && edge.baseline.None? && SameSide(inner, outer, edge.a, edge.b)
    modifies b`edges, b`adjacency
    ensures b.Valid() && Mandatory(n, inner, outer, beta, b.edges, b.adjacency)
    ensures Pairs(b.edges) == Pairs(old(b.edges)) + {edge.Pair()}
    ensures b.edges == old(b.edges) + if added then [edge] else []
    ensures !added <==> edge.Pair() in Pairs(old(b.edges))
  {
    assert edge.a < n && edge.b < n;
    assert edge.Pair() == Key(edge.a, edge.b);
    if edge.b in b.adjacency[edge.a] {
      return false;
    }
    AddInside(n, b, inner, outer, beta, edge.a, edge.b);
    ShortcutGrows(inner, old(b.adjacency), b.adjacency, beta);
    return true;
  }

  /** What was added so far: a prefix of either list. */
  ghost predicate Taken(before: set<(nat, nat)>, pairs: set<(nat, nat)>, innerCandidates: seq<Edge>,
                        outerCandidates: seq<Edge>, i: nat, j: nat) {
    && i <= |innerCandidates| && j <= |outerCandidates|
    && pairs == before + Pairs(innerCandidates[..i]) + Pairs(outerCandidates[..j])
  }

  /** The next candidate of one ring is not an edge yet, whatever was taken from both lists. */
  lemma NextIsNew(n: nat, inner: seq<nat>, outer: seq<nat>, before: set<(nat, nat)>, mine: seq<Edge>, other: seq<Edge>,
                  i: nat, j: nat)
    requires TwoRings(n, inner, outer) && i < |mine| && j <= |other|
    requires (Fresh(inner, mine, before) && Fresh(outer, other, before))
          || (Fresh(outer, mine, before) && Fresh(inner, other, before))
    ensures mine[i].Pair() !in before + Pairs(mine[..i]) + Pairs(other[..j])
  {
    assert mine[i] in mine;
    forall e | e in mine[..i] ensures e.Pair() != mine[i].Pair() {
      var k :| 0 <= k < i && mine[..i][k] == e;
      assert Differ(mine, k, i);
    }
    forall e | e in other[..j] ensures e.Pair() != mine[i].Pair() {
      assert e in other;
    }
  }

  lemma TakenNext(before: set<(nat, nat)>, mine: seq<Edge>, other: seq<Edge>, i: nat, j: nat)
    requires i < |mine| && j <= |other|
    ensures before + Pairs(mine[..i]) + Pairs(other[..j]) + {mine[i].Pair()}
         == before + Pairs(mine[..i + 1]) + Pairs(other[..j])
    ensures before + Pairs(other[..j]) + Pairs(mine[..i]) + {mine[i].Pair()}
         == before + Pairs(other[..j]) + Pairs(mine[..i + 1])
  {
    PairsAppend(mine[..i], mine[i]);
    assert mine[..i + 1] == mine[..i] + [mine[i]];
  }

  /**
   * The two rings take edges in proportion to their sizes: neither gets ahead by more than one edge
   * unless the candidates of the other are used up.
   */
  ghost predicate Balanced(inner: nat, outer: nat, i: nat, j: nat, innerLasts: bool, outerLasts: bool) {
    && (outerLasts ==> i * outer <= j * inner + outer)
    && (innerLasts ==> j * inner < i * outer + inner)
  }

  /** Which ring the next edge goes to: compared by added edges per node, without division. */
  method ChooseInner(inner: nat, outer: nat, i: nat, j: nat, innerLasts: bool, outerLasts: bool) returns (chosen: bool)
    requires Balanced(inner, outer, i, j, innerLasts, outerLasts) && (innerLasts || outerLasts)
    ensures if chosen then innerLasts else outerLasts
    ensures Balanced(inner, outer, if chosen then i + 1 else i, if chosen then j else j + 1, innerLasts, outerLasts)
  {
    TimesNext(i, outer);
    TimesNext(j, inner);
    chosen := innerLasts && (!outerLasts || i * outer <= j * inner);
  }

  /** The next candidate of one ring, which is never an edge already. */
  method TakeNext(n: nat, b: Builder, inner: seq<nat>, outer: seq<nat>, beta: nat, ghost before: set<(nat, nat)>,
                  mine: seq<Edge>, other: seq<Edge>, i: nat, j: nat)
    returns (added: bool)
    requires b.n == n && b.Valid() && Mandatory(n, inner, outer, beta, b.edges, b.adjacency)
    requires (Fresh(inner, mine, before) && Fresh(outer, other, before))
          || (Fresh(outer, mine, before) && Fresh(inner, other, before))
    requires i < |mine| && j <= |other| && Pairs(b.edges) == before + Pairs(mine[..i]) + Pairs(other[..j])
    modifies b`edges, b`adjacency
    ensures added && b.Valid() && Mandatory(n, inner, outer, beta, b.edges, b.adjacency)
    ensures Pairs(b.edges) == before + Pairs(mine[..i + 1]) + Pairs(other[..j])
    ensures b.edges == old(b.edges) + [mine[i]]
  {
    NextIsNew(n, inner, outer, before, mine, other, i, j);
    TakenNext(before, mine, other, i, j);
    assert mine[i] in mine;
    added := Place(n, b, inner, outer, beta, mine[i]);
  }

  lemma AllTaken(ring: seq<nat>, before: set<(nat, nat)>, candidates: seq<Edge>, pairs: set<(nat, nat)>, a: nat, c: nat)
    requires Complete(ring, before, candidates) && before <= pairs && Pairs(candidates) <= pairs
    requires a in ring && c in ring && a != c
    ensures Key(a, c) in pairs
  {}

  /** Both lists used up: the rings are complete graphs, and nothing more fits. */
  lemma Exhausted(n: nat, inner: seq<nat>, outer: seq<nat>, beta: nat, edges: seq<Edge>, adjacency: seq<set<nat>>,
                  before: set<(nat, nat)>, innerCandidates: seq<Edge>, outerCandidates: seq<Edge>)
    requires Wired(n, inner, outer, beta, edges, adjacency)
    requires Complete(inner, before, innerCandidates) && Complete(outer, before, outerCandidates)
    requires Taken(before, Pairs(edges), innerCandidates, outerCandidates, |innerCandidates|, |outerCandidates|)
    ensures |edges| == Capacity(|inner|, |outer|, beta)
  {
    assert innerCandidates[..|innerCandidates|] == innerCandidates;
    assert outerCandidates[..|outerCandidates|] == outerCandidates;
    forall a: nat, c: nat | a < c && SameSide(inner, outer, a, c) ensures Key(a, c) in Pairs(edges) {
      if a in inner && c in inner {
        AllTaken(inner, before, innerCandidates, Pairs(edges), a, c);
      } else {
        AllTaken(outer, before, outerCandidates, Pairs(edges), a, c);
      }
    }
    WiredCapacity(n, inner, outer, beta, edges, adjacency);
  }

  lemma UnionSwap(a: set<(nat, nat)>, b: set<(nat, nat)>, c: set<(nat, nat)>)
    ensures a + b + c == a + c + b
  {}

  // The fill as a merge of the two candidate lists

  /** How many candidates of either ring were taken. */
  datatype Count = Count(inner: nat, outer: nat)

  /** The two rings, as far as the fill is concerned: their sizes and their candidates. */
  datatype Sides = Sides(innerSize: nat, outerSize: nat, inner: seq<Edge>, outer: seq<Edge>) {
    ghost predicate InBalance(c: Count) {
      Balanced(innerSize, outerSize, c.inner, c.outer, c.inner < |inner|, c.outer < |outer|)
    }

    /** One edge more: the next candidate of one of the rings, which leaves them in balance. */
    ghost predicate Follows(c: Count, e: Edge, c': Count) {
      && InBalance(c')
      && ((c.inner < |inner| && e == inner[c.inner] && c' == Count(c.inner + 1, c.outer))
          || (c.outer < |outer| && e == outer[c.outer] && c' == Count(c.inner, c.outer + 1)))
    }

    ghost predicate FollowsAt(base: seq<Edge>, edges: seq<Edge>, counts: seq<Count>, k: int) {
      0 <= k < |counts| - 1 && |base| + k < |edges| ==> Follows(counts[k], edges[|base| + k], counts[k + 1])
    }

    /** The edges after the mandatory ones, each with the counts before and after it. */
    ghost predicate Merged(base: seq<Edge>, edges: seq<Edge>, counts: seq<Count>) {
      && counts != [] && counts[0] == Count(0, 0)
      && |edges| == |base| + |counts| - 1 && Precedes(base, edges)
      && forall k {:trigger FollowsAt(base, edges, counts, k)} :: FollowsAt(base, edges, counts, k)
    }

    lemma MergedNext(base: seq<Edge>, edges: seq<Edge>, counts: seq<Count>, e: Edge, next: Count)
      requires Merged(base, edges, counts) && Follows(counts[|counts| - 1], e, next)
      ensures Merged(base, edges + [e], counts + [next])
    {
      forall k ensures FollowsAt(base, edges + [e], counts + [next], k) {
        assert FollowsAt(base, edges, counts, k);
      }
    }

    /** Balance leaves no choice of the next edge. */
    lemma FollowsUnique(c: Count, e: Edge, c': Count, f: Edge, d': Count)
      requires Follows(c, e, c') && Follows(c, f, d')
      ensures e == f && c' == d'
    {
      TimesNext(c.inner, outerSize);
      TimesNext(c.outer, innerSize);
    }

    lemma {:induction false} MergedUnique(base: seq<Edge>, edges: seq<Edge>, edges': seq<Edge>, counts: seq<Count>,
                                          counts': seq<Count>, k: nat)
      requires Merged(base, edges, counts) && Merged(base, edges', counts') && k < |counts| && k < |counts'|
      ensures counts[..k + 1] == counts'[..k + 1] && edges[..|base| + k] == edges'[..|base| + k]
      decreases k
    {
      if k > 0 {
        MergedUnique(base, edges, edges', counts, counts', k - 1);
        assert FollowsAt(base, edges, counts, k - 1) && FollowsAt(base, edges', counts', k - 1);
        assert counts[..k][k - 1] == counts[k - 1] && counts'[..k][k - 1] == counts'[k - 1];
        FollowsUnique(counts[k - 1], edges[|base| + (k - 1)], counts[k], edges'[|base| + (k - 1)], counts'[k]);
        SamePrefix(counts, counts', k);
        SamePrefix(edges, edges', |base| + (k - 1));
      }
    }

    lemma MergedSame(base: seq<Edge>, edges: seq<Edge>, edges': seq<Edge>, counts: seq<Count>, counts': seq<Count>)
      requires Merged(base, edges, counts) && Merged(base, edges', counts') && |edges| == |edges'|
      ensures edges == edges' && counts == counts'
    {
      MergedUnique(base, edges, edges', counts, counts', |counts| - 1);
      assert counts[..|counts|] == counts && counts'[..|counts'|] == counts';
      assert edges[..|edges|] == edges && edges'[..|edges'|] == edges';
    }
  }

  /** Between two turns of the fill. */
  ghost predicate FilledTo(n: nat, b: Builder, inner: seq<nat>, outer: seq<nat>, beta: nat, base: seq<Edge>,
                           innerCandidates: seq<Edge>, outerCandidates: seq<Edge>, counts: seq<Count>, i: nat, j: nat)
    reads b
  {
    var sides := Sides(|inner|, |outer|, innerCandidates, outerCandidates);
    && b.n == n && b.Valid() && Mandatory(n, inner, outer, beta, b.edges, b.adjacency)
    && Fresh(inner, innerCandidates, Pairs(base)) && Fresh(outer, outerCandidates, Pairs(base))
    && sides.Merged(base, b.edges, counts) && counts[|counts| - 1] == Count(i, j) && sides.InBalance(Count(i, j))
    && Taken(Pairs(base), Pairs(b.edges), innerCandidates, outerCandidates, i, j)
  }

  /** The next candidate of the ring whose turn it is. */
  method FillOne(n: nat, b: Builder, inner: seq<nat>, outer: seq<nat>, beta: nat, ghost before: set<(nat, nat)>,
                 innerCandidates: seq<Edge>, outerCandidates: seq<Edge>, i: nat, j: nat,
                 innerAdded: nat, outerAdded: nat)
    returns (chooseInner: bool, added: bool)
    requires b.n == n && b.Valid() && Mandatory(n, inner, outer, beta, b.edges, b.adjacency)
    requires Fresh(inner, innerCandidates, before) && Fresh(outer, outerCandidates, before)
    requires Taken(before, Pairs(b.edges), innerCandidates, outerCandidates, i, j)
    requires Balanced(|inner|, |outer|, i, j, i < |innerCandidates|, j < |outerCandidates|)
    requires (i < |innerCandidates| || j < |outerCandidates|) && innerAdded == i && outerAdded == j
    modifies b`edges, b`adjacency
    ensures added && b.Valid() && Mandatory(n, inner, outer, beta, b.edges, b.adjacency)
    ensures if chooseInner then i < |innerCandidates| && b.edges == old(b.edges) + [innerCandidates[i]]
                           else j < |outerCandidates| && b.edges == old(b.edges) + [outerCandidates[j]]
    ensures
      var i', j' := if chooseInner then i + 1 else i, if chooseInner then j else j + 1;
      && Taken(before, Pairs(b.edges), innerCandidates, outerCandidates, i', j')
      && Balanced(|inner|, |outer|, i', j', i' < |innerCandidates|, j' < |outerCandidates|)
  {
    chooseInner := ChooseInner(|inner|, |outer|, innerAdded, outerAdded, i < |innerCandidates|, j < |outerCandidates|);
    if chooseInner {
      added := TakeNext(n, b, inner, outer, beta, before, innerCandidates, outerCandidates, i, j);
    } else {
      UnionSwap(before, Pairs(innerCandidates[..i]), Pairs(outerCandidates[..j]));
      added := TakeNext(n, b, inner, outer, beta, before, outerCandidates, innerCandidates, j, i);
      UnionSwap(before, Pairs(innerCandidates[..i]), Pairs(outerCandidates[..j + 1]));
    }
  }

  /** One turn of the fill. */
  method FillNext(n: nat, b: Builder, inner: seq<nat>, outer: seq<nat>, beta: nat, ghost base: seq<Edge>,
                  innerCandidates: seq<Edge>, outerCandidates: seq<Edge>, ghost counts: seq<Count>, i: nat, j: nat,
                  innerAdded: nat, outerAdded: nat)
    returns (chooseInner: bool, added: bool, ghost next: Count)
    requires FilledTo(n, b, inner, outer, beta, base, innerCandidates, outerCandidates, counts, i, j)
    requires (i < |innerCandidates| || j < |outerCandidates|) && innerAdded == i && outerAdded == j
    modifies b`edges, b`adjacency
    ensures added && |b.edges| == |old(b.edges)| + 1
    ensures next == if chooseInner then Count(i + 1, j) else Count(i, j + 1)
    ensures FilledTo(n, b, inner, outer, beta, base, innerCandidates, outerCandidates, counts + [next],
                     next.inner, next.outer)
  {
    ghost var sides := Sides(|inner|, |outer|, innerCandidates, outerCandidates);
    chooseInner, added := FillOne(n, b, inner, outer, beta, Pairs(base), innerCandidates, outerCandidates, i, j,
                                  innerAdded, outerAdded);
    next := if chooseInner then Count(i + 1, j) else Count(i, j + 1);
    sides.MergedNext(base, old(b.edges), counts, if chooseInner then innerCandidates[i] else outerCandidates[j], next);
  }

  lemma FillStart(n: nat, b: Builder, inner: seq<nat>, outer: seq<nat>, beta: nat, innerCandidates: seq<Edge>,
                  outerCandidates: seq<Edge>)
    requires b.n == n && b.Valid() && Mandatory(n, inner, outer, beta, b.edges, b.adjacency)
    requires Fresh(inner, innerCandidates, Pairs(b.edges)) && Fresh(outer, outerCandidates, Pairs(b.edges))
    ensures FilledTo(n, b, inner, outer, beta, b.edges, innerCandidates, outerCandidates, [Count(0, 0)], 0, 0)
  {
    assert innerCandidates[..0] == [] && outerCandidates[..0] == [];
  }

  lemma FillStuck(n: nat, b: Builder, inner: seq<nat>, outer: seq<nat>, beta: nat, base: seq<Edge>,
                  innerCandidates: seq<Edge>, outerCandidates: seq<Edge>, counts: seq<Count>)
    requires FilledTo(n, b, inner, outer, beta, base, innerCandidates, outerCandidates, counts,
                      |innerCandidates|, |outerCandidates|)
    ensures |b.edges| == Capacity(|inner|, |outer|, beta)
  {
    Exhausted(n, inner, outer, beta, b.edges, b.adjacency, Pairs(base), innerCandidates, outerCandidates);
  }

  /**
   * The remaining budget goes to a prefix of either candidate list, so to the nearest pairs of both
   * rings, edge by edge in balance with their sizes; the test whether a candidate is an edge already
   * never holds.
   */
  method Fill(n: nat, b: Builder, inner: seq<nat>, outer: seq<nat>, beta: nat, targetEdges: nat,
              innerCandidates: seq<Edge>, outerCandidates: seq<Edge>)
    returns (error: Option<DrsError>, ghost counts: seq<Count>, ghost innerTaken: nat, ghost outerTaken: nat)
    requires b.n == n && b.Valid() && Mandatory(n, inner, outer, beta, b.edges, b.adjacency) && |b.edges| <= targetEdges
    requires Fresh(inner, innerCandidates, Pairs(b.edges)) && Fresh(outer, outerCandidates, Pairs(b.edges))
    modifies b`edges, b`adjacency
    ensures FilledTo(n, b, inner, outer, beta, old(b.edges), innerCandidates, outerCandidates, counts,
                     innerTaken, outerTaken)
    ensures error.None? ==> |b.edges| == targetEdges
    ensures error.Some? ==>
      && |b.edges| < targetEdges && |b.edges| == Capacity(|inner|, |outer|, beta)
      && error.value == BudgetUnreachable(targetEdges, |b.edges|)
  {
    ghost var base := b.edges;
    FillStart(n, b, inner, outer, beta, innerCandidates, outerCandidates);
    counts := [Count(0, 0)];
    var innerIndex, outerIndex := 0, 0;
    var innerAdded, outerAdded := 0, 0;
    while |b.edges| < targetEdges
      invariant FilledTo(n, b, inner, outer, beta, base, innerCandidates, outerCandidates, counts,
                         innerIndex, outerIndex)
      invariant innerAdded == innerIndex && outerAdded == outerIndex && |b.edges| <= targetEdges
      decreases targetEdges - |b.edges|
    {
      if innerIndex == |innerCandidates| && outerIndex == |outerCandidates| {
        FillStuck(n, b, inner, outer, beta, base, innerCandidates, outerCandidates, counts);
        return Some(BudgetUnreachable(targetEdges, |b.edges|)), counts, innerIndex, outerIndex;
      }
      var chooseInner, added, next := FillNext(n, b, inner, outer, beta, base, innerCandidates, outerCandidates,
                                               counts, innerIndex, outerIndex, innerAdded, outerAdded);
      counts := counts + [next];
      if chooseInner {
        innerIndex, innerAdded := innerIndex + 1, innerAdded + if added then 1 else 0;
      } else {
        outerIndex, outerAdded := outerIndex + 1, outerAdded + if added then 1 else 0;
      }
    }
    return None, counts, innerIndex, outerIndex;
  }

  function Ceiling(x: real): (r: int)
    ensures (r - 1) as real < x <= r as real
  {
    -((-x).Floor)
  }

  /** What the generator checks before it builds anything. */
  predicate Admissible(n: nat, k: int, alpha: real, beta: int, resolved: nat) {
    && 0 < k < n && k % 2 == 0
    && 0.0 < alpha < 1.0
    && Ceiling(alpha * (n as real)) >= 4 && n - Ceiling(alpha * (n as real)) >= 3
    && 0 < beta <= Ceiling(alpha * (n as real)) - 3
    && resolved == n
  }

  /** An error about a parameter names one that is out of its range, with the numbers as they are. */
  predicate Blames(n: nat, k: int, alpha: real, beta: int, resolved: nat, error: DrsError) {
    var core := Ceiling(alpha * (n as real));
    match error
    case InvalidK => !(0 < k < n && k % 2 == 0)
    case InvalidAlpha => !(0.0 < alpha < 1.0)
    case RingsTooSmall(inner, outer) => inner == core && outer == n - core && (inner < 4 || outer < 3)
    case BetaNotPositive => beta <= 0
    case BetaTooLarge(maximum) => maximum == core - 3 && beta > maximum
    case NodeCountMismatch => resolved != n
    case _ => true
  }

  /** How a graph was built: its rings, the order of the shortcut turns and the graph around each of them. */
  datatype Trace = Trace(inner: seq<nat>, outer: seq<nat>, order: seq<nat>, stages: seq<Stage>) {
    /** The graph with its mandatory edges. */
    function Base(): Stage
      requires stages != []
    {
      stages[|stages| - 1]
    }
  }

  /**
   * The mandatory part: both rings and beta access links of each outer node, then one turn of every
   * inner node, in which it gets the shortcuts that it still lacks.
   */
  ghost predicate Built(n: nat, core: nat, beta: nat, baselines: seq<real>, t: Trace) {
    && Split(n, core, baselines, t.inner, t.outer)
    && multiset(t.order) == multiset(t.inner) && |t.stages| == |t.order| + 1
    && Turns(n, t.inner, t.outer, beta, t.order, t.stages)
    && |t.stages[0].edges| == n + (n - core) * beta
    && Mandatory(n, t.inner, t.outer, beta, t.Base().edges, t.Base().adjacency)
  }

  /**
   * How many edges are mandatory: besides the rings and access links between half and all of
   * core * beta shortcuts, since one shortcut serves at most two inner nodes.
   */
  lemma MandatoryCount(n: nat, core: nat, beta: nat, baselines: seq<real>, t: Trace)
    requires Built(n, core, beta, baselines, t)
    ensures
      var mandatory := |t.Base().edges|;
      && 2 * (n + (n - core) * beta) + core * beta <= 2 * mandatory
      && mandatory <= n + (n - core) * beta + core * beta
      && mandatory <= Capacity(core, n - core, beta)
  {
    assert |multiset(t.order)| == |multiset(t.inner)|;
    assert WiredAt(n, t.inner, t.outer, beta, t.stages, core);
    TurnsBound(n, t.inner, t.outer, beta, t.order, t.stages, core);
    ShortcutShare(n, t.inner, t.outer, beta, t.Base().edges, t.Base().adjacency);
    WiredCapacity(n, t.inner, t.outer, beta, t.Base().edges, t.Base().adjacency);
    SameSizes(n, core, beta, |t.inner|, |t.outer|);
  }

  method BuildMandatory(n: nat, core: nat, beta: nat, baselines: seq<real>, rng: Rand)
    returns (b: Builder, inner: seq<nat>, outer: seq<nat>, error: Option<DrsError>, ghost trace: Trace)
    requires |baselines| == n && 4 <= core && core + 3 <= n && beta + 3 <= core
    ensures error.None? && fresh(b) && b.n == n && b.Valid()
    ensures Built(n, core, beta, baselines, trace) && inner == trace.inner && outer == trace.outer
    ensures trace.Base() == Stage(b.edges, b.adjacency)
  {
    inner, outer := SplitByRank(n, core, baselines);
    SplitIsTwoRings(n, core, baselines, inner, outer);
    var ringAdjacency: seq<set<nat>>;
    b, ringAdjacency := AddRings(n, inner, outer);
    RingMapsInner(n, inner, outer, ringAdjacency);
    ConnectOuterRing(n, b, inner, outer, beta, rng);
    SameSizes(n, core, beta, |inner|, |outer|);
    ghost var order, stages;
    error, order, stages := ShortcutRounds(n, b, inner, outer, beta, ringAdjacency, rng);
    trace := Trace(inner, outer, order, stages);
  }

  lemma SameSizes(n: nat, core: nat, beta: nat, inner: nat, outer: nat)
    requires core <= n && inner == core && outer == n - core
    ensures inner + outer + outer * beta == n + (n - core) * beta && inner * beta == core * beta
    ensures Capacity(inner, outer, beta) == Capacity(core, n - core, beta)
  {}

  lemma SplitIsTwoRings(n: nat, core: nat, baselines: seq<real>, inner: seq<nat>, outer: seq<nat>)
    requires Split(n, core, baselines, inner, outer) && 4 <= core && core + 3 <= n
    ensures TwoRings(n, inner, outer) && |inner| == core && |outer| == n - core
  {}

  /**
   * What the lattice fill took: the candidates of both rings with their first meetings, and how many
   * of either ring were in after every edge.
   */
  datatype Filling = Filling(inner: seq<Edge>, innerMeetings: seq<Meeting>, outer: seq<Edge>,
                             outerMeetings: seq<Meeting>, counts: seq<Count>)

  /** The graph is its mandatory part and the nearest pairs of both rings, taken edge by edge in balance. */
  ghost predicate Filled(n: nat, beta: nat, t: Trace, f: Filling, edges: seq<Edge>, adjacency: seq<set<nat>>)
    requires t.stages != []
  {
    var base := t.Base().edges;
    && Mandatory(n, t.inner, t.outer, beta, edges, adjacency)
    && Fresh(t.inner, f.inner, Pairs(base)) && NearestFirst(t.inner, f.inner, f.innerMeetings)
    && Fresh(t.outer, f.outer, Pairs(base)) && NearestFirst(t.outer, f.outer, f.outerMeetings)
    && Sides(|t.inner|, |t.outer|, f.inner, f.outer).Merged(base, edges, f.counts)
    && var taken := f.counts[|f.counts| - 1];
       && Taken(Pairs(base), Pairs(edges), f.inner, f.outer, taken.inner, taken.outer)
       && Sides(|t.inner|, |t.outer|, f.inner, f.outer).InBalance(taken)
  }

  lemma FillingUnique(ring: seq<nat>, before: set<(nat, nat)>, s: seq<Edge>, t: seq<Edge>, m: seq<Meeting>,
                      m': seq<Meeting>)
    requires Fresh(ring, s, before) && NearestFirst(ring, s, m)
    requires Fresh(ring, t, before) && NearestFirst(ring, t, m')
    ensures s == t && m == m'
  {
    CandidatesUnique(ring, before, s, t, m, m', |s|);
    CandidatesUnique(ring, before, t, s, m', m, |t|);
    assert s[..|s|] == s && t[..|t|] == t && m[..|m|] == m && m'[..|m'|] == m';
  }

  /** Once the mandatory part is drawn nothing is left to chance: it and the budget decide the whole list. */
  lemma FillUnique(n: nat, beta: nat, t: Trace, t': Trace, f: Filling, f': Filling, edges: seq<Edge>,
                   edges': seq<Edge>, adjacency: seq<set<nat>>, adjacency': seq<set<nat>>)
    requires t.stages != [] && Filled(n, beta, t, f, edges, adjacency)
    requires t'.stages != [] && Filled(n, beta, t', f', edges', adjacency')
    requires t.inner == t'.inner && t.outer == t'.outer && t.Base() == t'.Base() && |edges| == |edges'|
    ensures edges == edges' && f == f'
  {
    var base := t.Base().edges;
    FillingUnique(t.inner, Pairs(base), f.inner, f'.inner, f.innerMeetings, f'.innerMeetings);
    FillingUnique(t.outer, Pairs(base), f.outer, f'.outer, f.outerMeetings, f'.outerMeetings);
    Sides(|t.inner|, |t.outer|, f.inner, f.outer).MergedSame(base, edges, edges', f.counts, f'.counts);
  }

  /**
   * Success exactly when the mandatory edges fit the budget n*k/2 and the budget fits two complete
   * rings with their access links; the graph then has exactly the budgeted number of edges, the
   * mandatory ones first. The shuffles decide how many shortcuts are mandatory, and the last two
   * clauses are what holds for every shuffle.
   */
  method GenerateDRS(n: nat, k: int, alpha: real, beta: int, baselines: seq<real>, rng: Rand)
    returns (result: Result<seq<Edge>, DrsError>, ghost trace: Trace, ghost filling: Filling,
             ghost adjacency: seq<set<nat>>)
    ensures Admissible(n, k, alpha, beta, |baselines|) <==>
      result.Ok? || result.error.BudgetExceeded? || result.error.BudgetUnreachable?
    ensures result.Err? ==> !result.error.TargetsExhausted? && Blames(n, k, alpha, beta, |baselines|, result.error)
    ensures Admissible(n, k, alpha, beta, |baselines|) ==>
      var core := Ceiling(alpha * (n as real));
      Decided(n, core, beta, n * k / 2, baselines, result, trace)
    ensures result.Ok? ==> Filled(n, beta, trace, filling, result.value, adjacency)
  {
    trace, filling, adjacency := Trace([], [], [], [Stage([], [])]), Filling([], [], [], [], []), [];
    if k <= 0 || k >= n || k % 2 != 0 {
      return Err(InvalidK), trace, filling, adjacency;
    }
    if alpha <= 0.0 || alpha >= 1.0 {
      return Err(InvalidAlpha), trace, filling, adjacency;
    }
    var coreCount := Ceiling(alpha * (n as real));
    if coreCount < 4 || n - coreCount < 3 {
      return Err(RingsTooSmall(coreCount, n - coreCount)), trace, filling, adjacency;
    }
    if beta <= 0 {
      return Err(BetaNotPositive), trace, filling, adjacency;
    }
    if beta > coreCount - 3 {
      return Err(BetaTooLarge(coreCount - 3)), trace, filling, adjacency;
    }
    if |baselines| != n {
      return Err(NodeCountMismatch), trace, filling, adjacency;
    }
    var targetEdges := n * k / 2;
    result, trace, filling, adjacency := BuildDRS(n, coreCount, beta, targetEdges, baselines, rng);
  }

  /** The outcome for admissible parameters: decided by the mandatory edges, the budget and the capacity. */
  ghost predicate Decided(n: nat, core: nat, beta: nat, budget: nat, baselines: seq<real>,
                          result: Result<seq<Edge>, DrsError>, trace: Trace)
    requires core <= n
  {
    && Built(n, core, beta, baselines, trace)
    && var mandatory, capacity := |trace.Base().edges|, Capacity(core, n - core, beta);
    && 2 * capacity == core * (core - 1) + (n - core) * (n - core - 1) + 2 * ((n - core) * beta)
    && (result.Ok? <==> mandatory <= budget <= capacity)
    && (mandatory > budget ==> result == Err(BudgetExceeded(budget, mandatory)))
    && (budget > capacity ==> result == Err(BudgetUnreachable(budget, capacity)))
    && (result.Ok? ==> |result.value| == budget)
    && (n + (n - core) * beta + core * beta <= budget <= capacity ==> result.Ok?)
    && (2 * budget < 2 * (n + (n - core) * beta) + core * beta ==> result.Err? && result.error.BudgetExceeded?)
  }

  /** The lattice fill on top of the mandatory part, up to the budget or to the capacity. */
  method FillBudget(n: nat, b: Builder, inner: seq<nat>, outer: seq<nat>, beta: nat, targetEdges: nat, ghost t: Trace)
    returns (error: Option<DrsError>, ghost filling: Filling)
    requires b.n == n && b.Valid() && Mandatory(n, inner, outer, beta, b.edges, b.adjacency) && |b.edges| <= targetEdges
    requires t.stages != [] && t.Base() == Stage(b.edges, b.adjacency) && t.inner == inner && t.outer == outer
    modifies b`edges, b`adjacency
    ensures b.Valid() && Filled(n, beta, t, filling, b.edges, b.adjacency)
    ensures |b.edges| <= Capacity(|inner|, |outer|, beta)
    ensures error.None? ==> |b.edges| == targetEdges
    ensures error.Some? ==>
      && Capacity(|inner|, |outer|, beta) < targetEdges
      && error.value == BudgetUnreachable(targetEdges, Capacity(|inner|, |outer|, beta))
  {
    InRangeOf(n, inner, outer);
    var innerCandidates, innerMeetings := RingCandidates(n, b, inner);
    var outerCandidates, outerMeetings := RingCandidates(n, b, outer);
    ghost var counts, innerTaken, outerTaken;
    error, counts, innerTaken, outerTaken :=
      Fill(n, b, inner, outer, beta, targetEdges, innerCandidates, outerCandidates);
    filling := Filling(innerCandidates, innerMeetings, outerCandidates, outerMeetings, counts);
    WiredCapacity(n, inner, outer, beta, b.edges, b.adjacency);
  }

  method BuildDRS(n: nat, core: nat, beta: nat, targetEdges: nat, baselines: seq<real>, rng: Rand)
    returns (result: Result<seq<Edge>, DrsError>, ghost trace: Trace, ghost filling: Filling,
             ghost adjacency: seq<set<nat>>)
    requires |baselines| == n && 4 <= core && core + 3 <= n && beta + 3 <= core
    ensures Decided(n, core, beta, targetEdges, baselines, result, trace)
    ensures result.Err? ==> result.error.BudgetExceeded? || result.error.BudgetUnreachable?
    ensures result.Ok? ==> Filled(n, beta, trace, filling, result.value, adjacency)
  {
    var b, inner, outer, error;
    b, inner, outer, error, trace := BuildMandatory(n, core, beta, baselines, rng);
    filling, adjacency := Filling([], [], [], [], []), b.adjacency;
    MandatoryCount(n, core, beta, baselines, trace);
    SameSizes(n, core, beta, |inner|, |outer|);
    CapacityClosedForm(core, n - core, beta);
    match error {
      case Some(e) => return Err(e), trace, filling, adjacency;
      case None =>
    }
    if |b.edges| > targetEdges {
      return Err(BudgetExceeded(targetEdges, |b.edges|)), trace, filling, adjacency;
    }
    error, filling := FillBudget(n, b, inner, outer, beta, targetEdges, trace);
    adjacency := b.adjacency;
    if error.Some? {
      return Err(error.value), trace, filling, adjacency;
    }
    result := Ok(b.edges);
  }
}
