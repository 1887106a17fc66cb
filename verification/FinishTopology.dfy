/** What an edge list goes through before it is deployed: repair, normal form. */
module FinishTopology {
  import opened Components
  import opened EdgeLists
  import opened EdgePaths
  import opened Normalize
  import opened Random

  /** The pairs of two different nodes. */
  ghost function Proper(links: set<(nat, nat)>): set<(nat, nat)> {
    set p | p in links && p.0 != p.1
  }

  /** Loops do not help a walk along. */
  lemma {:induction false} WalkWithoutLoops(links: set<(nat, nat)>, p: seq<nat>)
    requires Walk(links, p)
    ensures Linked(Proper(links), p[0], p[|p| - 1])
    decreases |p|
  {
    if |p| == 1 {
      LinkedRefl(Proper(links), p[0]);
    } else {
      var front, v, w := p[..|p| - 1], p[|p| - 2], p[|p| - 1];
      assert Key(p[|p| - 2], p[|p| - 2 + 1]) in links;
      WalkWithoutLoops(links, front);
      if v != w {
        LinkedPair(Proper(links), v, w);
        LinkedTrans(Proper(links), p[0], v, w);
      }
    }
  }

  lemma NormalPairs(n: nat, edges: seq<Edge>, r: seq<Edge>)
    requires InRange(n, edges) && NormalForm(edges, r)
    ensures SimpleEdges(n, r) && Pairs(r) == Proper(Links(edges))
  {
    NormalFormIsSimple(n, edges, r);
    forall p ensures p in Pairs(r) <==> p in Proper(Links(edges)) {
      if p in Proper(Links(edges)) {
        var e :| e in edges && Key(e.a, e.b) == p;
      }
    }
  }

  /** Which nodes are linked is left alone by the normal form: loops, orientation and repetitions do not matter. */
  lemma NormalFormKeepsLinks(n: nat, edges: seq<Edge>, r: seq<Edge>, u: nat, v: nat)
    requires InRange(n, edges) && NormalForm(edges, r)
    ensures Linked(Pairs(r), u, v) <==> Linked(Links(edges), u, v)
  {
    NormalPairs(n, edges, r);
    if Linked(Links(edges), u, v) {
      var p :| Walk(Links(edges), p) && p[0] == u && p[|p| - 1] == v;
      WalkWithoutLoops(Links(edges), p);
    }
    if Linked(Pairs(r), u, v) {
      LinkedMore(Pairs(r), Links(edges), u, v);
    }
  }

  lemma {:induction false} PairsCount(edges: seq<Edge>)
    requires NoRepeats(edges)
    ensures |Pairs(edges)| == |edges|
  {
    if edges != [] {
      var front, last := edges[..|edges| - 1], edges[|edges| - 1];
      forall i, j ensures Differ(front, i, j) {
        assert Differ(edges, i, j);
      }
      PairsCount(front);
      assert edges == front + [last];
      PairsAppend(front, last);
      forall e | e in front ensures e.Pair() != last.Pair() {
        var i :| 0 <= i < |front| && front[i] == e;
        assert Differ(edges, i, |front|);
      }
    }
  }

  /** The normal form has one edge for every proper pair. */
  lemma NormalFormSize(n: nat, edges: seq<Edge>, r: seq<Edge>)
    requires InRange(n, edges) && NormalForm(edges, r)
    ensures |r| == |Proper(Links(edges))|
  {
    NormalPairs(n, edges, r);
    PairsCount(r);
  }

  lemma LinksAppend(edges: seq<Edge>, e: Edge)
    requires e.a != e.b && Key(e.a, e.b) !in Links(edges)
    ensures |Proper(Links(edges + [e]))| == |Proper(Links(edges))| + 1
  {
    var p := Key(e.a, e.b);
    forall q ensures q in Links(edges + [e]) <==> q in Links(edges) || q == p {
      if q in Links(edges) {
        var f :| f in edges && Key(f.a, f.b) == q;
        assert f in edges + [e];
      }
      assert e in edges + [e];
    }
    assert Proper(Links(edges + [e])) == Proper(Links(edges)) + {p};
  }

  /** Every edge of the chain makes a proper pair that was not there before. */
  lemma {:induction false} ChainPairs(n: nat, before: seq<Edge>, edges: seq<Edge>, components: seq<seq<nat>>,
                                      chosen: seq<nat>, k: nat)
    requires Classes(n, Links(before), components) && Representatives(components, chosen)
    requires ChainUpTo(before, edges, chosen, k)
    ensures |Proper(Links(edges))| == |Proper(Links(before))| + k
    decreases k
  {
    if k == 0 {
      assert edges == before;
    } else {
      var front, last := edges[..|edges| - 1], edges[|edges| - 1];
      assert front[..|before|] == edges[..|before|];
      ChainPairs(n, before, front, components, chosen, k - 1);
      assert last == edges[|before| + (k - 1)] == Plain(chosen[k - 1], chosen[k]);
      RepresentativesApart(n, Links(before), components, chosen, k - 1, k);
      if Key(last.a, last.b) in Links(front) {
        var e :| e in front && Key(e.a, e.b) == Key(last.a, last.b);
        var i :| 0 <= i < |front| && front[i] == e;
        ChainEdgeIsNew(n, before, front, components, chosen, k, i);
      }
      LinksAppend(front, last);
      assert edges == front + [last];
    }
  }

  /** An edge of the result that is not a first edge of the generated list: plain, and between unlinked nodes. */
  ghost predicate Added(generated: seq<Edge>, e: Edge) {
    e.baseline.None? && !Linked(Links(generated), e.a, e.b)
  }

  /**
   * The outcome: sorted and simple, with the first edge of every generated pair in it. Only the repair
   * adds to these, between nodes that were not linked; it leaves a single class.
   */
  ghost predicate Finished(n: nat, generated: seq<Edge>, ensureConnected: bool, edges: seq<Edge>) {
    && SimpleEdges(n, edges) && StrictlySorted(edges) && Proper(Links(generated)) <= Pairs(edges)
    && (forall e :: IsFirst(generated, e) ==> e in edges)
    && (forall e :: e in edges ==> IsFirst(generated, e) || (ensureConnected && Added(generated, e)))
    && (ensureConnected ==> ConnectedOn(n, Pairs(edges)))
    && (!ensureConnected ==> forall u: nat, v: nat :: Linked(Pairs(edges), u, v) <==> Linked(Links(generated), u, v))
  }

  /** A generated list that is connected comes out as its own normal form, whether or not that was asked for. */
  lemma ConnectedStaysAsItIs(n: nat, generated: seq<Edge>, ensureConnected: bool, edges: seq<Edge>)
    requires Finished(n, generated, ensureConnected, edges) && ConnectedOn(n, Links(generated))
    ensures NormalForm(generated, edges)
  {
    forall e | e in edges ensures IsFirst(generated, e) {
      assert e.a < n && e.b < n;
    }
  }

  /** The edges that the repair leaves: the generated ones first, then those that join unlinked nodes. */
  ghost predicate Repaired(n: nat, generated: seq<Edge>, repaired: seq<Edge>) {
    && |generated| <= |repaired| && repaired[..|generated|] == generated && InRange(n, repaired)
    && forall k :: |generated| <= k < |repaired| ==> Added(generated, repaired[k])
  }

  lemma ChainIsRepair(n: nat, generated: seq<Edge>, repaired: seq<Edge>, components: seq<seq<nat>>, chain: seq<nat>)
    requires InRange(n, repaired) && Chained(generated, repaired, components, chain)
    requires Partition(n, Links(generated), components)
    requires forall k :: |generated| <= k < |repaired| ==> !Linked(Links(generated), repaired[k].a, repaired[k].b)
    ensures Repaired(n, generated, repaired)
    ensures components != [] ==> |Proper(Links(repaired))| == |Proper(Links(generated))| + |components| - 1
  {
    if |components| > 1 {
      forall k | |generated| <= k < |repaired| ensures repaired[k].baseline.None? {
        var j := k - |generated|;
        assert repaired[|generated| + j] == Plain(chain[j], chain[j + 1]);
      }
      ChainPairs(n, generated, repaired, components, chain, |chain| - 1);
    }
  }

  lemma LinksGrow(before: seq<Edge>, after: seq<Edge>)
    requires |before| <= |after| && after[..|before|] == before
    ensures Proper(Links(before)) <= Proper(Links(after))
  {
    forall p | p in Links(before) ensures p in Links(after) {
      var e :| e in before && Key(e.a, e.b) == p;
      var i :| 0 <= i < |before| && before[i] == e;
      assert after[..|before|][i] == after[i];
    }
  }

  lemma FirstsOfRepaired(n: nat, generated: seq<Edge>, repaired: seq<Edge>, e: Edge)
    requires Repaired(n, generated, repaired)
    ensures IsFirst(generated, e) ==> IsFirst(repaired, e)
    ensures IsFirst(repaired, e) ==> IsFirst(generated, e) || Added(generated, e)
  {
    forall i: nat | i < |generated| ensures repaired[i] == generated[i] {
      assert repaired[..|generated|][i] == repaired[i];
    }
    if IsFirst(generated, e) {
      var i: nat :| FirstAt(generated, i, e);
      assert FirstAt(repaired, i, e);
    }
    if IsFirst(repaired, e) {
      var i: nat :| FirstAt(repaired, i, e);
      if i < |generated| {
        assert FirstAt(generated, i, e);
      } else {
        assert Added(generated, repaired[i]);
        if Linked(Links(generated), e.a, e.b) {
          LinkedSym(Links(generated), e.a, e.b);
        }
      }
    }
  }

  /**
   * The normal form of the generated list, or of the repaired one: with ensure_connected it has exactly
   * one edge more for every reachability class after the first.
   */
  method Finish(n: nat, generated: seq<Edge>, ensureConnected: bool, rng: Rand)
    returns (edges: seq<Edge>, ghost repaired: seq<Edge>, ghost components: seq<seq<nat>>, ghost chain: seq<nat>)
    requires InRange(n, generated)
    ensures Finished(n, generated, ensureConnected, edges)
    ensures NormalForm(repaired, edges)
    ensures if ensureConnected
      then Partition(n, Links(generated), components) && Chained(generated, repaired, components, chain)
      else repaired == generated
    ensures ensureConnected && components != [] ==> |edges| == |Proper(Links(generated))| + |components| - 1
  {
    edges, components, chain := generated, [], [];
    if ensureConnected {
      edges, components, chain := ConnectGeneratedComponents(n, generated, rng);
      ChainIsRepair(n, generated, edges, components, chain);
    }
    repaired := edges;
    edges := NormalizeGeneratedEdges(edges);
    NormalFormSize(n, repaired, edges);
    NormalPairs(n, repaired, edges);
    LinksGrow(generated, repaired);
    forall e ensures IsFirst(generated, e) ==> e in edges
      ensures e in edges ==> IsFirst(generated, e) || (ensureConnected && Added(generated, e))
    {
      FirstsOfRepaired(n, generated, repaired, e);
    }
    forall u: nat, v: nat ensures Linked(Pairs(edges), u, v) <==> Linked(Links(repaired), u, v) {
      NormalFormKeepsLinks(n, repaired, edges, u, v);
    }
  }
}
