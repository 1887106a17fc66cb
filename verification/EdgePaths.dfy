/** Walks along a set of undirected pairs. */
module EdgePaths {
  import opened EdgeLists

  ghost predicate Walk(pairs: set<(nat, nat)>, p: seq<nat>) {
    p != [] && forall i :: 0 <= i < |p| - 1 ==> Key(p[i], p[i + 1]) in pairs
  }

  ghost predicate Linked(pairs: set<(nat, nat)>, u: nat, v: nat) {
    exists p :: Walk(pairs, p) && p[0] == u && p[|p| - 1] == v
  }

  ghost predicate ConnectedOn(n: nat, pairs: set<(nat, nat)>) {
    forall u: nat, v: nat :: u < n && v < n ==> Linked(pairs, u, v)
  }

  lemma LinkedRefl(pairs: set<(nat, nat)>, u: nat)
    ensures Linked(pairs, u, u)
  {
    assert Walk(pairs, [u]);
  }

  lemma LinkedPair(pairs: set<(nat, nat)>, u: nat, v: nat)
    requires Key(u, v) in pairs
    ensures Linked(pairs, u, v)
  {
    assert Walk(pairs, [u, v]);
  }

  lemma LinkedTrans(pairs: set<(nat, nat)>, u: nat, v: nat, w: nat)
    requires Linked(pairs, u, v) && Linked(pairs, v, w)
    ensures Linked(pairs, u, w)
  {
    var p :| Walk(pairs, p) && p[0] == u && p[|p| - 1] == v;
    var q :| Walk(pairs, q) && q[0] == v && q[|q| - 1] == w;
    var r := p + q[1..];
    forall i | 0 <= i < |r| - 1 ensures Key(r[i], r[i + 1]) in pairs {
      if i >= |p| - 1 {
        assert r[i] == q[i - (|p| - 1)] && r[i + 1] == q[i - (|p| - 1) + 1];
      }
    }
    assert Walk(pairs, r);
  }

  lemma {:induction false} WalkBack(pairs: set<(nat, nat)>, p: seq<nat>)
    requires Walk(pairs, p)
    ensures Linked(pairs, p[|p| - 1], p[0])
    decreases |p|
  {
    if |p| == 1 {
      LinkedRefl(pairs, p[0]);
    } else {
      var front := p[..|p| - 1];
      assert Walk(pairs, front);
      WalkBack(pairs, front);
      assert Key(p[|p| - 2], p[|p| - 1]) in pairs;
      LinkedPair(pairs, p[|p| - 1], p[|p| - 2]);
      LinkedTrans(pairs, p[|p| - 1], p[|p| - 2], p[0]);
    }
  }

  lemma LinkedSym(pairs: set<(nat, nat)>, u: nat, v: nat)
    requires Linked(pairs, u, v)
    ensures Linked(pairs, v, u)
  {
    var p :| Walk(pairs, p) && p[0] == u && p[|p| - 1] == v;
    WalkBack(pairs, p);
  }

  lemma LinkedMore(pairs: set<(nat, nat)>, more: set<(nat, nat)>, u: nat, v: nat)
    requires Linked(pairs, u, v) && pairs <= more
    ensures Linked(more, u, v)
  {
    var p :| Walk(pairs, p) && p[0] == u && p[|p| - 1] == v;
    assert Walk(more, p);
  }

  /** A set closed under the pairs keeps every walk that starts in it. */
  lemma {:induction false} ClosedHoldsWalk(pairs: set<(nat, nat)>, s: set<nat>, p: seq<nat>)
    requires Walk(pairs, p) && p[0] in s
    requires forall u: nat, v: nat :: u in s && Key(u, v) in pairs ==> v in s
    ensures p[|p| - 1] in s
  {
    if |p| > 1 {
      assert Key(p[0], p[1]) in pairs;
      forall i | 0 <= i < |p[1..]| - 1 ensures Key(p[1..][i], p[1..][i + 1]) in pairs {
        assert Key(p[i + 1], p[i + 2]) in pairs;
      }
      ClosedHoldsWalk(pairs, s, p[1..]);
    }
  }

  /** Links from one root make the graph connected. */
  lemma RootedIsConnected(n: nat, pairs: set<(nat, nat)>, root: nat)
    requires forall v: nat :: v < n ==> Linked(pairs, root, v)
    ensures ConnectedOn(n, pairs)
  {
    forall u: nat, v: nat | u < n && v < n ensures Linked(pairs, u, v) {
      LinkedSym(pairs, root, u);
      LinkedTrans(pairs, u, root, v);
    }
  }
}
