/** Rings of nodes: membership by processing delay, cyclic neighbours, and the pairs further apart. */
module Rings {
  import opened Arithmetic
  import opened EdgeLists
  import opened Sequences

  /** The order of the ranking: by baseline, ties by node index. */
  predicate Faster(baselines: seq<real>, u: nat, v: nat)
    requires u < |baselines| && v < |baselines|
  {
    baselines[u] < baselines[v] || (baselines[u] == baselines[v] && u < v)
  }

  ghost predicate Indexes(baselines: seq<real>, s: seq<nat>) {
    forall i :: 0 <= i < |s| ==> s[i] < |baselines|
  }

  ghost predicate Ranked(baselines: seq<real>, s: seq<nat>) {
    && Indexes(baselines, s)
    && forall i, j :: 0 <= i < j < |s| ==> Faster(baselines, s[i], s[j])
  }

  function RankIn(baselines: seq<real>, x: nat, ranked: seq<nat>): (r: seq<nat>)
    requires x < |baselines| && Indexes(baselines, ranked)
    ensures multiset(r) == multiset(ranked) + multiset{x} && Indexes(baselines, r)
  {
    if ranked == [] then [x]
    else if Faster(baselines, x, ranked[0]) then [x] + ranked
    else
      assert ranked == [ranked[0]] + ranked[1..];
      [ranked[0]] + RankIn(baselines, x, ranked[1..])
  }

  lemma {:induction false} RankInRanked(baselines: seq<real>, x: nat, ranked: seq<nat>)
    requires x < |baselines| && Ranked(baselines, ranked) && x !in ranked
    ensures Ranked(baselines, RankIn(baselines, x, ranked))
  {
    if ranked != [] && !Faster(baselines, x, ranked[0]) {
      RankInRanked(baselines, x, ranked[1..]);
      var rest := RankIn(baselines, x, ranked[1..]);
      assert ranked[0] in ranked;
      forall j | 0 <= j < |rest| ensures Faster(baselines, ranked[0], rest[j]) {
        assert rest[j] in multiset(rest);
        if rest[j] != x {
          assert rest[j] in ranked[1..];
          var i :| 0 <= i < |ranked[1..]| && ranked[1..][i] == rest[j];
          assert Faster(baselines, ranked[0], ranked[i + 1]);
        }
      }
      RankedCons(baselines, ranked[0], rest);
    } else {
      RankedFirst(baselines, x, ranked);
    }
  }

  lemma RankedCons(baselines: seq<real>, x: nat, rest: seq<nat>)
    requires x < |baselines| && Ranked(baselines, rest)
    requires forall j :: 0 <= j < |rest| ==> Faster(baselines, x, rest[j])
    ensures Ranked(baselines, [x] + rest)
  {}

  lemma RankedFirst(baselines: seq<real>, x: nat, ranked: seq<nat>)
    requires x < |baselines| && Ranked(baselines, ranked)
    requires ranked != [] ==> Faster(baselines, x, ranked[0])
    ensures Ranked(baselines, [x] + ranked)
  {
    forall j | 0 <= j < |ranked| ensures Faster(baselines, x, ranked[j]) {
      assert j > 0 ==> Faster(baselines, ranked[0], ranked[j]);
    }
    RankedCons(baselines, x, ranked);
  }

  method SortByRank(s: seq<nat>, baselines: seq<real>) returns (ranked: seq<nat>)
    requires Distinct(s) && Indexes(baselines, s)
    ensures Ranked(baselines, ranked) && multiset(ranked) == multiset(s) && |ranked| == |s|
  {
    ranked := [];
    var i := 0;
    while i < |s|
      invariant 0 <= i <= |s| && Ranked(baselines, ranked) && multiset(ranked) == multiset(s[..i])
    {
      assert s[i] !in s[..i];
      assert s[i] !in multiset(ranked);
      RankInRanked(baselines, s[i], ranked);
      ranked := RankIn(baselines, s[i], ranked);
      assert s[..i + 1] == s[..i] + [s[i]];
      i := i + 1;
    }
    assert s[..i] == s;
    assert |multiset(ranked)| == |multiset(s)|;
  }

  /** The two rings share out the nodes, each in index order, the fastest on the inner ring. */
  ghost predicate Split(n: nat, core: nat, baselines: seq<real>, inner: seq<nat>, outer: seq<nat>) {
    && |baselines| == n && core <= n && |inner| == core && |outer| == n - core
    && Ascending(inner) && Ascending(outer)
    && (forall v: nat :: v in inner || v in outer <==> v < n)
    && (forall v: nat :: !(v in inner && v in outer))
    && forall u: nat, v: nat :: u in inner && v in outer ==> u < n && v < n && Faster(baselines, u, v)
  }

  method SplitByRank(n: nat, core: nat, baselines: seq<real>) returns (inner: seq<nat>, outer: seq<nat>)
    requires core <= n == |baselines|
    ensures Split(n, core, baselines, inner, outer)
  {
    var ranked := SortByRank(Range(n), baselines);
    PermutationDistinct(Range(n), ranked);
    assert ranked == ranked[..core] + ranked[core..];
    inner := SortAscending(ranked[..core]);
    outer := SortAscending(ranked[core..]);
    forall v: nat
      ensures v in inner <==> v in ranked[..core]
      ensures v in outer <==> v in ranked[core..]
      ensures v in ranked <==> v < n
    {
      PermutationMembers(inner, ranked[..core], v);
      PermutationMembers(outer, ranked[core..], v);
      PermutationMembers(ranked, Range(n), v);
      if v < n {
        assert Range(n)[v] == v;
      }
    }
    SplitMembers(n, core, baselines, ranked, inner, outer);
  }

  lemma SplitMembers(n: nat, core: nat, baselines: seq<real>, ranked: seq<nat>, inner: seq<nat>, outer: seq<nat>)
    requires core <= n == |baselines| == |ranked| && |inner| == core && |outer| == n - core
    requires Ranked(baselines, ranked) && Distinct(ranked) && Ascending(inner) && Ascending(outer)
    requires forall v: nat :: v in inner <==> v in ranked[..core]
    requires forall v: nat :: v in outer <==> v in ranked[core..]
    requires forall v: nat :: v in ranked <==> v < n
    ensures Split(n, core, baselines, inner, outer)
  {
    forall v: nat ensures v in inner || v in outer <==> v < n {
      assert v in ranked <==> v in ranked[..core] + ranked[core..];
      assert ranked == ranked[..core] + ranked[core..];
    }
    forall u: nat, v: nat | u in inner && v in outer ensures u != v && u < n && v < n && Faster(baselines, u, v) {
      var i :| 0 <= i < core && ranked[..core][i] == u;
      var j :| 0 <= j < n - core && ranked[core..][j] == v;
      assert ranked[i] == u && ranked[core + j] == v;
      assert u in ranked && v in ranked;
    }
  }

  /** The position after i on a ring of size l. */
  function Next(l: nat, i: nat): (r: nat)
    requires i < l
    ensures r < l
  {
    if i + 1 == l then 0 else i + 1
  }

  ghost predicate RingPair(ring: seq<nat>, i: nat, p: (nat, nat)) {
    i < |ring| && p == Key(ring[i], ring[Next(|ring|, i)])
  }

  /** The pairs of the first k ring edges. */
  ghost function RingPairs(ring: seq<nat>, k: nat): set<(nat, nat)>
    requires k <= |ring|
  {
    if k == 0 then {} else RingPairs(ring, k - 1) + {Key(ring[k - 1], ring[Next(|ring|, k - 1)])}
  }

  lemma {:induction false} RingPairsMember(ring: seq<nat>, k: nat, p: (nat, nat))
    requires k <= |ring|
    ensures p in RingPairs(ring, k) <==> exists i: nat :: i < k && RingPair(ring, i, p)
  {
    if k > 0 {
      RingPairsMember(ring, k - 1, p);
      assert RingPair(ring, k - 1, Key(ring[k - 1], ring[Next(|ring|, k - 1)]));
    }
  }

  /** Three nodes or more make the ring edges proper and all different. */
  lemma RingPairNew(ring: seq<nat>, k: nat)
    requires Distinct(ring) && k < |ring| && |ring| >= 3
    ensures ring[k] != ring[Next(|ring|, k)]
    ensures Key(ring[k], ring[Next(|ring|, k)]) !in RingPairs(ring, k)
  {
    var p := Key(ring[k], ring[Next(|ring|, k)]);
    RingPairsMember(ring, k, p);
    forall i: nat | i < k ensures !RingPair(ring, i, p) {
      assert ring[i] != ring[k];
    }
  }

  function Prev(l: nat, i: nat): (r: nat)
    requires i < l
    ensures r < l && Next(l, r) == i
  {
    if i == 0 then l - 1 else i - 1
  }

  /** On a cycle every node has exactly two neighbours. */
  lemma CycleNeighbors(ring: seq<nat>, i: nat, u: nat)
    requires Distinct(ring) && i < |ring| && |ring| >= 3
    ensures Key(ring[i], u) in RingPairs(ring, |ring|) <==> u == ring[Next(|ring|, i)] || u == ring[Prev(|ring|, i)]
    ensures ring[Next(|ring|, i)] != ring[Prev(|ring|, i)]
  {
    var l := |ring|;
    RingPairsMember(ring, l, Key(ring[i], u));
    if u == ring[Next(l, i)] {
      assert RingPair(ring, i, Key(ring[i], u));
    }
    if u == ring[Prev(l, i)] {
      assert RingPair(ring, Prev(l, i), Key(ring[i], u));
    }
    if Key(ring[i], u) in RingPairs(ring, l) {
      var j: nat :| j < l && RingPair(ring, j, Key(ring[i], u));
      assert ring[j] == ring[i] ==> j == i;
      assert ring[Next(l, j)] == ring[i] ==> Next(l, j) == i;
    }
  }

  /** The place a distance further along the ring. */
  function Ahead(l: nat, i: nat, d: nat): (r: nat)
    requires i < l && d <= l
    ensures r < l
  {
    if i + d >= l then i + d - l else i + d
  }

  /** Both are steps modulo the length of the ring. */
  lemma AheadIsModulo(l: nat, i: nat, d: nat)
    requires i < l && d <= l
    ensures (i + d) % l == Ahead(l, i, d)
    ensures d == 1 ==> (i + d) % l == Next(l, i)
  {
    ModOnce(i + d, l);
  }

  /** Two places are within half the ring of each other, one way round or the other. */
  lemma WithinHalf(l: nat, i: nat, j: nat) returns (from: nat, d: nat)
    requires i < j < l
    ensures from < l && 1 <= d <= l / 2
    ensures (from == i && Ahead(l, from, d) == j) || (from == j && Ahead(l, from, d) == i)
  {
    if j - i <= l / 2 {
      from, d := i, j - i;
    } else {
      from, d := j, l - (j - i);
    }
  }
}
