/** The normal form of a generated edge list: canonical, without repetitions, strictly sorted. */
module Normalize {
  import opened EdgeLists
  import opened Sequences

  predicate Less(e: Edge, f: Edge) {
    e.a < f.a || (e.a == f.a && e.b < f.b)
  }

  ghost predicate StrictlySorted(edges: seq<Edge>) {
    forall i, j :: 0 <= i < j < |edges| ==> Less(edges[i], edges[j])
  }

  /** The i-th edge is the first proper one of its pair, and r is its canonical form. */
  ghost predicate FirstAt(edges: seq<Edge>, i: nat, r: Edge) {
    && i < |edges|
    && edges[i].a != edges[i].b
    && r == Canonicalize(edges[i])
    && forall j :: 0 <= j < i ==> Key(edges[j].a, edges[j].b) != r.Pair()
  }

  ghost predicate IsFirst(edges: seq<Edge>, r: Edge) {
    exists i :: FirstAt(edges, i, r)
  }

  ghost predicate NormalForm(edges: seq<Edge>, result: seq<Edge>) {
    && StrictlySorted(result)
    && forall r :: r in result <==> IsFirst(edges, r)
  }

  /** Strictly sorted lists with the same members are the same list. */
  lemma {:induction false} SortedUnique(s: seq<Edge>, t: seq<Edge>)
    requires StrictlySorted(s) && StrictlySorted(t) && forall e :: e in s <==> e in t
    ensures s == t
  {
    if s == [] {
      NoMembers(t);
    } else {
      assert s[0] in t && t[0] in s;
      forall e ensures e in s[1..] <==> e in t[1..] {
        TailMembers(s, e);
        TailMembers(t, e);
      }
      SortedUnique(s[1..], t[1..]);
    }
  }

  lemma TailMembers(s: seq<Edge>, e: Edge)
    requires s != [] && StrictlySorted(s)
    ensures e in s[1..] <==> e in s && e != s[0]
  {
    if e in s && e != s[0] {
      var i :| 0 <= i < |s| && s[i] == e;
      assert s[1..][i - 1] == e;
    }
    if e in s[1..] {
      var i :| 0 <= i < |s[1..]| && s[1..][i] == e;
      assert Less(s[0], s[i + 1]);
    }
  }

  /** One input has one normal form, however its map is iterated. */
  lemma NormalFormUnique(edges: seq<Edge>, r: seq<Edge>, t: seq<Edge>)
    requires NormalForm(edges, r) && NormalForm(edges, t)
    ensures r == t
  {
    SortedUnique(r, t);
  }

  /** Each pair has one baseline throughout the list. */
  ghost predicate OneBaseline(edges: seq<Edge>) {
    forall e, f :: e in edges && f in edges && Key(e.a, e.b) == Key(f.a, f.b) ==> Canonicalize(e) == Canonicalize(f)
  }

  ghost predicate Occurs(edges: seq<Edge>, r: Edge) {
    exists e :: e in edges && e.a != e.b && Canonicalize(e) == r
  }

  lemma {:induction false} FirstExists(edges: seq<Edge>, i: nat) returns (f: nat)
    requires i < |edges| && edges[i].a != edges[i].b
    ensures f <= i && FirstAt(edges, f, Canonicalize(edges[f]))
    ensures Key(edges[f].a, edges[f].b) == Key(edges[i].a, edges[i].b)
    decreases i
  {
    if j :| 0 <= j < i && Key(edges[j].a, edges[j].b) == Key(edges[i].a, edges[i].b) {
      f := FirstExists(edges, j);
    } else {
      f := i;
    }
  }

  /** With one baseline per pair the first occurrences are all the occurrences. */
  lemma OccursIsFirst(edges: seq<Edge>, r: Edge)
    requires OneBaseline(edges)
    ensures Occurs(edges, r) <==> IsFirst(edges, r)
  {
    if Occurs(edges, r) {
      var e :| e in edges && e.a != e.b && Canonicalize(e) == r;
      var i :| 0 <= i < |edges| && edges[i] == e;
      var f := FirstExists(edges, i);
      assert Canonicalize(edges[f]) == r;
    }
    if IsFirst(edges, r) {
      var i: nat :| FirstAt(edges, i, r);
      assert edges[i] in edges;
    }
  }

  /** Lists with the same edges, in any order and orientation, have the same normal form. */
  lemma NormalFormIgnoresOrder(edges: seq<Edge>, edges': seq<Edge>, r: seq<Edge>, r': seq<Edge>)
    requires NormalForm(edges, r) && NormalForm(edges', r')
    requires OneBaseline(edges) && OneBaseline(edges')
    requires forall e :: Occurs(edges, e) <==> Occurs(edges', e)
    ensures r == r'
  {
    forall e ensures e in r <==> e in r' {
      OccursIsFirst(edges, e);
      OccursIsFirst(edges', e);
    }
    SortedUnique(r, r');
  }

  /** The normal form is a simple graph on the pairs of the input. */
  lemma NormalFormIsSimple(n: nat, edges: seq<Edge>, r: seq<Edge>)
    requires NormalForm(edges, r) && forall e :: e in edges ==> e.a < n && e.b < n
    ensures SimpleEdges(n, r)
    ensures Pairs(r) == set e | e in edges && e.a != e.b :: Key(e.a, e.b)
  {
    forall e | e in r ensures e.a < e.b < n {
      var i: nat :| FirstAt(edges, i, e);
      assert edges[i] in edges;
    }
    forall i, j | 0 <= i < j < |r| ensures r[i].Pair() != r[j].Pair() {
      assert Less(r[i], r[j]);
    }
    var pairs := set e | e in edges && e.a != e.b :: Key(e.a, e.b);
    forall p ensures p in Pairs(r) <==> p in pairs {
      if p in Pairs(r) {
        var e :| e in r && e.Pair() == p;
        var i: nat :| FirstAt(edges, i, e);
        assert edges[i] in edges;
      }
      if p in pairs {
        var e :| e in edges && e.a != e.b && Key(e.a, e.b) == p;
        var i :| 0 <= i < |edges| && edges[i] == e;
        var f := FirstExists(edges, i);
        assert IsFirst(edges, Canonicalize(edges[f]));
        assert Canonicalize(edges[f]) in r;
      }
    }
  }

  /** A list already in normal form is left as it is. */
  lemma NormalFormIsIdempotent(edges: seq<Edge>, r: seq<Edge>, again: seq<Edge>)
    requires NormalForm(edges, r) && NormalForm(r, again)
    ensures again == r
  {
    forall e ensures e in again <==> e in r {
      if e in r {
        var i: nat :| i < |r| && r[i] == e;
        ProperMember(edges, r, e);
        forall j | 0 <= j < i ensures Key(r[j].a, r[j].b) != e.Pair() {
          ProperMember(edges, r, r[j]);
          assert Less(r[j], r[i]);
        }
        assert FirstAt(r, i, e);
      }
      if e in again {
        var i: nat :| FirstAt(r, i, e);
        ProperMember(edges, r, r[i]);
      }
    }
    SortedUnique(again, r);
  }

  lemma ProperMember(edges: seq<Edge>, r: seq<Edge>, e: Edge)
    requires NormalForm(edges, r) && e in r
    ensures e.a < e.b
  {
    var i: nat :| FirstAt(edges, i, e);
  }

  /** The table holds the first edge of every pair among those seen so far. */
  ghost predicate Unique(edges: seq<Edge>, k: nat, unique: map<(nat, nat), Edge>) {
    && k <= |edges|
    && (forall p :: p in unique ==> unique[p].Pair() == p && IsFirst(edges[..k], unique[p]))
    && forall j :: 0 <= j < k && edges[j].a != edges[j].b ==> Key(edges[j].a, edges[j].b) in unique
  }

  lemma FirstStays(edges: seq<Edge>, k: nat, r: Edge)
    requires k < |edges| && IsFirst(edges[..k], r)
    ensures IsFirst(edges[..k + 1], r)
  {
    var i: nat :| FirstAt(edges[..k], i, r);
    assert FirstAt(edges[..k + 1], i, r);
  }

  lemma UniqueSkips(edges: seq<Edge>, k: nat, unique: map<(nat, nat), Edge>)
    requires Unique(edges, k, unique) && k < |edges|
    requires edges[k].a == edges[k].b || Key(edges[k].a, edges[k].b) in unique
    ensures Unique(edges, k + 1, unique)
  {
    forall p | p in unique ensures IsFirst(edges[..k + 1], unique[p]) {
      FirstStays(edges, k, unique[p]);
    }
  }

  lemma UniqueAdds(edges: seq<Edge>, k: nat, unique: map<(nat, nat), Edge>)
    requires Unique(edges, k, unique) && k < |edges|
    requires edges[k].a != edges[k].b && Key(edges[k].a, edges[k].b) !in unique
    ensures Unique(edges, k + 1, unique[Key(edges[k].a, edges[k].b) := Canonicalize(edges[k])])
  {
    var e := Canonicalize(edges[k]);
    assert e.Pair() == Key(edges[k].a, edges[k].b);
    assert FirstAt(edges[..k + 1], k, e) by {
      forall j | 0 <= j < k ensures Key(edges[j].a, edges[j].b) != e.Pair() {
        ImproperKey(edges[j], e);
      }
    }
    forall p | p in unique ensures IsFirst(edges[..k + 1], unique[p]) {
      FirstStays(edges, k, unique[p]);
    }
  }

  /** A loop never has the pair of a proper edge. */
  lemma ImproperKey(f: Edge, e: Edge)
    requires e.a != e.b
    ensures Key(f.a, f.b) == e.Pair() ==> f.a != f.b
  {}

  /** A pair has one first edge. */
  lemma FirstUnique(edges: seq<Edge>, r: Edge, t: Edge)
    requires IsFirst(edges, r) && IsFirst(edges, t) && r.Pair() == t.Pair()
    ensures r == t
  {
    var i: nat :| FirstAt(edges, i, r);
    var j: nat :| FirstAt(edges, j, t);
    assert Key(edges[i].a, edges[i].b) == Key(edges[j].a, edges[j].b) == r.Pair();
  }

  lemma UniqueIsFirst(edges: seq<Edge>, unique: map<(nat, nat), Edge>, r: Edge)
    requires Unique(edges, |edges|, unique)
    ensures IsFirst(edges, r) <==> r.Pair() in unique && unique[r.Pair()] == r
  {
    assert edges[..|edges|] == edges;
    if IsFirst(edges, r) {
      var i: nat :| FirstAt(edges, i, r);
      assert r.Pair() == Key(edges[i].a, edges[i].b);
      FirstUnique(edges, r, unique[r.Pair()]);
    }
  }

  /** The place of an edge in a sorted list. */
  function Inserted(e: Edge, sorted: seq<Edge>): (r: seq<Edge>)
    ensures forall f :: f in r <==> f == e || f in sorted
  {
    if sorted == [] then [e]
    else if Less(e, sorted[0]) then [e] + sorted
    else
      assert sorted == [sorted[0]] + sorted[1..];
      [sorted[0]] + Inserted(e, sorted[1..])
  }

  lemma {:induction false} InsertedSorted(e: Edge, sorted: seq<Edge>)
    requires StrictlySorted(sorted) && forall f :: f in sorted ==> f.Pair() != e.Pair()
    ensures StrictlySorted(Inserted(e, sorted))
  {
    if sorted != [] && !Less(e, sorted[0]) {
      InsertedSorted(e, sorted[1..]);
      var rest := Inserted(e, sorted[1..]);
      assert sorted[0] in sorted;
      forall j | 0 <= j < |rest| ensures Less(sorted[0], rest[j]) {
        assert rest[j] in rest;
        if rest[j] != e {
          var i :| 0 <= i < |sorted[1..]| && sorted[1..][i] == rest[j];
          assert Less(sorted[0], sorted[i + 1]);
        }
      }
    }
  }

  method SortEdges(edges: seq<Edge>) returns (sorted: seq<Edge>)
    requires NoRepeats(edges)
    ensures StrictlySorted(sorted) && forall e :: e in sorted <==> e in edges
  {
    sorted := [];
    var i := 0;
    while i < |edges|
      invariant 0 <= i <= |edges| && StrictlySorted(sorted)
      invariant forall e :: e in sorted <==> e in edges[..i]
    {
      forall f | f in sorted ensures f.Pair() != edges[i].Pair() {
        var j :| 0 <= j < i && edges[..i][j] == f;
        assert Differ(edges, j, i);
      }
      InsertedSorted(edges[i], sorted);
      sorted := Inserted(edges[i], sorted);
      assert edges[..i + 1] == edges[..i] + [edges[i]];
      i := i + 1;
    }
    assert edges[..i] == edges;
  }

  method FirstEdges(edges: seq<Edge>) returns (unique: map<(nat, nat), Edge>)
    ensures Unique(edges, |edges|, unique)
  {
    unique := map[];
    for k := 0 to |edges|
      invariant Unique(edges, k, unique)
    {
      var edge := edges[k];
      if edge.a == edge.b || Key(edge.a, edge.b) in unique {
        UniqueSkips(edges, k, unique);
      } else {
        UniqueAdds(edges, k, unique);
        edge := Canonicalize(edge);
        unique := unique[edge.Pair() := edge];
      }
    }
  }

  method NormalizeGeneratedEdges(edges: seq<Edge>) returns (result: seq<Edge>)
    ensures NormalForm(edges, result)
  {
    var unique := FirstEdges(edges);
    result := Collect(unique);
    result := SortEdges(result);
    forall r ensures r in result <==> IsFirst(edges, r) {
      UniqueIsFirst(edges, unique, r);
    }
  }

  /** The values of the table, in whatever order it is iterated. */
  method Collect(unique: map<(nat, nat), Edge>) returns (edges: seq<Edge>)
    requires forall p :: p in unique ==> unique[p].Pair() == p
    ensures NoRepeats(edges)
    ensures forall e :: e in edges <==> e.Pair() in unique && unique[e.Pair()] == e
  {
    edges := [];
    var rest := unique.Keys;
    while rest != {}
      invariant rest <= unique.Keys && NoRepeats(edges)
      invariant forall e :: e in edges <==> e.Pair() in unique.Keys - rest && unique[e.Pair()] == e
      decreases |rest|
    {
      var p :| p in rest;
      forall i | 0 <= i < |edges| ensures edges[i].Pair() != p {
        assert edges[i] in edges;
      }
      NoRepeatsAppend(edges, unique[p]);
      edges := edges + [unique[p]];
      rest := rest - {p};
    }
  }
}
