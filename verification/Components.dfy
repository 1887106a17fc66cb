/** The connected components of an edge list, and the chain that joins them. */
module Components {
  import opened EdgeLists
  import opened EdgePaths
  import opened Random
  import opened Sequences

  /** The unordered pairs joined by an edge list, canonical or not. */
  ghost function Links(edges: seq<Edge>): set<(nat, nat)> {
    set e | e in edges :: Key(e.a, e.b)
  }

  ghost predicate InRange(n: nat, edges: seq<Edge>) {
    forall e :: e in edges ==> e.a < n && e.b < n
  }

  ghost predicate Neighbored(n: nat, links: set<(nat, nat)>, lists: seq<seq<nat>>) {
    && |lists| == n
    && forall u: nat, v: nat :: u < n ==> (v in lists[u] <==> v < n && Key(u, v) in links)
  }

  method NeighborLists(n: nat, edges: seq<Edge>) returns (lists: seq<seq<nat>>)
    requires InRange(n, edges)
    ensures Neighbored(n, Links(edges), lists)
  {
    lists := seq(n, _ => []);
    var i := 0;
    assert Links(edges[..0]) == {};
    while i < |edges|
      invariant 0 <= i <= |edges|
      invariant Neighbored(n, Links(edges[..i]), lists)
    {
      var e := edges[i];
      assert edges[..i + 1] == edges[..i] + [e];
      lists := lists[e.a := lists[e.a] + [e.b]];
      lists := lists[e.b := lists[e.b] + [e.a]];
      i := i + 1;
    }
    assert edges[..i] == edges;
  }

  /** Nothing joins the set to a node outside it. */
  ghost predicate Closed(links: set<(nat, nat)>, s: set<nat>) {
    forall u: nat, v: nat :: u in s && Key(u, v) in links ==> v in s
  }

  ghost function Marked(visited: seq<bool>): set<nat> {
    set v: nat | v < |visited| && visited[v]
  }

  /** Everything linked to the members of a closed set lies inside it. */
  lemma ClosedHoldsLinked(links: set<(nat, nat)>, s: set<nat>, u: nat, v: nat)
    requires Closed(links, s) && u in s && Linked(links, u, v)
    ensures v in s
  {
    var p :| Walk(links, p) && p[0] == u && p[|p| - 1] == v;
    ClosedHoldsWalk(links, s, p);
  }

  /** Where the search stands: closed old marks, finished nodes, and a stack of marked ones yet to expand. */
  ghost predicate Searching(links: set<(nat, nat)>, n: nat, before: set<nat>, marked: set<nat>, start: nat,
                            component: seq<nat>, stack: seq<nat>) {
    && Distinct(component + stack)
    && marked == before + Elements(component + stack)
    && (forall v :: v in component + stack ==> v < n && v !in before && Linked(links, start, v))
    && start in component + stack
    && forall u: nat, v: nat :: u in component && Key(u, v) in links ==> v in component || v in stack
  }

  /** The neighbours of the expanded node seen so far are in the component or on the stack. */
  ghost predicate Expanding(links: set<(nat, nat)>, n: nat, before: set<nat>, marked: set<nat>, start: nat,
                            component: seq<nat>, stack: seq<nat>, node: nat, list: seq<nat>, k: nat) {
    && k <= |list|
    && component != [] && component[|component| - 1] == node
    && Distinct(component + stack)
    && marked == before + Elements(component + stack)
    && (forall v :: v in component + stack ==> v < n && v !in before && Linked(links, start, v))
    && start in component + stack
    && (forall u: nat, v: nat :: u in component[..|component| - 1] && Key(u, v) in links ==>
         v in component || v in stack)
    && forall j :: 0 <= j < k ==> list[j] in component || list[j] in stack
  }

  lemma PopStack(links: set<(nat, nat)>, n: nat, before: set<nat>, marked: set<nat>, start: nat,
                 component: seq<nat>, stack: seq<nat>, list: seq<nat>)
    requires Searching(links, n, before, marked, start, component, stack) && stack != []
    ensures
      var node := stack[|stack| - 1];
      Expanding(links, n, before, marked, start, component + [node], stack[..|stack| - 1], node, list, 0)
  {
    var last := |stack| - 1;
    var node := stack[last];
    var all, all' := component + stack, (component + [node]) + stack[..last];
    forall v ensures v in all <==> v in all' {
      if v in stack {
        var k :| 0 <= k < |stack| && stack[k] == v;
        assert k < last ==> stack[..last][k] == v;
      }
    }
    assert Elements(all) == Elements(all');
    forall i, j | 0 <= i < j < |all'| ensures all'[i] != all'[j] {
      assert all'[i] == all[Unpop(|component|, last, i)] && all'[j] == all[Unpop(|component|, last, j)];
    }
    assert (component + [node])[..|component|] == component;
  }

  /** The position before the pop of what ends up at position i after it. */
  function Unpop(size: nat, last: nat, i: nat): nat {
    if i < size then i else if i == size then size + last else i - 1
  }

  lemma PushNeighbor(links: set<(nat, nat)>, n: nat, before: set<nat>, marked: set<nat>, start: nat,
                     component: seq<nat>, stack: seq<nat>, node: nat, list: seq<nat>, k: nat)
    requires Expanding(links, n, before, marked, start, component, stack, node, list, k)
    requires k < |list| && list[k] < n && list[k] !in marked && Key(node, list[k]) in links
    ensures Expanding(links, n, before, marked + {list[k]}, start, component, stack + [list[k]], node, list, k + 1)
  {
    var v := list[k];
    var all := component + stack;
    assert component + (stack + [v]) == all + [v];
    assert Elements(all + [v]) == Elements(all) + {v};
    assert v !in Elements(all);
    assert component[|component| - 1] in all;
    LinkedPair(links, node, v);
    LinkedTrans(links, start, node, v);
  }

  lemma SkipNeighbor(links: set<(nat, nat)>, n: nat, before: set<nat>, marked: set<nat>, start: nat,
                     component: seq<nat>, stack: seq<nat>, node: nat, list: seq<nat>, k: nat)
    requires Expanding(links, n, before, marked, start, component, stack, node, list, k) && Closed(links, before)
    requires k < |list| && list[k] in marked && Key(node, list[k]) in links
    ensures Expanding(links, n, before, marked, start, component, stack, node, list, k + 1)
  {
    var v := list[k];
    assert Key(v, node) == Key(node, v);
    assert component[|component| - 1] in component + stack;
    assert v !in before;
    assert v in component + stack;
  }

  /** The search from one unvisited node: it collects exactly the nodes linked to it. */
  method Explore(n: nat, ghost links: set<(nat, nat)>, lists: seq<seq<nat>>, visited: array<bool>, start: nat)
    returns (component: seq<nat>)
    requires InLinks(n, links) && Neighbored(n, links, lists) && visited.Length == n
    requires start < n && !visited[start] && Closed(links, Marked(visited[..]))
    modifies visited
    ensures Distinct(component) && component != []
    ensures forall v :: v in component <==> Linked(links, start, v)
    ensures Marked(visited[..]) == Marked(old(visited[..])) + Elements(component)
    ensures Marked(old(visited[..])) !! Elements(component)
    ensures Closed(links, Marked(visited[..]))
  {
    ghost var before := Marked(visited[..]);
    component := [];
    var stack := [start];
    visited[start] := true;
    LinkedRefl(links, start);
    MarkOne(old(visited[..]), start);
    assert visited[..] == old(visited[..])[start := true];
    assert component + stack == [start];
    while |stack| > 0
      invariant Searching(links, n, before, Marked(visited[..]), start, component, stack)
      decreases n - |component|
    {
      DistinctBounded(n, component + stack);
      component, stack := Expand(n, links, lists, visited, start, before, component, stack);
    }
    assert component + stack == component;
    Explored(links, n, before, Marked(visited[..]), start, component);
  }

  ghost predicate InLinks(n: nat, links: set<(nat, nat)>) {
    forall u: nat, v: nat :: Key(u, v) in links ==> u < n && v < n
  }

  lemma MarkOne(visited: seq<bool>, v: nat)
    requires v < |visited|
    ensures Marked(visited[v := true]) == Marked(visited) + {v}
  {}

  /** One round: the top of the stack moves to the component and its unmarked neighbours to the stack. */
  method Expand(n: nat, ghost links: set<(nat, nat)>, lists: seq<seq<nat>>, visited: array<bool>, ghost start: nat,
                ghost before: set<nat>, component: seq<nat>, stack: seq<nat>)
    returns (component': seq<nat>, stack': seq<nat>)
    requires InLinks(n, links) && Neighbored(n, links, lists) && visited.Length == n && Closed(links, before)
    requires Searching(links, n, before, Marked(visited[..]), start, component, stack) && stack != []
    modifies visited
    ensures Searching(links, n, before, Marked(visited[..]), start, component', stack')
    ensures |component'| == |component| + 1
  {
    var last := |stack| - 1;
    var node := stack[last];
    assert node in component + stack;
    var list := lists[node];
    PopStack(links, n, before, Marked(visited[..]), start, component, stack, list);
    stack' := stack[..last];
    component' := component + [node];
    var k := 0;
    while k < |list|
      invariant 0 <= k <= |list|
      invariant Expanding(links, n, before, Marked(visited[..]), start, component', stack', node, list, k)
    {
      var neighbor := list[k];
      assert neighbor in list;
      if !visited[neighbor] {
        PushNeighbor(links, n, before, Marked(visited[..]), start, component', stack', node, list, k);
        MarkOne(visited[..], neighbor);
        ghost var marks := visited[..];
        visited[neighbor] := true;
        assert visited[..] == marks[neighbor := true];
        stack' := stack' + [neighbor];
      } else {
        SkipNeighbor(links, n, before, Marked(visited[..]), start, component', stack', node, list, k);
      }
      k := k + 1;
    }
  }

  lemma Explored(links: set<(nat, nat)>, n: nat, before: set<nat>, marked: set<nat>, start: nat, component: seq<nat>)
    requires Searching(links, n, before, marked, start, component, []) && Closed(links, before)
    ensures Distinct(component) && component != []
    ensures marked == before + Elements(component) && before !! Elements(component)
    ensures forall v :: v in component <==> Linked(links, start, v)
    ensures Closed(links, marked)
  {
    assert component + [] == component;
    forall v | Linked(links, start, v) ensures v in component {
      ClosedHoldsLinked(links, Elements(component), start, v);
    }
  }

  ghost predicate Placed(components: seq<seq<nat>>, v: nat) {
    exists c :: 0 <= c < |components| && v in components[c]
  }

  /** Components are without repetitions, and two placed nodes share one exactly when a walk links them. */
  ghost predicate Classes(n: nat, links: set<(nat, nat)>, components: seq<seq<nat>>) {
    && (forall c :: 0 <= c < |components| ==> components[c] != [] && Distinct(components[c]))
    && (forall c, v :: 0 <= c < |components| && v in components[c] ==> v < n)
    && forall c, d, u, v ::
         0 <= c < |components| && 0 <= d < |components| && u in components[c] && v in components[d] ==>
         (c == d <==> Linked(links, u, v))
  }

  /** The classes hold every node: they are exactly the reachability classes of the links. */
  ghost predicate Partition(n: nat, links: set<(nat, nat)>, components: seq<seq<nat>>) {
    && Classes(n, links, components)
    && forall v: nat :: v < n ==> Placed(components, v)
  }

  lemma NewClass(n: nat, links: set<(nat, nat)>, components: seq<seq<nat>>, marked: set<nat>, start: nat,
                 component: seq<nat>)
    requires Classes(n, links, components) && Closed(links, marked) && InLinks(n, links) && start < n
    requires forall v :: v in marked <==> Placed(components, v)
    requires component != [] && Distinct(component) && marked !! Elements(component)
    requires forall v :: v in component <==> Linked(links, start, v)
    requires forall v :: v in component ==> v < n
    ensures Classes(n, links, components + [component])
    ensures forall v :: v in marked + Elements(component) <==> Placed(components + [component], v)
  {
    var more := components + [component];
    forall c, d, u, v | 0 <= c < |more| && 0 <= d < |more| && u in more[c] && v in more[d]
      ensures c == d <==> Linked(links, u, v)
    {
      if c == |components| && d == |components| {
        LinkedSym(links, start, u);
        LinkedTrans(links, u, start, v);
      } else if c == |components| {
        OldAndNew(links, components, marked, component, d, v, u);
      } else if d == |components| {
        OldAndNew(links, components, marked, component, c, u, v);
      }
    }
    forall v ensures v in marked + Elements(component) <==> Placed(more, v) {
      if v in component {
        assert more[|components|] == component;
      }
      if Placed(components, v) {
        var c :| 0 <= c < |components| && v in components[c];
        assert more[c] == components[c];
      }
    }
  }

  lemma OldAndNew(links: set<(nat, nat)>, components: seq<seq<nat>>, marked: set<nat>, component: seq<nat>, c: nat,
                  u: nat, v: nat)
    requires Closed(links, marked) && marked !! Elements(component)
    requires forall x :: x in marked <==> Placed(components, x)
    requires c < |components| && u in components[c] && v in component
    ensures !Linked(links, u, v) && !Linked(links, v, u)
  {
    assert Placed(components, u);
    assert v in Elements(component);
    if Linked(links, v, u) {
      LinkedSym(links, v, u);
    }
    if Linked(links, u, v) {
      ClosedHoldsLinked(links, marked, u, v);
    }
  }

  lemma LinkedStaysInRange(n: nat, links: set<(nat, nat)>, u: nat, v: nat)
    requires InLinks(n, links) && u < n && Linked(links, u, v)
    ensures v < n
  {
    var all := Elements(Range(n));
    forall x: nat ensures x in all <==> x < n {
      if x < n {
        assert Range(n)[x] == x;
      }
    }
    ClosedHoldsLinked(links, all, u, v);
  }

  method GeneratedComponents(n: nat, edges: seq<Edge>) returns (components: seq<seq<nat>>)
    requires InRange(n, edges)
    ensures Partition(n, Links(edges), components)
  {
    var lists := NeighborLists(n, edges);
    ghost var links := Links(edges);
    var visited := new bool[n](_ => false);
    components := [];
    assert Marked(visited[..]) == {};
    var start := 0;
    while start < n
      invariant 0 <= start <= n && Classes(n, links, components) && Closed(links, Marked(visited[..]))
      invariant forall v :: v in Marked(visited[..]) <==> Placed(components, v)
      invariant forall v: nat :: v < start ==> v in Marked(visited[..])
    {
      if !visited[start] {
        ghost var marked := Marked(visited[..]);
        var component := Explore(n, links, lists, visited, start);
        forall v | v in component ensures v < n {
          LinkedStaysInRange(n, links, start, v);
        }
        LinkedRefl(links, start);
        NewClass(n, links, components, marked, start, component);
        components := components + [component];
      }
      start := start + 1;
    }
  }

  /** The i-th node of the sequence comes from component c. */
  ghost predicate Represents(components: seq<seq<nat>>, chosen: seq<nat>, i: nat, c: nat) {
    i < |chosen| && c < |components| && chosen[i] in components[c]
  }

  ghost predicate FromSome(components: seq<seq<nat>>, chosen: seq<nat>, i: nat) {
    exists c :: Represents(components, chosen, i, c)
  }

  ghost predicate HasSome(components: seq<seq<nat>>, chosen: seq<nat>, c: nat) {
    exists i :: Represents(components, chosen, i, c)
  }

  /** One node of every component, in some order. */
  ghost predicate Representatives(components: seq<seq<nat>>, chosen: seq<nat>) {
    && |chosen| == |components|
    && (forall i: nat :: i < |chosen| ==> FromSome(components, chosen, i))
    && (forall i: nat, j: nat, c: nat ::
         Represents(components, chosen, i, c) && Represents(components, chosen, j, c) ==> i == j)
    && forall c: nat :: c < |components| ==> HasSome(components, chosen, c)
  }

  /** A node picked for one component is in no other. */
  lemma PickedFrom(n: nat, links: set<(nat, nat)>, components: seq<seq<nat>>, picked: seq<nat>, c: nat, d: nat)
    requires Classes(n, links, components) && |picked| == |components|
    requires c < |components| && d < |components| && picked[d] in components[d]
    ensures picked[d] in components[c] ==> c == d
  {
    LinkedRefl(links, picked[d]);
  }

  lemma ShuffledRepresent(n: nat, links: set<(nat, nat)>, components: seq<seq<nat>>, picked: seq<nat>,
                          shuffled: seq<nat>)
    requires Classes(n, links, components) && |picked| == |components|
    requires forall c: nat :: c < |components| ==> picked[c] in components[c]
    requires multiset(shuffled) == multiset(picked) && |shuffled| == |picked|
    ensures Representatives(components, shuffled)
  {
    forall c, d | 0 <= c < d < |picked| ensures picked[c] != picked[d] {
      PickedFrom(n, links, components, picked, c, d);
    }
    PermutationDistinct(picked, shuffled);
    forall i: nat | i < |shuffled| ensures FromSome(components, shuffled, i) {
      PermutationMembers(shuffled, picked, shuffled[i]);
      var c :| 0 <= c < |picked| && picked[c] == shuffled[i];
      assert Represents(components, shuffled, i, c);
    }
    forall i: nat, j: nat, c: nat | Represents(components, shuffled, i, c) && Represents(components, shuffled, j, c)
      ensures i == j
    {
      PermutationMembers(shuffled, picked, shuffled[i]);
      PermutationMembers(shuffled, picked, shuffled[j]);
      var a: nat :| a < |picked| && picked[a] == shuffled[i];
      var b: nat :| b < |picked| && picked[b] == shuffled[j];
      PickedFrom(n, links, components, picked, c, a);
      PickedFrom(n, links, components, picked, c, b);
    }
    forall c: nat | c < |components| ensures HasSome(components, shuffled, c) {
      PermutationMembers(shuffled, picked, picked[c]);
      var i :| 0 <= i < |shuffled| && shuffled[i] == picked[c];
      assert Represents(components, shuffled, i, c);
    }
  }

  /** Different representatives were not linked, so no edge of the chain was there before. */
  lemma RepresentativesApart(n: nat, links: set<(nat, nat)>, components: seq<seq<nat>>, chosen: seq<nat>, i: nat,
                             j: nat)
    requires Classes(n, links, components) && Representatives(components, chosen) && i < j < |chosen|
    ensures !Linked(links, chosen[i], chosen[j]) && chosen[i] != chosen[j]
    ensures chosen[i] < n && chosen[j] < n
  {
    assert FromSome(components, chosen, i) && FromSome(components, chosen, j);
    var c :| Represents(components, chosen, i, c);
    var d :| Represents(components, chosen, j, d);
    assert c != d;
    LinkedRefl(links, chosen[i]);
  }

  ghost predicate ChainUpTo(before: seq<Edge>, edges: seq<Edge>, chosen: seq<nat>, k: nat) {
    && |edges| == |before| + k && k < |chosen|
    && edges[..|before|] == before
    && forall i :: 0 <= i < k ==> edges[|before| + i] == Plain(chosen[i], chosen[i + 1])
  }

  lemma {:induction false} ChainReaches(links: set<(nat, nat)>, chosen: seq<nat>, i: nat)
    requires i < |chosen|
    requires forall j :: 0 <= j < |chosen| - 1 ==> Key(chosen[j], chosen[j + 1]) in links
    ensures Linked(links, chosen[0], chosen[i])
  {
    if i == 0 {
      LinkedRefl(links, chosen[0]);
    } else {
      ChainReaches(links, chosen, i - 1);
      assert Key(chosen[i - 1], chosen[i - 1 + 1]) in links;
      LinkedPair(links, chosen[i - 1], chosen[i]);
      LinkedTrans(links, chosen[0], chosen[i - 1], chosen[i]);
    }
  }

  /** The chain reaches a representative of every component, and the component reaches the rest. */
  lemma ChainConnects(n: nat, before: seq<Edge>, edges: seq<Edge>, components: seq<seq<nat>>, chosen: seq<nat>)
    requires Partition(n, Links(before), components) && Representatives(components, chosen)
    requires chosen != [] && ChainUpTo(before, edges, chosen, |chosen| - 1)
    ensures ConnectedOn(n, Links(edges))
  {
    forall v: nat | v < n ensures Linked(Links(edges), chosen[0], v) {
      assert Placed(components, v);
      var c: nat :| c < |components| && v in components[c];
      assert HasSome(components, chosen, c);
      var i: nat :| Represents(components, chosen, i, c);
      ChainReaches(Links(edges), chosen, i);
      LinkedMore(Links(before), Links(edges), chosen[i], v);
      LinkedTrans(Links(edges), chosen[0], chosen[i], v);
    }
    RootedIsConnected(n, Links(edges), chosen[0]);
  }

  lemma PairIsLinked(edges: seq<Edge>, e: Edge)
    requires e in edges
    ensures Linked(Links(edges), e.a, e.b)
  {
    LinkedPair(Links(edges), e.a, e.b);
  }

  /** The added edges are new, proper and all different. */
  lemma ChainInRange(n: nat, before: seq<Edge>, edges: seq<Edge>, components: seq<seq<nat>>, chosen: seq<nat>)
    requires InRange(n, before) && Classes(n, Links(before), components) && Representatives(components, chosen)
    requires chosen != [] && ChainUpTo(before, edges, chosen, |chosen| - 1)
    ensures InRange(n, edges)
  {
    forall e | e in edges ensures e.a < n && e.b < n {
      var i :| 0 <= i < |edges| && edges[i] == e;
      if i < |before| {
        assert edges[..|before|][i] == e;
      } else {
        var j := i - |before|;
        assert edges[|before| + j] == Plain(chosen[j], chosen[j + 1]);
        RepresentativesApart(n, Links(before), components, chosen, j, j + 1);
      }
    }
  }

  lemma ChainIsSimple(n: nat, before: seq<Edge>, edges: seq<Edge>, components: seq<seq<nat>>, chosen: seq<nat>, k: nat)
    requires SimpleEdges(n, before) && Classes(n, Links(before), components) && Representatives(components, chosen)
    requires ChainUpTo(before, edges, chosen, k)
    ensures SimpleEdges(n, edges)
    decreases k
  {
    if k == 0 {
      assert edges == before;
    } else {
      var front := edges[..|edges| - 1];
      var last := edges[|edges| - 1];
      assert ChainUpTo(before, front, chosen, k - 1) by {
        assert front[..|before|] == edges[..|before|];
      }
      ChainIsSimple(n, before, front, components, chosen, k - 1);
      assert edges == front + [last];
      assert last == edges[|before| + (k - 1)] == Plain(chosen[k - 1], chosen[k]);
      RepresentativesApart(n, Links(before), components, chosen, k - 1, k);
      forall i: nat | i < |front| ensures front[i].Pair() != last.Pair() {
        ChainEdgeIsNew(n, before, front, components, chosen, k, i);
      }
      NoRepeatsAppend(front, last);
    }
  }

  lemma ChainEdgeIsNew(n: nat, before: seq<Edge>, front: seq<Edge>, components: seq<seq<nat>>, chosen: seq<nat>,
                       k: nat, i: nat)
    requires Classes(n, Links(before), components) && Representatives(components, chosen)
    requires 0 < k < |chosen| && ChainUpTo(before, front, chosen, k - 1) && i < |front|
    ensures Key(front[i].a, front[i].b) != Key(chosen[k - 1], chosen[k])
  {
    RepresentativesApart(n, Links(before), components, chosen, k - 1, k);
    if i < |before| {
      assert front[i] == front[..|before|][i] == before[i];
      PairIsLinked(before, before[i]);
      LinkedSym(Links(before), before[i].a, before[i].b);
    } else {
      var j := i - |before|;
      assert front[|before| + j] == Plain(chosen[j], chosen[j + 1]);
      RepresentativesApart(n, Links(before), components, chosen, j, k - 1);
      RepresentativesApart(n, Links(before), components, chosen, j, k);
    }
  }

  /** One representative of each component, drawn at random. */
  method Draw(components: seq<seq<nat>>, rng: Rand) returns (picked: seq<nat>)
    requires forall c :: 0 <= c < |components| ==> components[c] != []
    ensures |picked| == |components|
    ensures forall c :: 0 <= c < |components| ==> picked[c] in components[c]
  {
    picked := [];
    var i := 0;
    while i < |components|
      invariant 0 <= i == |picked| <= |components|
      invariant forall c :: 0 <= c < i ==> picked[c] in components[c]
    {
      var k := rng.Intn(|components[i]|);
      picked := picked + [components[i][k]];
      i := i + 1;
    }
  }

  /** The repair: a chain of plain edges through one node of each component, and nothing for a single one. */
  ghost predicate Chained(before: seq<Edge>, result: seq<Edge>, components: seq<seq<nat>>, chosen: seq<nat>) {
    if |components| <= 1 then result == before
    else Representatives(components, chosen) && ChainUpTo(before, result, chosen, |chosen| - 1)
  }

  /**
   * Whatever is drawn, the result is connected and extends the list by exactly one edge less than
   * there were components, each joining nodes that no walk linked before.
   */
  method ConnectGeneratedComponents(n: nat, edges: seq<Edge>, rng: Rand)
    returns (result: seq<Edge>, ghost components: seq<seq<nat>>, ghost chain: seq<nat>)
    requires InRange(n, edges)
    ensures Partition(n, Links(edges), components) && Chained(edges, result, components, chain)
    ensures |components| >= 1 ==> |result| == |edges| + |components| - 1
    ensures |edges| <= |result| && result[..|edges|] == edges
    ensures forall k :: |edges| <= k < |result| ==> !Linked(Links(edges), result[k].a, result[k].b)
    ensures InRange(n, result) && ConnectedOn(n, Links(result))
    ensures SimpleEdges(n, edges) ==> SimpleEdges(n, result)
  {
    var found := GeneratedComponents(n, edges);
    components, chain := found, [];
    if |found| <= 1 {
      OneClassConnects(n, Links(edges), components);
      return edges, components, chain;
    }
    var representatives := Draw(found, rng);
    var chosen := rng.Shuffle(representatives);
    chain := chosen;
    ShuffledRepresent(n, Links(edges), components, representatives, chosen);
    result := edges;
    var i := 0;
    while i + 1 < |chosen|
      invariant 0 <= i < |chosen|
      invariant ChainUpTo(edges, result, chosen, i)
    {
      result := result + [Plain(chosen[i], chosen[i + 1])];
      i := i + 1;
    }
    ChainConnects(n, edges, result, components, chosen);
    ChainInRange(n, edges, result, components, chosen);
    if SimpleEdges(n, edges) {
      ChainIsSimple(n, edges, result, components, chosen, i);
    }
    forall k | |edges| <= k < |result| ensures !Linked(Links(edges), result[k].a, result[k].b) {
      ChainJoinsApart(n, edges, result, components, chosen, k - |edges|);
    }
  }

  lemma ChainJoinsApart(n: nat, before: seq<Edge>, edges: seq<Edge>, components: seq<seq<nat>>, chosen: seq<nat>,
                        j: nat)
    requires Classes(n, Links(before), components) && Representatives(components, chosen)
    requires chosen != [] && ChainUpTo(before, edges, chosen, |chosen| - 1) && j < |chosen| - 1
    ensures !Linked(Links(before), edges[|before| + j].a, edges[|before| + j].b)
  {
    var e := edges[|before| + j];
    assert e == Plain(chosen[j], chosen[j + 1]);
    RepresentativesApart(n, Links(before), components, chosen, j, j + 1);
    if Linked(Links(before), e.a, e.b) {
      LinkedSym(Links(before), e.a, e.b);
    }
  }

  lemma OneClassConnects(n: nat, links: set<(nat, nat)>, components: seq<seq<nat>>)
    requires Partition(n, links, components) && |components| <= 1
    ensures ConnectedOn(n, links)
  {
    forall u: nat, v: nat | u < n && v < n ensures Linked(links, u, v) {
      assert Placed(components, u) && Placed(components, v);
    }
  }
}
