/** Watts-Strogatz generation: a ring lattice whose edges are rewired in place, one slot at a time. */
module WattsStrogatz {
  import opened Arithmetic
  import opened EdgeLists
  import opened Random
  import opened Sequences
  import opened Wrappers

  type Pair = (nat, nat)

  /** Slot (i, d) stands for the lattice edge from node i to the node d places further. */
  type Slot = (nat, nat)

  function Target(n: nat, slot: Slot): nat
    requires n > 0
  {
    (slot.0 + slot.1) % n
  }

  function LatticePair(n: nat, slot: Slot): Pair
    requires n > 0
  {
    Key(slot.0, Target(n, slot))
  }

  predicate IsSlot(n: nat, half: nat, slot: Slot) {
    slot.0 < n && 1 <= slot.1 <= half
  }

  predicate Before(slot: Slot, i: nat, d: nat) {
    slot.0 < i || (slot.0 == i && slot.1 < d)
  }

  ghost predicate Incident(p: Pair, v: nat) {
    p.0 == v || p.1 == v
  }

  /** Each slot owns one edge, an edge at its node, no two slots the same one, and every edge has an owner. */
  ghost predicate Owned(own: map<Slot, Pair>, edges: seq<Edge>) {
    && (forall s :: s in own ==> own[s] in Pairs(edges) && Incident(own[s], s.0))
    && (forall s, t :: s in own && t in own && own[s] == own[t] ==> s == t)
    && (forall p :: p in Pairs(edges) ==> exists s :: s in own && own[s] == p)
  }

  ghost predicate Unrewired(n: nat, own: map<Slot, Pair>, i: nat, d: nat)
    requires n > 0
  {
    forall s :: s in own && !Before(s, i, d) ==> own[s] == LatticePair(n, s)
  }

  ghost predicate Filled(n: nat, half: nat, own: map<Slot, Pair>, i: nat, d: nat) {
    forall s :: s in own <==> IsSlot(n, half, s) && Before(s, i, d)
  }

  lemma TargetCases(n: nat, slot: Slot)
    requires slot.0 < n && slot.1 < n
    ensures Target(n, slot) == if slot.0 + slot.1 < n then slot.0 + slot.1 else slot.0 + slot.1 - n
  {
    ModOnce(slot.0 + slot.1, n);
  }

  /** k below n keeps the edges of different slots apart, and every one of them a proper edge. */
  lemma LatticePairsDistinct(n: nat, half: nat, s: Slot, t: Slot)
    requires 2 * half < n && IsSlot(n, half, s) && IsSlot(n, half, t)
    ensures Target(n, s) < n && Target(n, s) != s.0
    ensures LatticePair(n, s) == LatticePair(n, t) ==> s == t
  {
    TargetCases(n, s);
    TargetCases(n, t);
  }

  lemma OwnNew(own: map<Slot, Pair>, edges: seq<Edge>, e: Edge, s: Slot)
    requires Owned(own, edges) && s !in own && e.Pair() !in Pairs(edges) && Incident(e.Pair(), s.0)
    ensures Owned(own[s := e.Pair()], edges + [e])
  {
    PairsAppend(edges, e);
    var own' := own[s := e.Pair()];
    forall p | p in Pairs(edges + [e]) ensures exists t :: t in own' && own'[t] == p {
      if p in Pairs(edges) {
        var t :| t in own && own[t] == p;
        assert t in own' && own'[t] == p;
      } else {
        assert s in own' && own'[s] == p;
      }
    }
  }

  lemma OwnMoved(own: map<Slot, Pair>, edges: seq<Edge>, edges': seq<Edge>, s: Slot, p: Pair)
    requires Owned(own, edges) && s in own && p !in Pairs(edges) && Incident(p, s.0)
    requires Pairs(edges') == Pairs(edges) - {own[s]} + {p}
    ensures Owned(own[s := p], edges')
  {
    var own' := own[s := p];
    forall q | q in Pairs(edges') ensures exists t :: t in own' && own'[t] == q {
      if q == p {
        assert s in own' && own'[s] == q;
      } else {
        var t :| t in own && own[t] == q;
        assert t in own' && own'[t] == q;
      }
    }
  }

  ghost function Other(p: Pair, v: nat): nat {
    if p.0 == v then p.1 else p.0
  }

  /** The first d slots of a node lead to d different neighbours. */
  lemma {:induction false} OwnedNeighbors(n: nat, edges: seq<Edge>, own: map<Slot, Pair>, v: nat, d: nat)
    returns (found: set<nat>)
    requires SimpleEdges(n, edges) && Owned(own, edges) && v < n
    requires forall k: nat :: 1 <= k <= d ==> (v, k) in own
    ensures found <= NeighborsOf(n, edges, v) && |found| == d
    ensures forall u :: u in found ==> exists k: nat :: 1 <= k <= d && u == Other(own[(v, k)], v)
  {
    if d == 0 {
      found := {};
    } else {
      var rest := OwnedNeighbors(n, edges, own, v, d - 1);
      var p := own[(v, d)];
      var u := Other(p, v);
      PairIsEdge(n, edges, p);
      assert Key(v, u) == p;
      forall k: nat | 1 <= k < d ensures u != Other(own[(v, k)], v) {
        PairIsEdge(n, edges, own[(v, k)]);
        assert Key(v, Other(own[(v, k)], v)) == own[(v, k)];
      }
      assert u !in rest;
      found := rest + {u};
    }
  }

  lemma PairIsEdge(n: nat, edges: seq<Edge>, p: Pair)
    requires SimpleEdges(n, edges) && p in Pairs(edges)
    ensures p.0 < p.1 < n
  {
    var e :| e in edges && e.Pair() == p;
  }

  /** Half the mean degree is guaranteed to every node by the slots it owns. */
  lemma DegreeAtLeastHalf(n: nat, half: nat, edges: seq<Edge>, own: map<Slot, Pair>, v: nat)
    requires SimpleEdges(n, edges) && Owned(own, edges) && v < n
    requires forall k: nat :: 1 <= k <= half ==> (v, k) in own
    ensures Degree(n, edges, v) >= half
  {
    var found := OwnedNeighbors(n, edges, own, v, half);
    SubsetSize(found, NeighborsOf(n, edges, v));
  }

  /** The slots before the cursor are those the loops have gone through. */
  lemma FillNext(n: nat, half: nat, own: map<Slot, Pair>, i: nat, d: nat, p: Pair)
    requires Filled(n, half, own, i, d) && IsSlot(n, half, (i, d))
    ensures (i, d) !in own && Filled(n, half, own[(i, d) := p], i, d + 1)
  {}

  lemma FilledRow(n: nat, half: nat, own: map<Slot, Pair>, i: nat)
    requires Filled(n, half, own, i, half + 1)
    ensures Filled(n, half, own, i + 1, 1)
  {}

  /** The edges of one node to the half nodes after it. */
  method LatticeRow(n: nat, half: nat, b: Builder, ghost own: map<Slot, Pair>, i: nat)
    returns (ghost own': map<Slot, Pair>)
    requires 0 < half && 2 * half < n && i < n && b.n == n && b.Valid() && AllPlain(b.edges)
    requires Filled(n, half, own, i, 1) && Owned(own, b.edges) && Unrewired(n, own, 0, 1)
    modifies b`edges, b`adjacency
    ensures b.Valid() && AllPlain(b.edges) && |b.edges| == |old(b.edges)| + half
    ensures Filled(n, half, own', i + 1, 1) && Owned(own', b.edges) && Unrewired(n, own', 0, 1)
  {
    own' := own;
    var d := 1;
    while d <= half
      invariant 1 <= d <= half + 1 && b.Valid() && AllPlain(b.edges)
      invariant |b.edges| == |old(b.edges)| + d - 1
      invariant Filled(n, half, own', i, d) && Owned(own', b.edges) && Unrewired(n, own', 0, 1)
    {
      own' := LatticeStep(n, half, b, own', i, d);
      d := d + 1;
    }
    FilledRow(n, half, own', i);
  }

  lemma EmptyLattice(n: nat, half: nat)
    requires n > 0
    ensures Filled(n, half, map[], 0, 1) && Owned(map[], []) && Unrewired(n, map[], 0, 1)
  {}

  lemma NextRow(i: nat, half: nat)
    ensures (i + 1) * half == i * half + half
  {}

  method Lattice(n: nat, half: nat) returns (b: Builder, ghost own: map<Slot, Pair>)
    requires 0 < half && 2 * half < n
    ensures fresh(b) && b.n == n && b.Valid() && AllPlain(b.edges)
    ensures |b.edges| == n * half
    ensures Filled(n, half, own, n, 1) && Owned(own, b.edges) && Unrewired(n, own, 0, 1)
  {
    b := new Builder(n);
    own := map[];
    EmptyLattice(n, half);
    var i := 0;
    while i < n
      invariant 0 <= i <= n && b.Valid() && AllPlain(b.edges)
      invariant |b.edges| == i * half
      invariant Filled(n, half, own, i, 1) && Owned(own, b.edges) && Unrewired(n, own, 0, 1)
    {
      own := LatticeRow(n, half, b, own, i);
      NextRow(i, half);
      i := i + 1;
    }
  }

  /** In the lattice every insertion is of a new edge. */
  method LatticeStep(n: nat, half: nat, b: Builder, ghost own: map<Slot, Pair>, i: nat, d: nat)
    returns (ghost own': map<Slot, Pair>)
    requires 2 * half < n && IsSlot(n, half, (i, d)) && b.n == n && b.Valid() && AllPlain(b.edges)
    requires Filled(n, half, own, i, d) && Owned(own, b.edges) && Unrewired(n, own, 0, 1)
    modifies b`edges, b`adjacency
    ensures b.Valid() && AllPlain(b.edges) && b.edges == old(b.edges) + [Plain(i, Target(n, (i, d)))]
    ensures Filled(n, half, own', i, d + 1) && Owned(own', b.edges) && Unrewired(n, own', 0, 1)
  {
    var j := (i + d) % n;
    LatticePairsDistinct(n, half, (i, d), (i, d));
    assert Key(i, j) !in Pairs(b.edges) by {
      if Key(i, j) in Pairs(b.edges) {
        var s :| s in own && own[s] == Key(i, j);
        LatticePairsDistinct(n, half, s, (i, d));
      }
    }
    FillNext(n, half, own, i, d, Key(i, j));
    OwnNew(own, b.edges, Plain(i, j), (i, d));
    b.AddSimple(i, j);
    own' := own[(i, d) := Key(i, j)];
  }

  ghost predicate FreeTarget(n: nat, adjacency: seq<set<nat>>, i: nat, t: nat) {
    i < |adjacency| && t < n && t != i && t !in adjacency[i]
  }

  /** The targets a slot of node i can be rewired to. */
  method Candidates(b: Builder, i: nat) returns (candidates: seq<nat>)
    requires b.Valid() && i < b.n
    ensures forall c: nat :: c in candidates <==> c < b.n && c != i && c !in b.adjacency[i]
  {
    candidates := [];
    var candidate := 0;
    while candidate < b.n
      invariant 0 <= candidate <= b.n
      invariant forall c: nat :: c in candidates <==> c < candidate && c != i && c !in b.adjacency[i]
    {
      if candidate != i && candidate !in b.adjacency[i] {
        candidates := candidates + [candidate];
      }
      candidate := candidate + 1;
    }
  }

  // The rewiring on record

  /** The graph between two rounds, with the edge that each slot owns. */
  datatype Stage = Stage(own: map<Slot, Pair>, edges: seq<Edge>, adjacency: seq<set<nat>>)

  /** One round: the slot, what was drawn for it, and the target picked for it. */
  datatype Round = Round(slot: Slot, draw: real, pick: Option<nat>)

  ghost predicate SomeFree(n: nat, adjacency: seq<set<nat>>, i: nat) {
    exists t :: FreeTarget(n, adjacency, i, t)
  }

  /** A slot that is to move does so exactly when some target is free, and to one that is free at that moment. */
  ghost predicate Moved(n: nat, slot: Slot, pick: Option<nat>, before: Stage, after: Stage) {
    && (pick.Some? <==> SomeFree(n, before.adjacency, slot.0))
    && (pick.Some? ==>
         && FreeTarget(n, before.adjacency, slot.0, pick.value)
         && after.own == before.own[slot := Key(slot.0, pick.value)])
    && (pick.None? ==> after == before)
  }

  /** The slot is to move when its draw is below beta; otherwise the graph stays as it is. */
  ghost predicate Turned(n: nat, beta: real, r: Round, before: Stage, after: Stage) {
    && 0.0 <= r.draw < 1.0
    && if r.draw < beta then Moved(n, r.slot, r.pick, before, after) else r.pick.None? && after == before
  }

  ghost predicate TurnedAt(n: nat, beta: real, rounds: seq<Round>, stages: seq<Stage>, k: int) {
    0 <= k < |rounds| && k + 1 < |stages| ==> Turned(n, beta, rounds[k], stages[k], stages[k + 1])
  }

  ghost predicate StageAt(n: nat, stages: seq<Stage>, k: int) {
    0 <= k < |stages| ==>
      Consistent(n, stages[k].edges, stages[k].adjacency) && Owned(stages[k].own, stages[k].edges)
  }

  /** The slots before slot (i, d), in the order of the loops. */
  ghost function SlotsTo(half: nat, i: nat, d: nat): seq<Slot>
    decreases i, d
  {
    if d > 1 then SlotsTo(half, i, d - 1) + [(i, d - 1)]
    else if i > 0 then SlotsTo(half, i - 1, half + 1)
    else []
  }

  ghost function SlotsOf(rounds: seq<Round>): (r: seq<Slot>)
    ensures |r| == |rounds| && forall k {:trigger r[k]} :: 0 <= k < |rounds| ==> r[k] == rounds[k].slot
  {
    seq(|rounds|, k requires 0 <= k < |rounds| => rounds[k].slot)
  }

  ghost predicate Rounds(n: nat, beta: real, rounds: seq<Round>, stages: seq<Stage>) {
    && |stages| == |rounds| + 1
    && (forall k {:trigger StageAt(n, stages, k)} :: StageAt(n, stages, k))
    && forall k {:trigger TurnedAt(n, beta, rounds, stages, k)} :: TurnedAt(n, beta, rounds, stages, k)
  }

  /** The lattice, and one round for each of its slots. */
  ghost predicate Rewired(n: nat, half: nat, beta: real, rounds: seq<Round>, stages: seq<Stage>)
    requires n > 0
  {
    && Rounds(n, beta, rounds, stages) && SlotsOf(rounds) == SlotsTo(half, n, 1)
    && Filled(n, half, stages[0].own, n, 1) && Unrewired(n, stages[0].own, 0, 1)
  }

  lemma RoundsStart(n: nat, beta: real, start: Stage)
    requires Consistent(n, start.edges, start.adjacency) && Owned(start.own, start.edges)
    ensures Rounds(n, beta, [], [start])
  {}

  lemma RoundsNext(n: nat, beta: real, rounds: seq<Round>, stages: seq<Stage>, r: Round, before: Stage, after: Stage)
    requires Rounds(n, beta, rounds, stages) && before == stages[|rounds|] && Turned(n, beta, r, before, after)
    requires Consistent(n, after.edges, after.adjacency) && Owned(after.own, after.edges)
    ensures Rounds(n, beta, rounds + [r], stages + [after])
    ensures SlotsOf(rounds + [r]) == SlotsOf(rounds) + [r.slot]
  {
    var rounds', stages' := rounds + [r], stages + [after];
    forall k ensures StageAt(n, stages', k) {
      assert StageAt(n, stages, k);
    }
    forall k ensures TurnedAt(n, beta, rounds', stages', k) {
      assert TurnedAt(n, beta, rounds, stages, k);
      if 0 <= k < |rounds| {
        assert rounds'[k] == rounds[k] && stages'[k] == stages[k] && stages'[k + 1] == stages[k + 1];
      } else if k == |rounds| {
        assert rounds'[k] == r && stages'[k] == before && stages'[k + 1] == after;
      }
    }
  }

  /** One round of the rewiring loop: the slot keeps an edge at its node, whatever is drawn. */
  method RewireSlot(n: nat, half: nat, beta: real, rng: Rand, b: Builder, ghost own: map<Slot, Pair>, i: nat, d: nat)
    returns (ghost own': map<Slot, Pair>, ghost round: Round)
    requires n > 0 && IsSlot(n, half, (i, d)) && 2 * half < n && b.n == n && b.Valid() && AllPlain(b.edges)
    requires Filled(n, half, own, n, 1) && Owned(own, b.edges) && Unrewired(n, own, i, d)
    modifies b`edges, b`adjacency
    ensures b.Valid() && AllPlain(b.edges) && |b.edges| == |old(b.edges)|
    ensures Filled(n, half, own', n, 1) && Owned(own', b.edges) && Unrewired(n, own', i, d + 1)
    ensures round.slot == (i, d) && (own' == own <==> round.pick.None?)
    ensures beta == 0.0 ==> own' == own
    ensures beta == 1.0 && SomeFree(n, old(b.adjacency), i) ==> own' != own
    ensures Turned(n, beta, round, Stage(own, old(b.edges), old(b.adjacency)), Stage(own', b.edges, b.adjacency))
  {
    own' := own;
    var draw := rng.Float64();
    round := Round((i, d), draw, None);
    if draw < beta {
      ghost var pick;
      own', pick := MoveSlot(n, half, rng, b, own, i, d);
      round := Round((i, d), draw, pick);
      SlotMoved(n, half, own, own', i, d);
    }
  }

  /** A change of the slot under the cursor leaves the slots behind and ahead of it as they were. */
  lemma SlotMoved(n: nat, half: nat, own: map<Slot, Pair>, own': map<Slot, Pair>, i: nat, d: nat)
    requires n > 0 && Filled(n, half, own, n, 1) && Unrewired(n, own, i, d) && (i, d) in own
    requires (i, d) in own' && own' == own[(i, d) := own'[(i, d)]]
    ensures Filled(n, half, own', n, 1) && Unrewired(n, own', i, d + 1)
  {}

  /** A slot that is drawn for rewiring moves exactly when some target is free. */
  method MoveSlot(n: nat, half: nat, rng: Rand, b: Builder, ghost own: map<Slot, Pair>, i: nat, d: nat)
    returns (ghost own': map<Slot, Pair>, ghost pick: Option<nat>)
    requires n > 0 && IsSlot(n, half, (i, d)) && 2 * half < n && b.n == n && b.Valid() && AllPlain(b.edges)
    requires Owned(own, b.edges) && (i, d) in own && own[(i, d)] == LatticePair(n, (i, d))
    modifies b`edges, b`adjacency
    ensures b.Valid() && AllPlain(b.edges) && |b.edges| == |old(b.edges)| && Owned(own', b.edges)
    ensures (i, d) in own' && own' == own[(i, d) := own'[(i, d)]]
    ensures own' == own <==> pick.None?
    ensures Moved(n, (i, d), pick, Stage(own, old(b.edges), old(b.adjacency)), Stage(own', b.edges, b.adjacency))
  {
    own', pick := own, None;
    var original := (i + d) % n;
    LatticePairsDistinct(n, half, (i, d), (i, d));
    // The test that the slot's edge still exists never fails.
    assert original in b.adjacency[i];
    if original in b.adjacency[i] {
      var candidates := Candidates(b, i);
      if |candidates| > 0 {
        var index := rng.Intn(|candidates|);
        var newTarget := candidates[index];
        pick := Some(newTarget);
        assert newTarget in candidates;
        assert FreeTarget(n, b.adjacency, i, newTarget);
        own' := Rewire(n, b, own, i, original, newTarget, (i, d));
      }
    }
  }

  method Rewire(n: nat, b: Builder, ghost own: map<Slot, Pair>, i: nat, original: nat, newTarget: nat, ghost s: Slot)
    returns (ghost own': map<Slot, Pair>)
    requires b.n == n && b.Valid() && AllPlain(b.edges) && Owned(own, b.edges)
    requires i < n && original < n && newTarget < n && newTarget != i
    requires s in own && s.0 == i && own[s] == Key(i, original) && newTarget !in b.adjacency[i]
    modifies b`edges, b`adjacency
    ensures b.Valid() && AllPlain(b.edges) && |b.edges| == |old(b.edges)|
    ensures own' == own[s := Key(i, newTarget)] && Owned(own', b.edges)
  {
    ghost var before := b.edges;
    assert Key(i, newTarget) !in Pairs(before);
    assert Plain(i, original) in b.edges by {
      var e :| e in b.edges && e.Pair() == Key(i, original);
      assert e == Plain(i, original);
    }
    b.RemoveSimple(i, original);
    assert newTarget !in b.adjacency[i];
    b.AddSimple(i, newTarget);
    assert Pairs(b.edges) == Pairs(before) - {own[s]} + {Key(i, newTarget)};
    OwnMoved(own, before, b.edges, s, Key(i, newTarget));
    own' := own[s := Key(i, newTarget)];
  }

  /** Between two rounds: the slots before (i, d) have had theirs. */
  ghost predicate RewiredTo(n: nat, half: nat, beta: real, b: Builder, own: map<Slot, Pair>, i: nat, d: nat,
                            start: Stage, rounds: seq<Round>, stages: seq<Stage>)
    requires n > 0
    reads b
  {
    && b.n == n && b.Valid() && AllPlain(b.edges) && |b.edges| == |start.edges|
    && Filled(n, half, own, n, 1) && Owned(own, b.edges) && Unrewired(n, own, i, d)
    && Rounds(n, beta, rounds, stages) && SlotsOf(rounds) == SlotsTo(half, i, d)
    && stages[0] == start && stages[|rounds|] == Stage(own, b.edges, b.adjacency)
  }

  /** The round of slot (i, d), and its place in the record. */
  method RewireNext(n: nat, half: nat, beta: real, rng: Rand, b: Builder, ghost own: map<Slot, Pair>, i: nat, d: nat,
                    ghost start: Stage, ghost rounds: seq<Round>, ghost stages: seq<Stage>)
    returns (ghost own': map<Slot, Pair>, ghost rounds': seq<Round>, ghost stages': seq<Stage>)
    requires n > 0 && IsSlot(n, half, (i, d)) && 2 * half < n
    requires RewiredTo(n, half, beta, b, own, i, d, start, rounds, stages)
    modifies b`edges, b`adjacency
    ensures RewiredTo(n, half, beta, b, own', i, d + 1, start, rounds', stages')
  {
    ghost var before, round := Stage(own, b.edges, b.adjacency), Round((i, d), 0.0, None);
    own', round := RewireSlot(n, half, beta, rng, b, own, i, d);
    ghost var after := Stage(own', b.edges, b.adjacency);
    RoundsNext(n, beta, rounds, stages, round, before, after);
    rounds', stages' := rounds + [round], stages + [after];
  }

  /** The rounds of one node. */
  method RewireRow(n: nat, half: nat, beta: real, rng: Rand, b: Builder, ghost own: map<Slot, Pair>, i: nat,
                   ghost start: Stage, ghost rounds: seq<Round>, ghost stages: seq<Stage>)
    returns (ghost own': map<Slot, Pair>, ghost rounds': seq<Round>, ghost stages': seq<Stage>)
    requires i < n && 0 < half && 2 * half < n
    requires RewiredTo(n, half, beta, b, own, i, 1, start, rounds, stages)
    modifies b`edges, b`adjacency
    ensures RewiredTo(n, half, beta, b, own', i + 1, 1, start, rounds', stages')
  {
    own', rounds', stages' := own, rounds, stages;
    for d := 1 to half + 1
      invariant RewiredTo(n, half, beta, b, own', i, d, start, rounds', stages')
    {
      own', rounds', stages' := RewireNext(n, half, beta, rng, b, own', i, d, start, rounds', stages');
    }
    RowRewired(n, half, own', i);
  }

  lemma RowRewired(n: nat, half: nat, own: map<Slot, Pair>, i: nat)
    requires n > 0 && Filled(n, half, own, n, 1) && Unrewired(n, own, i, half + 1)
    ensures Unrewired(n, own, i + 1, 1) && SlotsTo(half, i + 1, 1) == SlotsTo(half, i, half + 1)
  {}

  /** With beta 0 no round changes anything. */
  lemma {:induction false} NothingRewired(n: nat, rounds: seq<Round>, stages: seq<Stage>, k: nat)
    requires Rounds(n, 0.0, rounds, stages) && k < |stages|
    ensures stages[k] == stages[0]
  {
    if k > 0 {
      NothingRewired(n, rounds, stages, k - 1);
      assert TurnedAt(n, 0.0, rounds, stages, k - 1);
    }
  }

  /**
   * For every random choice the result is a simple graph with n*k/2 edges in which every node has
   * degree at least k/2; the slots own the edges one to one; and it is the lattice, rewired slot by
   * slot, each to a target free at its turn. With beta 0 it is the lattice itself.
   */
  method GenerateWS(n: nat, k: nat, beta: real, rng: Rand)
    returns (edges: seq<Edge>, ghost own: map<Slot, Pair>, ghost rounds: seq<Round>, ghost stages: seq<Stage>)
    requires 0 < k < n && k % 2 == 0 && 0.0 <= beta <= 1.0
    ensures SimpleEdges(n, edges) && AllPlain(edges)
    ensures |edges| == n * (k / 2)
    ensures forall v: nat :: v < n ==> Degree(n, edges, v) >= k / 2
    ensures Owned(own, edges) && forall s :: s in own <==> IsSlot(n, k / 2, s)
    ensures Rewired(n, k / 2, beta, rounds, stages)
    ensures stages[|rounds|].own == own && stages[|rounds|].edges == edges
    ensures beta == 0.0 ==> forall s :: IsSlot(n, k / 2, s) ==> own[s] == LatticePair(n, s)
  {
    var half := k / 2;
    var b: Builder;
    b, own := Lattice(n, half);
    ghost var start := Stage(own, b.edges, b.adjacency);
    rounds, stages := [], [start];
    RoundsStart(n, beta, start);
    for i := 0 to n
      invariant RewiredTo(n, half, beta, b, own, i, 1, start, rounds, stages)
    {
      own, rounds, stages := RewireRow(n, half, beta, rng, b, own, i, start, rounds, stages);
    }
    edges := b.edges;
    forall v: nat | v < n ensures Degree(n, edges, v) >= half {
      DegreeAtLeastHalf(n, half, edges, own, v);
    }
    if beta == 0.0 {
      NothingRewired(n, rounds, stages, |rounds|);
    }
  }
}
