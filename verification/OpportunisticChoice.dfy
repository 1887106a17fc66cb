/** The choices of the performance-aware growth: the greedy clique and the weighted draw of targets. */
module OpportunisticChoice {
  import opened BarabasiAlbert
  import opened EdgeLists
  import opened PairSamples
  import opened Random
  import opened Sequences
  import opened Wrappers

  ghost predicate Nonnegative(baselines: seq<real>) {
    forall i :: 0 <= i < |baselines| ==> baselines[i] >= 0.0
  }

  /** The memo of sampled link delays: one value per unordered pair, drawn at its first use. */
  class PairDelays {
    var known: Delays
    const rng: Rand
    ghost var uses: seq<(nat, nat)>
    ghost var samples: seq<real>

    ghost predicate Valid()
      reads this
    {
      && known == Replay(uses, samples) && |samples| == |known|
      && forall p :: p in known ==> known[p] >= 0.0
    }

    constructor (rng: Rand)
      ensures Valid() && known == map[] && uses == []
    {
      known, uses, samples := map[], [], [];
      this.rng := rng;
    }

    method PairDelay(a: nat, b: nat) returns (delay: real)
      requires Valid()
      modifies this
      ensures Valid() && delay >= 0.0
      ensures Key(a, b) in known && known[Key(a, b)] == delay
      ensures Extends(known, old(known)) && known.Keys == old(known).Keys + {Key(a, b)}
      ensures uses == old(uses) + [Key(a, b)]
      ensures Key(a, b) in old(known) ==> known == old(known) && samples == old(samples)
    {
      var key := Key(a, b);
      if key in known {
        ReplayNext(uses, samples, key, 0.0);
        uses := uses + [key];
        return known[key];
      }
      delay := rng.SampleMilliseconds();
      ReplayNext(uses, samples, key, delay);
      known := known[key := delay];
      uses, samples := uses + [key], samples + [delay];
    }
  }

  function DelayOf(known: Delays, a: nat, b: nat): real {
    if Key(a, b) in known then known[Key(a, b)] else 0.0
  }

  ghost function LinkTotal(known: Delays, c: nat, chosen: seq<nat>): real {
    if chosen == [] then 0.0
    else LinkTotal(known, c, chosen[..|chosen| - 1]) + DelayOf(known, c, chosen[|chosen| - 1])
  }

  ghost predicate AllKnown(known: Delays, c: nat, chosen: seq<nat>) {
    forall i :: 0 <= i < |chosen| ==> Key(c, chosen[i]) in known
  }

  /** Processing baseline plus the mean delay to the nodes already chosen; the first node has no links. */
  ghost function Score(baselines: seq<real>, known: Delays, chosen: seq<nat>, c: nat): (s: real)
    requires c < |baselines|
    ensures chosen == [] ==> s == baselines[c]
    ensures chosen != [] ==> (s - baselines[c]) * (|chosen| as real) == LinkTotal(known, c, chosen)
  {
    if chosen == [] then baselines[c] else baselines[c] + LinkTotal(known, c, chosen) / (|chosen| as real)
  }

  ghost predicate NoWorse(s: real, v: nat, t: real, c: nat) {
    s < t || (s == t && v <= c)
  }

  /** Node v has the least score among the unchosen, the least index deciding ties. */
  ghost predicate Best(baselines: seq<real>, known: Delays, chosen: seq<nat>, v: nat, bound: nat) {
    && v < bound <= |baselines| && v !in chosen
    && AllKnown(known, v, chosen)
    && forall c: nat {:trigger AllKnown(known, c, chosen)} :: c < bound && c !in chosen ==>
         AllKnown(known, c, chosen)
         && NoWorse(Score(baselines, known, chosen, v), v, Score(baselines, known, chosen, c), c)
  }

  /** Every member of the clique was the best choice after the earlier ones. */
  ghost predicate Greedy(baselines: seq<real>, known: Delays, selected: seq<nat>) {
    forall k: nat {:trigger BestAt(baselines, known, selected, k)} :: k < |selected| ==>
      BestAt(baselines, known, selected, k)
  }

  ghost predicate BestAt(baselines: seq<real>, known: Delays, selected: seq<nat>, k: nat) {
    k < |selected| && Best(baselines, known, selected[..k], selected[k], |baselines|)
  }

  lemma {:induction false} LinkTotalStays(known: Delays, more: Delays, c: nat, chosen: seq<nat>)
    requires Extends(more, known) && AllKnown(known, c, chosen)
    ensures LinkTotal(more, c, chosen) == LinkTotal(known, c, chosen) && AllKnown(more, c, chosen)
  {
    if chosen != [] {
      LinkTotalStays(known, more, c, chosen[..|chosen| - 1]);
    }
  }

  lemma BestStays(baselines: seq<real>, known: Delays, more: Delays, chosen: seq<nat>, v: nat, bound: nat)
    requires Extends(more, known) && Best(baselines, known, chosen, v, bound)
    ensures Best(baselines, more, chosen, v, bound)
  {
    LinkTotalStays(known, more, v, chosen);
    forall c: nat | c < bound && c !in chosen
      ensures AllKnown(more, c, chosen)
      ensures NoWorse(Score(baselines, more, chosen, v), v, Score(baselines, more, chosen, c), c)
    {
      assert AllKnown(known, c, chosen);
      LinkTotalStays(known, more, c, chosen);
    }
  }

  lemma GreedyStays(baselines: seq<real>, known: Delays, more: Delays, selected: seq<nat>)
    requires Extends(more, known) && Greedy(baselines, known, selected)
    ensures Greedy(baselines, more, selected)
  {
    forall k: nat | k < |selected| ensures BestAt(baselines, more, selected, k) {
      assert BestAt(baselines, known, selected, k);
      BestStays(baselines, known, more, selected[..k], selected[k], |baselines|);
    }
  }

  lemma GreedyNext(baselines: seq<real>, known: Delays, selected: seq<nat>, v: nat)
    requires Greedy(baselines, known, selected) && Best(baselines, known, selected, v, |baselines|)
    ensures Greedy(baselines, known, selected + [v])
  {
    var more := selected + [v];
    forall k: nat | k < |more| ensures BestAt(baselines, known, more, k) {
      if k < |selected| {
        assert BestAt(baselines, known, selected, k);
        assert more[..k] == selected[..k] && more[k] == selected[k];
      } else {
        assert more[..k] == selected;
      }
    }
  }

  /** What a later memo says of the best choice, the memo at the time of the choice says already. */
  lemma BestBefore(baselines: seq<real>, known: Delays, more: Delays, chosen: seq<nat>, v: nat)
    requires Extends(more, known) && Best(baselines, more, chosen, v, |baselines|)
    requires forall c: nat {:trigger AllKnown(known, c, chosen)} :: c < |baselines| && c !in chosen ==>
      AllKnown(known, c, chosen)
    ensures Best(baselines, known, chosen, v, |baselines|)
  {
    assert AllKnown(known, v, chosen);
    LinkTotalStays(known, more, v, chosen);
    forall c: nat | c < |baselines| && c !in chosen
      ensures NoWorse(Score(baselines, known, chosen, v), v, Score(baselines, known, chosen, c), c)
    {
      assert AllKnown(known, c, chosen) && AllKnown(more, c, chosen);
      LinkTotalStays(known, more, c, chosen);
    }
  }

  lemma BestUnique(baselines: seq<real>, known: Delays, chosen: seq<nat>, v: nat, w: nat)
    requires Best(baselines, known, chosen, v, |baselines|) && Best(baselines, known, chosen, w, |baselines|)
    ensures v == w
  {
    assert AllKnown(known, v, chosen) && AllKnown(known, w, chosen);
  }

  /** The greedy choice leaves no freedom: the memo decides the whole clique. */
  lemma {:induction false} GreedyUnique(baselines: seq<real>, known: Delays, s: seq<nat>, t: seq<nat>)
    requires Greedy(baselines, known, s) && Greedy(baselines, known, t) && |s| == |t|
    ensures s == t
  {
    if s != [] {
      var k := |s| - 1;
      forall i: nat | i < k
        ensures BestAt(baselines, known, s[..k], i) && BestAt(baselines, known, t[..k], i)
      {
        assert BestAt(baselines, known, s, i) && BestAt(baselines, known, t, i);
        assert s[..k][..i] == s[..i] && s[..k][i] == s[i];
        assert t[..k][..i] == t[..i] && t[..k][i] == t[i];
      }
      GreedyUnique(baselines, known, s[..k], t[..k]);
      assert BestAt(baselines, known, s, k) && BestAt(baselines, known, t, k);
      assert AllKnown(known, s[k], s[..k]) && AllKnown(known, t[k], s[..k]);
      assert s == s[..k] + [s[k]] && t == t[..k] + [t[k]];
    }
  }

  /** A candidate that is chosen already or no better leaves the best one in place. */
  lemma BestHolds(baselines: seq<real>, known: Delays, chosen: seq<nat>, v: nat, c: nat)
    requires Best(baselines, known, chosen, v, c) && c < |baselines|
    requires c !in chosen ==>
      && AllKnown(known, c, chosen)
      && NoWorse(Score(baselines, known, chosen, v), v, Score(baselines, known, chosen, c), c)
    ensures Best(baselines, known, chosen, v, c + 1)
  {
    forall x: nat | x < c + 1 && x !in chosen
      ensures AllKnown(known, x, chosen)
      ensures NoWorse(Score(baselines, known, chosen, v), v, Score(baselines, known, chosen, x), x)
    {
      assert x < c ==> AllKnown(known, x, chosen);
    }
  }

  /** A strictly better candidate is best so far. */
  lemma BestMoves(baselines: seq<real>, known: Delays, chosen: seq<nat>, v: nat, c: nat)
    requires Best(baselines, known, chosen, v, c) && c < |baselines| && c !in chosen && AllKnown(known, c, chosen)
    requires Score(baselines, known, chosen, c) < Score(baselines, known, chosen, v)
    ensures Best(baselines, known, chosen, c, c + 1)
  {
    forall x: nat | x < c + 1 && x !in chosen
      ensures AllKnown(known, x, chosen)
      ensures NoWorse(Score(baselines, known, chosen, c), c, Score(baselines, known, chosen, x), x)
    {
      assert x < c ==> AllKnown(known, x, chosen);
    }
  }

  lemma BestAlone(baselines: seq<real>, known: Delays, chosen: seq<nat>, c: nat)
    requires c < |baselines| && c !in chosen && AllKnown(known, c, chosen)
    requires forall x: nat :: x < c ==> x in chosen
    ensures Best(baselines, known, chosen, c, c + 1)
  {
    forall x: nat | x < c + 1 && x !in chosen
      ensures AllKnown(known, x, chosen)
      ensures NoWorse(Score(baselines, known, chosen, c), c, Score(baselines, known, chosen, x), x)
    {
      assert x == c;
    }
  }

  /** The first seed: the least processing baseline. */
  method SelectFirst(n: nat, baselines: seq<real>) returns (first: nat)
    requires 0 < n == |baselines|
    ensures Best(baselines, map[], [], first, n)
  {
    first := 0;
    BestAlone(baselines, map[], [], 0);
    var candidate := 1;
    while candidate < n
      invariant 1 <= candidate <= n && Best(baselines, map[], [], first, candidate)
    {
      assert AllKnown(map[], candidate, []);
      if baselines[candidate] < baselines[first] {
        BestMoves(baselines, map[], [], first, candidate);
        first := candidate;
      } else {
        BestHolds(baselines, map[], [], first, candidate);
      }
      candidate := candidate + 1;
    }
  }

  lemma LinkTotalNext(known: Delays, c: nat, chosen: seq<nat>, i: nat)
    requires i < |chosen| && AllKnown(known, c, chosen[..i]) && Key(c, chosen[i]) in known
    ensures AllKnown(known, c, chosen[..i + 1])
    ensures LinkTotal(known, c, chosen[..i + 1]) == LinkTotal(known, c, chosen[..i]) + known[Key(c, chosen[i])]
  {
    assert chosen[..i + 1][..i] == chosen[..i];
  }

  method LinkDelays(delays: PairDelays, candidate: nat, selected: seq<nat>) returns (linkTotal: real)
    requires delays.Valid()
    modifies delays
    ensures delays.Valid() && Extends(delays.known, old(delays.known))
    ensures AllKnown(delays.known, candidate, selected) && linkTotal == LinkTotal(delays.known, candidate, selected)
    ensures delays.uses == old(delays.uses) + KeysTo(candidate, selected)
  {
    linkTotal := 0.0;
    var i := 0;
    while i < |selected|
      invariant 0 <= i <= |selected| && delays.Valid() && Extends(delays.known, old(delays.known))
      invariant AllKnown(delays.known, candidate, selected[..i])
      invariant linkTotal == LinkTotal(delays.known, candidate, selected[..i])
      invariant delays.uses == old(delays.uses) + KeysTo(candidate, selected[..i])
    {
      KeysToNext(old(delays.uses), candidate, selected, i);
      ghost var before := delays.known;
      var delay := delays.PairDelay(candidate, selected[i]);
      LinkTotalStays(before, delays.known, candidate, selected[..i]);
      LinkTotalNext(delays.known, candidate, selected, i);
      linkTotal := linkTotal + delay;
      i := i + 1;
    }
    assert selected[..i] == selected;
  }

  /** The scan up to the candidate: the best unchosen node so far with its score, or -1. */
  ghost predicate Scanned(baselines: seq<real>, known: Delays, selected: seq<nat>, bestNode: int, bestScore: real,
                          candidate: nat)
  {
    if bestNode < 0 then forall c: nat :: c < candidate ==> c in selected
    else
      && Best(baselines, known, selected, bestNode, candidate)
      && bestScore == Score(baselines, known, selected, bestNode)
  }

  lemma ScannedStays(baselines: seq<real>, known: Delays, more: Delays, selected: seq<nat>, bestNode: int,
                     bestScore: real, candidate: nat)
    requires Extends(more, known) && Scanned(baselines, known, selected, bestNode, bestScore, candidate)
    ensures Scanned(baselines, more, selected, bestNode, bestScore, candidate)
  {
    if bestNode >= 0 {
      BestStays(baselines, known, more, selected, bestNode, candidate);
      LinkTotalStays(known, more, bestNode, selected);
    }
  }

  /** An unchosen candidate: it is best so far if its score is below the least one. */
  method Consider(baselines: seq<real>, delays: PairDelays, selected: seq<nat>, candidate: nat,
                  bestNode: int, bestScore: real)
    returns (bestNode': int, bestScore': real)
    requires delays.Valid() && selected != [] && candidate < |baselines| && candidate !in selected
    requires Scanned(baselines, delays.known, selected, bestNode, bestScore, candidate)
    modifies delays
    ensures delays.Valid() && Extends(delays.known, old(delays.known))
    ensures Scanned(baselines, delays.known, selected, bestNode', bestScore', candidate + 1)
    ensures delays.uses == old(delays.uses) + KeysTo(candidate, selected)
  {
    var linkTotal := LinkDelays(delays, candidate, selected);
    var score := baselines[candidate] + linkTotal / (|selected| as real);
    ScannedStays(baselines, old(delays.known), delays.known, selected, bestNode, bestScore, candidate);
    assert score == Score(baselines, delays.known, selected, candidate);
    if bestNode < 0 || score < bestScore || (score == bestScore && candidate < bestNode) {
      if bestNode < 0 {
        BestAlone(baselines, delays.known, selected, candidate);
      } else {
        BestMoves(baselines, delays.known, selected, bestNode, candidate);
      }
      bestNode', bestScore' := candidate, score;
    } else {
      BestHolds(baselines, delays.known, selected, bestNode, candidate);
      bestNode', bestScore' := bestNode, bestScore;
    }
  }

  /** Between two turns of the scan; start is what was looked up before it. */
  ghost predicate ScannedTo(baselines: seq<real>, delays: PairDelays, start: seq<(nat, nat)>, selected: seq<nat>,
                            bestNode: int, bestScore: real, candidate: nat)
    reads delays
  {
    && delays.Valid() && candidate <= |baselines|
    && Scanned(baselines, delays.known, selected, bestNode, bestScore, candidate)
    && delays.uses == start + ScanUses(candidate, selected)
  }

  method ScanNext(baselines: seq<real>, delays: PairDelays, ghost start: seq<(nat, nat)>, selected: seq<nat>,
                  bestNode: int, bestScore: real, candidate: nat)
    returns (bestNode': int, bestScore': real)
    requires ScannedTo(baselines, delays, start, selected, bestNode, bestScore, candidate)
    requires candidate < |baselines| && selected != []
    modifies delays
    ensures ScannedTo(baselines, delays, start, selected, bestNode', bestScore', candidate + 1)
    ensures Extends(delays.known, old(delays.known))
  {
    ScanUsesNext(start, candidate, selected);
    if candidate !in selected {
      bestNode', bestScore' := Consider(baselines, delays, selected, candidate, bestNode, bestScore);
    } else {
      bestNode', bestScore' := bestNode, bestScore;
      if bestNode >= 0 {
        BestHolds(baselines, delays.known, selected, bestNode, candidate);
      }
    }
  }

  /** One more seed of the clique. */
  method SelectNext(n: nat, baselines: seq<real>, delays: PairDelays, selected: seq<nat>) returns (bestNode: int)
    requires n == |baselines| && delays.Valid() && selected != []
    modifies delays
    ensures delays.Valid() && Extends(delays.known, old(delays.known))
    ensures bestNode >= 0 ==> Best(baselines, delays.known, selected, bestNode, n)
    ensures bestNode < 0 ==> forall c: nat :: c < n ==> c in selected
    ensures delays.uses == old(delays.uses) + ScanUses(n, selected)
  {
    ghost var start := delays.uses;
    assert start == start + ScanUses(0, selected);
    bestNode := -1;
    var bestScore := 0.0;
    for candidate := 0 to n
      invariant ScannedTo(baselines, delays, start, selected, bestNode, bestScore, candidate)
      invariant Extends(delays.known, old(delays.known))
    {
      bestNode, bestScore := ScanNext(baselines, delays, start, selected, bestNode, bestScore, candidate);
    }
  }

  method SelectOpportunisticInitialClique(n: nat, initial: nat, baselines: seq<real>, delays: PairDelays)
    returns (selected: seq<nat>)
    requires 0 < initial <= n == |baselines| && delays.Valid() && delays.known == map[] && delays.uses == []
    modifies delays
    ensures delays.Valid() && |selected| == initial && Distinct(selected)
    ensures forall i :: 0 <= i < initial ==> selected[i] < n
    ensures Greedy(baselines, delays.known, selected) && delays.uses == SelectionUses(n, selected)
  {
    var first := SelectFirst(n, baselines);
    selected := [first];
    assert selected[..0] == [];
    while |selected| < initial
      invariant 0 < |selected| <= initial && delays.Valid() && Distinct(selected)
      invariant forall i :: 0 <= i < |selected| ==> selected[i] < n
      invariant Greedy(baselines, delays.known, selected) && delays.uses == SelectionUses(n, selected)
      decreases initial - |selected|
    {
      ghost var before := delays.known;
      var bestNode := SelectNext(n, baselines, delays, selected);
      DistinctSize(selected);
      ghost var left := SomeoneLeft(Elements(selected), n);
      assert left !in selected;
      GreedyStays(baselines, before, delays.known, selected);
      GreedyNext(baselines, delays.known, selected, bestNode);
      assert (selected + [bestNode])[..|selected|] == selected;
      selected := selected + [bestNode];
    }
  }

  lemma QuotientSign(x: real, y: real)
    requires x >= 0.0 && y > 0.0
    ensures x / y >= 0.0 && (x > 0.0 ==> x / y > 0.0)
  {
    var q := x / y;
    assert q * y == x;
    assert q < 0.0 ==> q * y < 0.0;
  }

  /** Degree over cost: the millisecond keeps the weight of a free candidate finite. */
  function WeightOf(degree: nat, baseline: real, delay: real): (w: real)
    requires baseline >= 0.0 && delay >= 0.0
    ensures w >= 0.0 && (degree > 0 ==> w > 0.0)
    ensures w * (1.0 + baseline + delay) == degree as real
  {
    QuotientSign(degree as real, 1.0 + baseline + delay);
    (degree as real) / (1.0 + baseline + delay)
  }

  /** The weight of the first i candidates, the excluded ones left out. */
  ghost function PrefixWeight(candidates: seq<nat>, weights: seq<real>, excluded: set<nat>, i: nat): real
    requires i <= |candidates| == |weights|
  {
    if i == 0 then 0.0
    else PrefixWeight(candidates, weights, excluded, i - 1)
         + if candidates[i - 1] in excluded then 0.0 else weights[i - 1]
  }

  lemma {:induction false} PrefixMonotone(candidates: seq<nat>, weights: seq<real>, excluded: set<nat>, i: nat, j: nat)
    requires i <= j <= |candidates| == |weights| && Nonnegative(weights)
    ensures PrefixWeight(candidates, weights, excluded, i) <= PrefixWeight(candidates, weights, excluded, j)
  {
    if i < j {
      PrefixMonotone(candidates, weights, excluded, i, j - 1);
    }
  }

  /** A draw from the unit interval on the scale of the total weight. */
  function Scaled(draw: real, total: real): real {
    draw * total
  }

  /** Candidate i answers for the part of the unit interval that its weight has in the total. */
  ghost predicate PickedAt(candidates: seq<nat>, weights: seq<real>, excluded: set<nat>, i: nat, draw: real) {
    && |candidates| == |weights| && i < |candidates| && candidates[i] !in excluded && 0.0 <= draw < 1.0
    && var total := PrefixWeight(candidates, weights, excluded, |candidates|);
       var before := PrefixWeight(candidates, weights, excluded, i);
       before <= Scaled(draw, total) < before + weights[i]
  }

  ghost predicate PickedBy(candidates: seq<nat>, weights: seq<real>, excluded: set<nat>, node: nat, draw: real) {
    exists i: nat :: PickedAt(candidates, weights, excluded, i, draw) && candidates[i] == node
  }

  /** The draw decides the node. */
  lemma PickedUnique(candidates: seq<nat>, weights: seq<real>, excluded: set<nat>, v: nat, w: nat, draw: real)
    requires PickedBy(candidates, weights, excluded, v, draw) && PickedBy(candidates, weights, excluded, w, draw)
    requires Nonnegative(weights)
    ensures v == w
  {
    var i: nat :| PickedAt(candidates, weights, excluded, i, draw) && candidates[i] == v;
    var j: nat :| PickedAt(candidates, weights, excluded, j, draw) && candidates[j] == w;
    if i < j {
      PrefixMonotone(candidates, weights, excluded, i + 1, j);
    } else if j < i {
      PrefixMonotone(candidates, weights, excluded, j + 1, i);
    }
  }

  lemma ScaledDraw(draw: real, total: real)
    requires 0.0 <= draw < 1.0 && total > 0.0
    ensures 0.0 <= Scaled(draw, total) < total
  {}

  lemma {:induction false} PickedBefore(candidates: seq<nat>, weights: seq<real>, excluded: set<nat>, draw: real,
                                        k: nat)
    requires k <= |candidates| == |weights| && 0.0 <= draw < 1.0
    requires var point := Scaled(draw, PrefixWeight(candidates, weights, excluded, |candidates|));
      0.0 <= point < PrefixWeight(candidates, weights, excluded, k)
    ensures exists i: nat :: PickedAt(candidates, weights, excluded, i, draw)
  {
    var point := Scaled(draw, PrefixWeight(candidates, weights, excluded, |candidates|));
    if PrefixWeight(candidates, weights, excluded, k - 1) <= point {
      assert PickedAt(candidates, weights, excluded, k - 1, draw);
    } else {
      PickedBefore(candidates, weights, excluded, draw, k - 1);
    }
  }

  /** The stretches leave nothing of the unit interval out: every draw picks someone. */
  lemma EveryDrawPicks(candidates: seq<nat>, weights: seq<real>, excluded: set<nat>, draw: real)
    requires |candidates| == |weights| && 0.0 <= draw < 1.0
    requires PrefixWeight(candidates, weights, excluded, |candidates|) > 0.0
    ensures exists i: nat :: PickedAt(candidates, weights, excluded, i, draw)
  {
    ScaledDraw(draw, PrefixWeight(candidates, weights, excluded, |candidates|));
    PickedBefore(candidates, weights, excluded, draw, |candidates|);
  }

  /** Place i is picked by exactly the draws of one stretch of the unit interval, of this length. */
  ghost predicate HasStretch(candidates: seq<nat>, weights: seq<real>, excluded: set<nat>, i: nat, lo: real,
                             share: real)
  {
    && 0.0 <= lo && 0.0 <= share && lo + share <= 1.0
    && forall draw: real {:trigger PickedAt(candidates, weights, excluded, i, draw)} ::
         PickedAt(candidates, weights, excluded, i, draw) <==> lo <= draw < lo + share
  }

  lemma ScaledReaches(draw: real, x: real, total: real)
    requires total > 0.0
    ensures x / total <= draw <==> x <= Scaled(draw, total)
  {
    var q := x / total;
    assert q * total == x;
    assert q <= draw ==> q * total <= draw * total;
    assert q > draw ==> q * total > draw * total;
  }

  lemma SharesAdd(x: real, y: real, total: real)
    requires total > 0.0
    ensures (x + y) / total == x / total + y / total
  {}

  /** The length of the stretch is the weight's part of the total. */
  lemma StretchOf(candidates: seq<nat>, weights: seq<real>, excluded: set<nat>, i: nat)
    returns (lo: real, share: real)
    requires i < |candidates| == |weights| && Nonnegative(weights) && candidates[i] !in excluded
    requires PrefixWeight(candidates, weights, excluded, |candidates|) > 0.0
    ensures HasStretch(candidates, weights, excluded, i, lo, share)
    ensures share * PrefixWeight(candidates, weights, excluded, |candidates|) == weights[i]
  {
    var total := PrefixWeight(candidates, weights, excluded, |candidates|);
    var before := PrefixWeight(candidates, weights, excluded, i);
    PrefixMonotone(candidates, weights, excluded, 0, i);
    PrefixMonotone(candidates, weights, excluded, i + 1, |candidates|);
    lo, share := before / total, weights[i] / total;
    QuotientSign(before, total);
    QuotientSign(weights[i], total);
    SharesAdd(before, weights[i], total);
    ScaledReaches(1.0, before + weights[i], total);
    forall draw: real
      ensures PickedAt(candidates, weights, excluded, i, draw) <==> lo <= draw < lo + share
    {
      ScaledReaches(draw, before, total);
      ScaledReaches(draw, before + weights[i], total);
    }
  }

  lemma CrossProducts(s: real, c: real, d: real, s': real, c': real, d': real, total: real)
    requires total > 0.0 && s * total * c == d && s' * total * c' == d'
    ensures s * c * d' == s' * c' * d
  {
    assert s * c * d' * total == s * total * c * d';
    assert s' * c' * d * total == s' * total * c' * d;
    CancelFactor(s * c * d', s' * c' * d, total);
  }

  lemma CancelFactor(x: real, y: real, total: real)
    requires total > 0.0 && x * total == y * total
    ensures x == y
  {
    assert x < y ==> x * total < y * total;
    assert x > y ==> x * total > y * total;
  }

  lemma LargerCost(s: real, c: real, s': real, c': real)
    requires s > 0.0 && c < c' && 0.0 < c' && s * c == s' * c'
    ensures s' < s
  {
    assert s * c < s * c';
    assert s' >= s ==> s' * c' >= s * c';
  }

  /** Share times cost is in the ratio of the degrees: with equal degrees the cheaper has more. */
  ghost predicate Fair(s: real, c: real, d: nat, s': real, c': real, d': nat) {
    && s * c * d' as real == s' * c' * d as real
    && (d == d' > 0 && c < c' ==> s > s')
    && (c == c' ==> s * d' as real == s' * d as real)
  }

  lemma Proportions(s: real, c: real, d: nat, s': real, c': real, d': nat, total: real)
    requires total > 0.0 && 0.0 < c && 0.0 < c' && 0.0 <= s
    requires s * total * c == d as real && s' * total * c' == d' as real
    ensures Fair(s, c, d, s', c', d')
  {
    CrossProducts(s, c, d as real, s', c', d' as real, total);
    if d == d' > 0 && c < c' {
      CancelFactor(s * c, s' * c', d as real);
      assert s == 0.0 ==> s * total * c == 0.0;
      LargerCost(s, c, s', c');
    }
    if c == c' {
      CancelFactor(s * d' as real, s' * d as real, c);
    }
  }

  /** The weight is degree over cost. */
  ghost predicate Quotient(w: real, c: real, d: nat) {
    0.0 < c && w * c == d as real
  }

  ghost predicate Weighs(candidates: seq<nat>, degrees: seq<nat>, baselines: seq<real>, delays: seq<real>,
                         weights: seq<real>) {
    && |weights| == |candidates|
    && |degrees| == |baselines| == |delays| && Nonnegative(baselines) && Nonnegative(delays)
    && forall i :: 0 <= i < |candidates| ==>
         var t := candidates[i];
         t < |degrees| && weights[i] == WeightOf(degrees[t], baselines[t], delays[t])
  }

  /** What a candidate costs, in milliseconds. */
  ghost function CostOf(candidates: seq<nat>, baselines: seq<real>, delays: seq<real>, i: nat): real
    requires i < |candidates| && candidates[i] < |baselines| == |delays|
  {
    1.0 + baselines[candidates[i]] + delays[candidates[i]]
  }

  lemma WeighsAt(candidates: seq<nat>, degrees: seq<nat>, baselines: seq<real>, delays: seq<real>,
                 weights: seq<real>, i: nat)
    requires Weighs(candidates, degrees, baselines, delays, weights) && i < |candidates|
    ensures candidates[i] < |degrees|
    ensures Quotient(weights[i], CostOf(candidates, baselines, delays, i), degrees[candidates[i]])
  {
    var t := candidates[i];
    assert weights[i] == WeightOf(degrees[t], baselines[t], delays[t]);
  }

  /** The last candidate that is not excluded: where rounding would have the draw end. */
  method LastLeft(candidates: seq<nat>, excluded: set<nat>) returns (last: Option<nat>)
    ensures last.None? ==> forall i :: 0 <= i < |candidates| ==> candidates[i] in excluded
    ensures last.Some? ==> last.value in candidates && last.value !in excluded
  {
    var index := |candidates| - 1;
    while index >= 0
      invariant -1 <= index < |candidates|
      invariant forall i :: index < i < |candidates| ==> candidates[i] in excluded
    {
      if candidates[index] !in excluded {
        return Some(candidates[index]);
      }
      index := index - 1;
    }
    last := None;
  }

  /** The weight table, zero for the excluded candidates, and its total. */
  method WeightTable(candidates: seq<nat>, degrees: seq<nat>, baselines: seq<real>, delays: seq<real>,
                     excluded: set<nat>, ghost weights: seq<real>)
    returns (table: seq<real>, total: real)
    requires Weighs(candidates, degrees, baselines, delays, weights)
    ensures |table| == |candidates| && total == PrefixWeight(candidates, weights, excluded, |candidates|)
    ensures forall i :: 0 <= i < |candidates| && candidates[i] !in excluded ==> table[i] == weights[i]
  {
    table := [];
    total := 0.0;
    var index := 0;
    while index < |candidates|
      invariant 0 <= index == |table| <= |candidates|
      invariant total == PrefixWeight(candidates, weights, excluded, index)
      invariant forall i :: 0 <= i < index && candidates[i] !in excluded ==> table[i] == weights[i]
    {
      var node := candidates[index];
      if node in excluded {
        table := table + [0.0];
      } else {
        var weight := WeightOf(degrees[node], baselines[node], delays[node]);
        table := table + [weight];
        total := total + weight;
      }
      index := index + 1;
    }
  }

  /** The scan stops at the candidate in whose part of the total the choice falls. */
  method Scan(candidates: seq<nat>, table: seq<real>, excluded: set<nat>, choice: real, ghost weights: seq<real>)
    returns (picked: Option<nat>, ghost at: nat)
    requires |table| == |candidates| == |weights| && choice >= 0.0
    requires forall i :: 0 <= i < |candidates| && candidates[i] !in excluded ==> table[i] == weights[i]
    ensures picked.Some? ==>
      && at < |candidates| && candidates[at] == picked.value && picked.value !in excluded
      && var before := PrefixWeight(candidates, weights, excluded, at);
         before <= choice < before + weights[at]
    ensures picked.None? ==> choice >= PrefixWeight(candidates, weights, excluded, |candidates|)
  {
    var left := choice;
    var index := 0;
    while index < |candidates|
      invariant 0 <= index <= |candidates| && left >= 0.0
      invariant choice == PrefixWeight(candidates, weights, excluded, index) + left
    {
      var node := candidates[index];
      if node !in excluded {
        if left < table[index] {
          return Some(node), index;
        }
        left := left - table[index];
      }
      index := index + 1;
    }
    return None, 0;
  }

  lemma ScanPicks(candidates: seq<nat>, weights: seq<real>, excluded: set<nat>, at: nat, draw: real, choice: real)
    requires at < |candidates| == |weights| && candidates[at] !in excluded && 0.0 <= draw < 1.0
    requires choice == Scaled(draw, PrefixWeight(candidates, weights, excluded, |candidates|))
    requires PrefixWeight(candidates, weights, excluded, at) <= choice
    requires choice < PrefixWeight(candidates, weights, excluded, at) + weights[at]
    ensures PickedBy(candidates, weights, excluded, candidates[at], draw)
  {
    assert PickedAt(candidates, weights, excluded, at, draw);
  }

  /** The weighted draw over a positive total ends inside the scan; the fallback is for rounding alone. */
  method PickWeighted(candidates: seq<nat>, table: seq<real>, total: real, excluded: set<nat>, rng: Rand,
                      ghost weights: seq<real>)
    returns (choice: Choice, ghost draw: real)
    requires |table| == |candidates| == |weights| && total > 0.0
    requires total == PrefixWeight(candidates, weights, excluded, |candidates|)
    requires forall i :: 0 <= i < |candidates| && candidates[i] !in excluded ==> table[i] == weights[i]
    ensures choice.Picked? && PickedBy(candidates, weights, excluded, choice.node, draw)
  {
    var unit := rng.Float64();
    draw := unit;
    ScaledDraw(unit, total);
    var point := Scaled(unit, total);
    var picked, at := Scan(candidates, table, excluded, point, weights);
    if picked.Some? {
      ScanPicks(candidates, weights, excluded, at, draw, point);
      return Picked(picked.value), draw;
    }
    var last := LastLeft(candidates, excluded);
    match last {
      case Some(node) => choice := Picked(node);
      case None => choice := Panicked;
    }
  }

  /** Over the reals the choice is always a fresh candidate, in proportion to its weight. */
  method WeightedOpportunityChoice(candidates: seq<nat>, degrees: seq<nat>, baselines: seq<real>, delays: seq<real>,
                                   excluded: set<nat>, rng: Rand, ghost weights: seq<real>)
    returns (choice: Choice, ghost draw: real)
    requires Weighs(candidates, degrees, baselines, delays, weights)
    ensures choice.Rejecting? <==> PrefixWeight(candidates, weights, excluded, |candidates|) <= 0.0
    ensures choice.Picked? ==> PickedBy(candidates, weights, excluded, choice.node, draw)
    ensures !choice.Panicked?
    ensures forall i: nat :: i < |candidates| ==>
      Quotient(weights[i], CostOf(candidates, baselines, delays, i), degrees[candidates[i]])
  {
    forall i: nat | i < |candidates|
      ensures Quotient(weights[i], CostOf(candidates, baselines, delays, i), degrees[candidates[i]])
    {
      WeighsAt(candidates, degrees, baselines, delays, weights, i);
    }
    var table, total := WeightTable(candidates, degrees, baselines, delays, excluded, weights);
    if total <= 0.0 {
      return Rejecting, 0.0;
    }
    choice, draw := PickWeighted(candidates, table, total, excluded, rng, weights);
  }

  /**
   * The stretches of two places in the unit interval are in proportion to degree over cost: of two
   * candidates of equal degree the cheaper one has the longer stretch.
   */
  lemma TwoStretches(candidates: seq<nat>, weights: seq<real>, excluded: set<nat>, i: nat, c: real, d: nat,
                     j: nat, c': real, d': nat)
    returns (lo: real, share: real, lo': real, share': real)
    requires i < |candidates| == |weights| && candidates[i] !in excluded && Quotient(weights[i], c, d)
    requires j < |candidates| && candidates[j] !in excluded && Quotient(weights[j], c', d')
    requires Nonnegative(weights) && PrefixWeight(candidates, weights, excluded, |candidates|) > 0.0
    ensures HasStretch(candidates, weights, excluded, i, lo, share)
    ensures HasStretch(candidates, weights, excluded, j, lo', share')
    ensures Fair(share, c, d, share', c', d')
  {
    lo, share := StretchOf(candidates, weights, excluded, i);
    lo', share' := StretchOf(candidates, weights, excluded, j);
    Proportions(share, c, d, share', c', d', PrefixWeight(candidates, weights, excluded, |candidates|));
  }

  lemma PositiveTotal(candidates: seq<nat>, weights: seq<real>, excluded: set<nat>, i: nat)
    requires i < |candidates| == |weights| && Nonnegative(weights) && weights[i] > 0.0 && candidates[i] !in excluded
    ensures PrefixWeight(candidates, weights, excluded, |candidates|) > 0.0
  {
    PrefixMonotone(candidates, weights, excluded, 0, i);
    PrefixMonotone(candidates, weights, excluded, i + 1, |candidates|);
  }
}
