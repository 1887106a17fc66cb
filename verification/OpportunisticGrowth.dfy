/**
 * Performance-aware growth: a greedy clique, then arrivals in index order with weighted targets.
 *
 * A run leaves a record of its clique, of the draws of every arrival and of the graphs in between, and
 * the record is what the theorems are about: it is simple and connected, it depends on the stream of
 * delay samples and on the draws alone, and cheap targets are preferred in it.
 */
module OpportunisticGrowth {
  import opened BarabasiAlbert
  import opened EdgeLists
  import opened EdgePaths
  import opened Growth
  import opened Normalize
  import opened OpportunisticChoice
  import opened PairSamples
  import opened Random
  import opened Sequences
  import opened Wrappers

  /** One arrival: the node, its targets in the order they were drawn, and the draws. */
  datatype Round = Round(node: nat, picks: seq<nat>, draws: seq<real>)

  ghost function NodesOf(rounds: seq<Round>): (r: seq<nat>)
    ensures |r| == |rounds|
  {
    if rounds == [] then [] else NodesOf(rounds[..|rounds| - 1]) + [rounds[|rounds| - 1].node]
  }

  lemma {:induction false} OthersMembers(n: nat, initial: seq<nat>, v: nat)
    ensures v in Others(n, initial) <==> v < n && v !in initial
  {
    if n > 0 {
      OthersMembers(n - 1, initial, v);
    }
  }

  lemma OthersNext(v: nat, initial: seq<nat>)
    requires v !in initial
    ensures initial + Others(v, initial) + [v] == initial + Others(v + 1, initial)
  {}

  /** Every edge carries the one memoized delay of its pair. */
  ghost predicate Labelled(edges: seq<Edge>, known: Delays) {
    forall e :: e in edges ==> e.Pair() in known && e.baseline == Some(known[e.Pair()])
  }

  ghost function TargetWeight(adjacency: seq<set<nat>>, baselines: seq<real>, known: Delays, node: nat,
                              t: nat): (w: real)
    ensures w >= 0.0
  {
    if t < |adjacency| && t < |baselines| && baselines[t] >= 0.0 && DelayOf(known, node, t) >= 0.0
    then WeightOf(|adjacency[t]|, baselines[t], DelayOf(known, node, t)) else 0.0
  }

  ghost function ArrivalWeights(adjacency: seq<set<nat>>, existing: seq<nat>, baselines: seq<real>, known: Delays,
                                node: nat)
    : (r: seq<real>)
    ensures |r| == |existing| && Nonnegative(r)
    ensures forall i :: 0 <= i < |existing| ==> r[i] == TargetWeight(adjacency, baselines, known, node, existing[i])
  {
    if existing == [] then []
    else ArrivalWeights(adjacency, existing[..|existing| - 1], baselines, known, node)
         + [TargetWeight(adjacency, baselines, known, node, existing[|existing| - 1])]
  }

  /** The cost of joining t: the millisecond, its processing baseline and the delay of the pair. */
  ghost predicate CostsOf(baselines: seq<real>, known: Delays, node: nat, t: nat, cost: real) {
    && t < |baselines| && baselines[t] >= 0.0 && Key(node, t) in known && known[Key(node, t)] >= 0.0
    && cost == 1.0 + baselines[t] + known[Key(node, t)]
  }

  lemma TargetWeightIs(adjacency: seq<set<nat>>, baselines: seq<real>, known: Delays, node: nat, t: nat, cost: real)
    requires t < |adjacency| && CostsOf(baselines, known, node, t, cost)
    ensures Quotient(TargetWeight(adjacency, baselines, known, node, t), cost, |adjacency[t]|)
    ensures adjacency[t] != {} ==> TargetWeight(adjacency, baselines, known, node, t) > 0.0
  {}

  /**
   * In the draws of an arrival the stretches of two targets not yet selected are in proportion to
   * their number of neighbours over their cost, so of two with equally many the cheaper is preferred.
   */
  lemma ArrivalPrefersCheap(adjacency: seq<set<nat>>, existing: seq<nat>, baselines: seq<real>, known: Delays,
                            node: nat, selected: set<nat>, i: nat, j: nat, c: real, c': real)
    returns (lo: real, share: real, lo': real, share': real)
    requires i < |existing| && existing[i] !in selected && existing[i] < |adjacency|
    requires j < |existing| && existing[j] !in selected && existing[j] < |adjacency|
    requires CostsOf(baselines, known, node, existing[i], c) && CostsOf(baselines, known, node, existing[j], c')
    requires adjacency[existing[i]] != {}
    ensures
      var w := ArrivalWeights(adjacency, existing, baselines, known, node);
      HasStretch(existing, w, selected, i, lo, share) && HasStretch(existing, w, selected, j, lo', share')
    ensures Fair(share, c, |adjacency[existing[i]]|, share', c', |adjacency[existing[j]]|)
  {
    var w := ArrivalWeights(adjacency, existing, baselines, known, node);
    assert w[i] == TargetWeight(adjacency, baselines, known, node, existing[i]);
    assert w[j] == TargetWeight(adjacency, baselines, known, node, existing[j]);
    TargetWeightIs(adjacency, baselines, known, node, existing[i], c);
    TargetWeightIs(adjacency, baselines, known, node, existing[j], c');
    PositiveTotal(existing, w, selected, i);
    lo, share, lo', share' := TwoStretches(existing, w, selected,
      i, c, |adjacency[existing[i]]|, j, c', |adjacency[existing[j]]|);
  }

  /** Each target was drawn among the existing nodes not yet selected, in proportion to degree over cost. */
  ghost predicate Drawn(existing: seq<nat>, weights: seq<real>, picks: seq<nat>, draws: seq<real>) {
    && |picks| == |draws|
    && forall j: nat {:trigger picks[j]} :: j < |picks| ==>
         PickedBy(existing, weights, Elements(picks[..j]), picks[j], draws[j])
  }

  lemma {:induction false} DrawnUnique(existing: seq<nat>, weights: seq<real>, picks: seq<nat>, picks': seq<nat>,
                                       draws: seq<real>)
    requires Drawn(existing, weights, picks, draws) && Drawn(existing, weights, picks', draws) && Nonnegative(weights)
    ensures picks == picks'
  {
    if draws != [] {
      var k := |draws| - 1;
      DrawnFront(existing, weights, picks, draws);
      DrawnFront(existing, weights, picks', draws);
      DrawnUnique(existing, weights, picks[..k], picks'[..k], draws[..k]);
      PickedUnique(existing, weights, Elements(picks[..k]), picks[k], picks'[k], draws[k]);
      assert picks == picks[..k] + [picks[k]] && picks' == picks'[..k] + [picks'[k]];
    }
  }

  lemma DrawnFront(existing: seq<nat>, weights: seq<real>, picks: seq<nat>, draws: seq<real>)
    requires Drawn(existing, weights, picks, draws) && draws != []
    ensures Drawn(existing, weights, picks[..|draws| - 1], draws[..|draws| - 1])
  {
    var front := picks[..|draws| - 1];
    forall j: nat | j < |front|
      ensures PickedBy(existing, weights, Elements(front[..j]), front[j], draws[..|draws| - 1][j])
    {
      assert front[..j] == picks[..j] && front[j] == picks[j];
    }
  }

  lemma DrawnNext(existing: seq<nat>, weights: seq<real>, picks: seq<nat>, draws: seq<real>, pick: nat, draw: real)
    requires Drawn(existing, weights, picks, draws) && PickedBy(existing, weights, Elements(picks), pick, draw)
    ensures Drawn(existing, weights, picks + [pick], draws + [draw])
  {
    var more := picks + [pick];
    forall j: nat | j < |more| ensures PickedBy(existing, weights, Elements(more[..j]), more[j], (draws + [draw])[j]) {
      if j < |picks| {
        assert more[..j] == picks[..j] && more[j] == picks[j];
      } else {
        assert more[..j] == picks;
      }
    }
  }

  /** The arrivals one after the other, each starting from the graph the earlier ones left. */
  ghost predicate Grew(n: nat, baselines: seq<real>, known: Delays, initial: seq<nat>, rounds: seq<Round>,
                       stages: seq<seq<set<nat>>>) {
    && |stages| == |rounds| + 1
    && FullClique(n, initial, stages[0])
    && forall k: nat {:trigger ArrivedAt(baselines, known, initial, rounds, stages, k)} :: k < |rounds| ==>
         ArrivedAt(baselines, known, initial, rounds, stages, k)
  }

  ghost predicate ArrivedAt(baselines: seq<real>, known: Delays, initial: seq<nat>, rounds: seq<Round>,
                            stages: seq<seq<set<nat>>>, k: nat) {
    && k < |rounds| && k + 1 < |stages|
    && Arrived(baselines, known, initial + NodesOf(rounds[..k]), rounds[k], stages[k], stages[k + 1])
  }

  ghost predicate Arrived(baselines: seq<real>, known: Delays, existing: seq<nat>, round: Round,
                          before: seq<set<nat>>, after: seq<set<nat>>) {
    && AllKnown(known, round.node, existing)
    && Drawn(existing, ArrivalWeights(before, existing, baselines, known, round.node), round.picks, round.draws)
    && round.node < |before|
    && Attached(after, before, round.node, Elements(round.picks))
  }

  lemma ArrivedStays(baselines: seq<real>, known: Delays, more: Delays, existing: seq<nat>, round: Round,
                     before: seq<set<nat>>, after: seq<set<nat>>)
    requires Extends(more, known) && Arrived(baselines, known, existing, round, before, after)
    ensures Arrived(baselines, more, existing, round, before, after)
  {
    var w := ArrivalWeights(before, existing, baselines, known, round.node);
    var w' := ArrivalWeights(before, existing, baselines, more, round.node);
    forall i | 0 <= i < |existing| ensures w[i] == w'[i] {
      assert DelayOf(more, round.node, existing[i]) == DelayOf(known, round.node, existing[i]);
    }
    assert w == w';
  }

  lemma GrewStays(n: nat, baselines: seq<real>, known: Delays, more: Delays, initial: seq<nat>,
                  rounds: seq<Round>, stages: seq<seq<set<nat>>>)
    requires Extends(more, known) && Grew(n, baselines, known, initial, rounds, stages)
    ensures Grew(n, baselines, more, initial, rounds, stages)
  {
    forall k: nat | k < |rounds| ensures ArrivedAt(baselines, more, initial, rounds, stages, k) {
      assert ArrivedAt(baselines, known, initial, rounds, stages, k);
      ArrivedStays(baselines, known, more, initial + NodesOf(rounds[..k]), rounds[k], stages[k], stages[k + 1]);
    }
  }

  lemma GrewNext(n: nat, baselines: seq<real>, known: Delays, initial: seq<nat>, rounds: seq<Round>,
                 stages: seq<seq<set<nat>>>, round: Round, after: seq<set<nat>>)
    requires Grew(n, baselines, known, initial, rounds, stages)
    requires Arrived(baselines, known, initial + NodesOf(rounds), round, stages[|rounds|], after)
    ensures Grew(n, baselines, known, initial, rounds + [round], stages + [after])
  {
    var rounds', stages' := rounds + [round], stages + [after];
    forall k: nat | k < |rounds'| ensures ArrivedAt(baselines, known, initial, rounds', stages', k) {
      if k < |rounds| {
        assert ArrivedAt(baselines, known, initial, rounds, stages, k);
        assert rounds'[..k] == rounds[..k] && rounds'[k] == rounds[k];
      } else {
        assert rounds'[..k] == rounds;
      }
    }
  }

  ghost predicate SameDraws(rounds: seq<Round>, rounds': seq<Round>) {
    && |rounds| == |rounds'|
    && forall k :: 0 <= k < |rounds| ==> rounds[k].node == rounds'[k].node && rounds[k].draws == rounds'[k].draws
  }

  /** One arrival from one graph with one sequence of draws has one result. */
  lemma ArrivedUnique(baselines: seq<real>, known: Delays, existing: seq<nat>, r: Round, r': Round,
                      before: seq<set<nat>>, after: seq<set<nat>>, after': seq<set<nat>>)
    requires Arrived(baselines, known, existing, r, before, after)
    requires Arrived(baselines, known, existing, r', before, after')
    requires r.node == r'.node && r.draws == r'.draws
    ensures r == r' && after == after'
  {
    DrawnUnique(existing, ArrivalWeights(before, existing, baselines, known, r.node), r.picks, r'.picks, r.draws);
  }

  /** The draws decide every selection and every graph: the visiting order of the targets does not enter. */
  lemma {:induction false} GrewUnique(n: nat, baselines: seq<real>, known: Delays, initial: seq<nat>,
                                      rounds: seq<Round>, rounds': seq<Round>,
                                      stages: seq<seq<set<nat>>>, stages': seq<seq<set<nat>>>, k: nat)
    requires Grew(n, baselines, known, initial, rounds, stages)
    requires Grew(n, baselines, known, initial, rounds', stages')
    requires SameDraws(rounds, rounds') && k <= |rounds|
    ensures rounds[..k] == rounds'[..k] && stages[k] == stages'[k]
  {
    if k == 0 {
      FullCliqueUnique(n, initial, stages[0], stages'[0]);
    } else {
      GrewUnique(n, baselines, known, initial, rounds, rounds', stages, stages', k - 1);
      assert ArrivedAt(baselines, known, initial, rounds, stages, k - 1);
      assert ArrivedAt(baselines, known, initial, rounds', stages', k - 1);
      ArrivedUnique(baselines, known, initial + NodesOf(rounds[..k - 1]), rounds[k - 1], rounds'[k - 1],
                    stages[k - 1], stages[k - 1 + 1], stages'[k - 1 + 1]);
      assert rounds[..k] == rounds[..k - 1] + [rounds[k - 1]];
      assert rounds'[..k] == rounds'[..k - 1] + [rounds'[k - 1]];
    }
  }

  /** What a run of the generator leaves: its clique, its arrivals, and the labelled edge list. */
  ghost predicate Outcome(n: nat, m: nat, baselines: seq<real>, known: Delays, initial: seq<nat>, rounds: seq<Round>,
                          stages: seq<seq<set<nat>>>, edges: seq<Edge>) {
    && |baselines| == n && |initial| == m + 1
    && Greedy(baselines, known, initial)
    && NodesOf(rounds) == Others(n, initial)
    && Grew(n, baselines, known, initial, rounds, stages)
    && Consistent(n, edges, stages[|rounds|]) && Labelled(edges, known)
  }

  lemma {:induction false} NodesOfAt(rounds: seq<Round>, k: nat)
    requires k < |rounds|
    ensures NodesOf(rounds)[k] == rounds[k].node
  {
    if k < |rounds| - 1 {
      NodesOfAt(rounds[..|rounds| - 1], k);
    }
  }

  /** The edges of a labelled list are fixed by the adjacency maps and the memo. */
  lemma LabelledOccurs(n: nat, edges: seq<Edge>, adjacency: seq<set<nat>>, known: Delays, r: Edge)
    requires Consistent(n, edges, adjacency) && Labelled(edges, known)
    ensures Occurs(edges, r) <==>
      r.a < r.b < n && r.b in adjacency[r.a] && r.Pair() in known && r.baseline == Some(known[r.Pair()])
  {
    if Occurs(edges, r) {
      var e :| e in edges && e.a != e.b && Canonicalize(e) == r;
      assert Key(r.a, r.b) in Pairs(edges);
    }
    if r.a < r.b < n && r.b in adjacency[r.a] {
      assert Key(r.a, r.b) in Pairs(edges);
      var e :| e in edges && e.Pair() == r.Pair();
    }
  }

  /** Two runs with the same pair delays and the same draws end in the same topology after normalization. */
  lemma SameDelaysSameTopology(n: nat, m: nat, baselines: seq<real>, known: Delays,
                          initial: seq<nat>, rounds: seq<Round>, stages: seq<seq<set<nat>>>, edges: seq<Edge>,
                          initial': seq<nat>, rounds': seq<Round>, stages': seq<seq<set<nat>>>, edges': seq<Edge>,
                          result: seq<Edge>, result': seq<Edge>)
    requires Outcome(n, m, baselines, known, initial, rounds, stages, edges)
    requires Outcome(n, m, baselines, known, initial', rounds', stages', edges')
    requires |rounds| == |rounds'| ==> forall k :: 0 <= k < |rounds| ==> rounds[k].draws == rounds'[k].draws
    requires NormalForm(edges, result) && NormalForm(edges', result')
    ensures initial == initial' && rounds == rounds'
    ensures result == result'
  {
    GreedyUnique(baselines, known, initial, initial');
    assert |rounds| == |NodesOf(rounds)| == |rounds'|;
    forall k | 0 <= k < |rounds| ensures rounds[k].node == rounds'[k].node {
      NodesOfAt(rounds, k);
      NodesOfAt(rounds', k);
    }
    GrewUnique(n, baselines, known, initial, rounds, rounds', stages, stages', |rounds|);
    assert rounds[..|rounds|] == rounds && rounds'[..|rounds|] == rounds';
    forall r ensures Occurs(edges, r) <==> Occurs(edges', r) {
      LabelledOccurs(n, edges, stages[|rounds|], known, r);
      LabelledOccurs(n, edges', stages[|rounds|], known, r);
    }
    LabelledOneBaseline(n, edges, known);
    LabelledOneBaseline(n, edges', known);
    NormalFormIgnoresOrder(edges, edges', result, result');
  }

  /** The memo of a run: the samples of the edge source in the order in which their pairs were first looked up. */
  ghost predicate Sampled(n: nat, initial: seq<nat>, known: Delays, samples: seq<real>) {
    known == Replay(AllUses(n, initial), samples) && |samples| == |known|
  }

  /** Both runs read the same edge source, each as far as it needs. */
  ghost predicate SameSource(samples: seq<real>, samples': seq<real>) {
    forall i: nat {:trigger SampleAt(samples, i)} :: i < |samples| && i < |samples'| ==>
      SampleAt(samples, i) == SampleAt(samples', i)
  }

  /** The lookups up to the selection of member k. */
  ghost function UsesBefore(n: nat, initial: seq<nat>, k: nat): seq<(nat, nat)>
    requires k <= |initial|
  {
    if k == 0 then [] else SelectionUses(n, initial[..k]) + ScanUses(n, initial[..k])
  }

  lemma UsesBeforeFirst(n: nat, initial: seq<nat>, k: nat) returns (rest: seq<(nat, nat)>)
    requires k < |initial|
    ensures AllUses(n, initial) == UsesBefore(n, initial, k) + rest
  {
    assert initial[..k + 1][..k] == initial[..k];
    var later := SelectionUsesPrefix(n, initial, k + 1);
    rest := later + ArrivalUses(n, initial);
    assert SelectionUses(n, initial[..k + 1]) == UsesBefore(n, initial, k);
    Regroup(UsesBefore(n, initial, k), later, ArrivalUses(n, initial));
  }

  lemma ScanKnown(n: nat, initial: seq<nat>, samples: seq<real>, k: nat, c: nat)
    requires k <= |initial| && c < n && c !in initial[..k]
    ensures AllKnown(Replay(UsesBefore(n, initial, k), samples), c, initial[..k])
  {
    ReplayKeys(UsesBefore(n, initial, k), samples);
    forall i | 0 <= i < k ensures Key(c, initial[..k][i]) in UsesBefore(n, initial, k) {
      ScanUsesMembers(n, initial[..k], c, i);
    }
  }

  /** The delays that the selection of member k looked up are in every later memo. */
  lemma SelectionKnown(n: nat, initial: seq<nat>, known: Delays, samples: seq<real>, k: nat)
    requires Sampled(n, initial, known, samples) && k < |initial|
    ensures
      var memo := Replay(UsesBefore(n, initial, k), samples);
      Extends(known, memo) && |memo| <= |samples|
  {
    var rest := UsesBeforeFirst(n, initial, k);
    ReplayExtends(UsesBefore(n, initial, k), rest, samples);
  }

  /** The memo at the time is what decided member k. */
  lemma BestThen(n: nat, baselines: seq<real>, known: Delays, initial: seq<nat>, samples: seq<real>, k: nat)
    requires Greedy(baselines, known, initial) && |baselines| == n
    requires Sampled(n, initial, known, samples) && k < |initial|
    ensures Best(baselines, Replay(UsesBefore(n, initial, k), samples), initial[..k], initial[k], n)
  {
    var memo := Replay(UsesBefore(n, initial, k), samples);
    SelectionKnown(n, initial, known, samples, k);
    assert BestAt(baselines, known, initial, k);
    forall c: nat | c < n && c !in initial[..k] ensures AllKnown(memo, c, initial[..k]) {
      ScanKnown(n, initial, samples, k, c);
    }
    BestBefore(baselines, memo, known, initial[..k], initial[k]);
  }

  /** Two memos of the same lookups from the same source. */
  lemma SameMemo(uses: seq<(nat, nat)>, samples: seq<real>, samples': seq<real>)
    requires SameSource(samples, samples')
    requires |Replay(uses, samples)| <= |samples| && |Replay(uses, samples')| <= |samples'|
    ensures Replay(uses, samples) == Replay(uses, samples')
  {
    ReplayKeys(uses, samples);
    ReplayKeys(uses, samples');
    assert Replay(uses, samples).Keys == Replay(uses, samples').Keys;
    assert |Replay(uses, samples)| == |Replay(uses, samples).Keys|;
    ReplayAlike(uses, samples, samples');
  }

  /** The edge source decides each member of the clique after the earlier ones. */
  lemma MemberFromSource(n: nat, baselines: seq<real>, known: Delays, known': Delays,
                         initial: seq<nat>, initial': seq<nat>, samples: seq<real>, samples': seq<real>, k: nat)
    requires Greedy(baselines, known, initial) && Greedy(baselines, known', initial') && |baselines| == n
    requires SameSource(samples, samples') && k < |initial| == |initial'| && initial[..k] == initial'[..k]
    requires Sampled(n, initial, known, samples) && Sampled(n, initial', known', samples')
    ensures initial[k] == initial'[k]
  {
    var uses, chosen := UsesBefore(n, initial, k), initial[..k];
    assert uses == UsesBefore(n, initial', k);
    SelectionKnown(n, initial, known, samples, k);
    SelectionKnown(n, initial', known', samples', k);
    SameMemo(uses, samples, samples');
    BestThen(n, baselines, known, initial, samples, k);
    BestThen(n, baselines, known', initial', samples', k);
    BestUnique(baselines, Replay(uses, samples), chosen, initial[k], initial'[k]);
  }

  /** The edge source decides the clique. */
  lemma {:induction false} CliqueFromSource(n: nat, baselines: seq<real>, known: Delays, known': Delays,
                                            initial: seq<nat>, initial': seq<nat>, samples: seq<real>,
                                            samples': seq<real>, k: nat)
    requires Greedy(baselines, known, initial) && Greedy(baselines, known', initial') && |initial| == |initial'|
    requires |baselines| == n && SameSource(samples, samples') && k <= |initial|
    requires Sampled(n, initial, known, samples) && Sampled(n, initial', known', samples')
    ensures initial[..k] == initial'[..k]
  {
    if k > 0 {
      CliqueFromSource(n, baselines, known, known', initial, initial', samples, samples', k - 1);
      MemberFromSource(n, baselines, known, known', initial, initial', samples, samples', k - 1);
      SamePrefix(initial, initial', k - 1);
    }
  }

  /**
   * Two runs that read the same edge source and have the same draws end in the same topology after
   * normalization, in whatever order each of them iterated its selected sets.
   */
  lemma OrderIndependence(n: nat, m: nat, baselines: seq<real>, known: Delays, known': Delays,
                          initial: seq<nat>, rounds: seq<Round>, stages: seq<seq<set<nat>>>, edges: seq<Edge>,
                          initial': seq<nat>, rounds': seq<Round>, stages': seq<seq<set<nat>>>, edges': seq<Edge>,
                          samples: seq<real>, samples': seq<real>, result: seq<Edge>, result': seq<Edge>)
    requires Outcome(n, m, baselines, known, initial, rounds, stages, edges)
    requires Outcome(n, m, baselines, known', initial', rounds', stages', edges')
    requires Sampled(n, initial, known, samples) && Sampled(n, initial', known', samples')
    requires SameSource(samples, samples')
    requires |rounds| == |rounds'| ==> forall k :: 0 <= k < |rounds| ==> rounds[k].draws == rounds'[k].draws
    requires NormalForm(edges, result) && NormalForm(edges', result')
    ensures initial == initial' && known == known' && samples == samples' && rounds == rounds'
    ensures result == result'
  {
    CliqueFromSource(n, baselines, known, known', initial, initial', samples, samples', |initial|);
    assert initial[..|initial|] == initial && initial'[..|initial|] == initial';
    SameMemo(AllUses(n, initial), samples, samples');
    forall i | 0 <= i < |samples| ensures samples[i] == samples'[i] {
      assert SampleAt(samples, i) == SampleAt(samples', i);
    }
    SameDelaysSameTopology(n, m, baselines, known, initial, rounds, stages, edges,
                           initial', rounds', stages', edges', result, result');
  }

  lemma LabelledOneBaseline(n: nat, edges: seq<Edge>, known: Delays)
    requires SimpleEdges(n, edges) && Labelled(edges, known)
    ensures OneBaseline(edges)
  {
    forall e, f | e in edges && f in edges && Key(e.a, e.b) == Key(f.a, f.b)
      ensures Canonicalize(e) == Canonicalize(f)
    {
      SamePairSameEdge(edges, e, f);
    }
  }

  /** Every arrival adds edges with the memoized delays and leaves the earlier labels alone. */
  lemma LabelsStay(edges: seq<Edge>, known: Delays, more: Delays)
    requires Labelled(edges, known) && Extends(more, known)
    ensures Labelled(edges, more)
  {}

  lemma JoinsAreLabelled(edges: seq<Edge>, before: seq<Edge>, node: nat, targets: set<nat>, delays: seq<real>,
                         known: Delays)
    requires Labelled(before, known) && Joins(edges, before, node, targets, Some(delays))
    requires forall t :: t in targets ==> t < |delays| && Key(node, t) in known && delays[t] == known[Key(node, t)]
    ensures Labelled(edges, known)
  {
    forall e | e in edges && e !in before ensures e.Pair() in known && e.baseline == Some(known[e.Pair()]) {
      assert NewEdge(e, node, targets, Some(delays));
    }
  }

  ghost predicate PairKnown(initial: seq<nat>, known: Delays, i: int, j: int) {
    0 <= i < j < |initial| ==> Key(initial[i], initial[j]) in known
  }

  /** The selection of the clique has looked up the delays between all its members. */
  ghost predicate CliqueKnown(initial: seq<nat>, known: Delays) {
    forall i, j {:trigger PairKnown(initial, known, i, j)} :: PairKnown(initial, known, i, j)
  }

  lemma GreedyKnows(baselines: seq<real>, known: Delays, initial: seq<nat>)
    requires Greedy(baselines, known, initial)
    ensures CliqueKnown(initial, known)
  {
    forall i, j ensures PairKnown(initial, known, i, j) {
      if 0 <= i < j < |initial| {
        assert BestAt(baselines, known, initial, j);
        assert Key(initial[j], initial[..j][i]) in known;
      }
    }
  }

  lemma LabelledNext(edges: seq<Edge>, known: Delays, a: nat, c: nat, delay: real)
    requires Labelled(edges, known) && Key(a, c) in known && known[Key(a, c)] == delay
    ensures Labelled(edges + [Canonicalize(Edge(a, c, Some(delay)))], known)
  {}

  /** An edge of the clique; its delay is in the memo, so looking it up leaves no trace. */
  method AddCliqueEdge(b: Builder, initial: seq<nat>, i: nat, j: nat, delays: PairDelays)
    requires i < j < |initial| && (forall k :: 0 <= k < |initial| ==> initial[k] < b.n)
    requires b.Counted() && delays.Valid() && Labelled(b.edges, delays.known) && CliqueUpTo(initial, b.adjacency, i, j)
    requires CliqueKnown(initial, delays.known)
    modifies b, delays
    ensures b.Counted() && delays.Valid() && delays.known == old(delays.known) && delays.uses == old(delays.uses)
    ensures Labelled(b.edges, delays.known)
    ensures CliqueUpTo(initial, b.adjacency, i, j + 1) && |b.edges| == |old(b.edges)| + 1
  {
    assert PairKnown(initial, delays.known, i, j);
    ghost var uses := delays.uses;
    var delay := delays.PairDelay(initial[i], initial[j]);
    delays.uses := uses;
    CliqueNext(b.n, initial, b.edges, b.adjacency, i, j);
    LabelledNext(b.edges, delays.known, initial[i], initial[j], delay);
    b.AddCounted(initial[i], initial[j], Some(delay));
  }

  /** The edges from one member of the clique to the later ones. */
  method InitialRow(b: Builder, initial: seq<nat>, i: nat, delays: PairDelays)
    requires i < |initial| && (forall k :: 0 <= k < |initial| ==> initial[k] < b.n)
    requires b.Counted() && delays.Valid() && Labelled(b.edges, delays.known)
    requires CliqueUpTo(initial, b.adjacency, i, i + 1)
    requires CliqueKnown(initial, delays.known)
    modifies b, delays
    ensures b.Counted() && delays.Valid() && delays.known == old(delays.known) && delays.uses == old(delays.uses)
    ensures Labelled(b.edges, delays.known)
    ensures CliqueUpTo(initial, b.adjacency, i + 1, i + 2) && |b.edges| == |old(b.edges)| + |initial| - i - 1
  {
    for j := i + 1 to |initial|
      invariant b.Counted() && delays.Valid() && delays.known == old(delays.known) && delays.uses == old(delays.uses)
      invariant Labelled(b.edges, delays.known)
      invariant CliqueUpTo(initial, b.adjacency, i, j)
      invariant |b.edges| == |old(b.edges)| + j - i - 1
    {
      AddCliqueEdge(b, initial, i, j, delays);
    }
    RowDone(initial, b.adjacency, i);
  }

  lemma EmptyClique(n: nat, initial: seq<nat>)
    requires Distinct(initial) && forall i :: 0 <= i < |initial| ==> initial[i] < n
    ensures CliqueUpTo(initial, seq(n, _ => {}), 0, 1)
  {}

  method InitialClique(n: nat, m: nat, initial: seq<nat>, delays: PairDelays) returns (b: Builder)
    requires |initial| == m + 1 && Distinct(initial) && (forall i :: 0 <= i < |initial| ==> initial[i] < n)
    requires delays.Valid()
    requires CliqueKnown(initial, delays.known)
    modifies delays
    ensures fresh(b) && b.n == n && b.Counted() && delays.Valid()
    ensures delays.known == old(delays.known) && delays.uses == old(delays.uses)
    ensures Labelled(b.edges, delays.known)
    ensures Grown(m, initial, b.adjacency) && |b.edges| == Stubs(m + 1, m) && FullClique(n, initial, b.adjacency)
  {
    b := new Builder(n);
    EmptyClique(n, initial);
    for i := 0 to |initial|
      invariant b.Counted() && delays.Valid() && delays.known == old(delays.known) && delays.uses == old(delays.uses)
      invariant Labelled(b.edges, delays.known)
      invariant CliqueUpTo(initial, b.adjacency, i, i + 1)
      invariant |b.edges| == Rows(i, |initial|)
    {
      InitialRow(b, initial, i, delays);
    }
    CliqueDone(n, m, initial, b.edges, b.adjacency);
    RowsAreStubs(|initial|, m);
  }

  /** The table holds the delays from the node to the first i existing ones. */
  ghost predicate Tabled(node: nat, existing: seq<nat>, i: nat, table: seq<real>, known: Delays) {
    && i <= |existing|
    && forall k {:trigger existing[k]} :: 0 <= k < i ==>
         && existing[k] < |table| && Key(node, existing[k]) in known
         && table[existing[k]] == known[Key(node, existing[k])]
  }

  lemma TabledNext(node: nat, existing: seq<nat>, i: nat, table: seq<real>, known: Delays, more: Delays, delay: real)
    requires Tabled(node, existing, i, table, known) && Extends(more, known) && Distinct(existing)
    requires i < |existing| && existing[i] < |table|
    requires Key(node, existing[i]) in more && more[Key(node, existing[i])] == delay
    ensures Tabled(node, existing, i + 1, table[existing[i] := delay], more)
  {}

  /** The link delays from an arriving node to all existing ones, zero elsewhere. */
  method CandidateDelays(n: nat, node: nat, existing: seq<nat>, delays: PairDelays) returns (table: seq<real>)
    requires delays.Valid() && Distinct(existing) && forall i :: 0 <= i < |existing| ==> existing[i] < n
    modifies delays
    ensures delays.Valid() && Extends(delays.known, old(delays.known))
    ensures |table| == n && Nonnegative(table) && AllKnown(delays.known, node, existing)
    ensures forall i :: 0 <= i < |existing| ==> table[existing[i]] == DelayOf(delays.known, node, existing[i])
    ensures delays.uses == old(delays.uses) + KeysTo(node, existing)
  {
    ghost var start := delays.uses;
    assert start == start + KeysTo(node, existing[..0]);
    table := seq(n, _ => 0.0);
    for i := 0 to |existing|
      invariant delays.Valid() && Extends(delays.known, old(delays.known))
      invariant |table| == n && Nonnegative(table) && Tabled(node, existing, i, table, delays.known)
      invariant delays.uses == start + KeysTo(node, existing[..i])
    {
      KeysToNext(start, node, existing, i);
      ghost var before := delays.known;
      var target := existing[i];
      var delay := delays.PairDelay(node, target);
      TabledNext(node, existing, i, table, before, delays.known, delay);
      table := table[target := delay];
    }
    assert existing[..|existing|] == existing;
  }

  lemma PickedFresh(existing: seq<nat>, weights: seq<real>, selected: set<nat>, node: nat, draw: real)
    requires PickedBy(existing, weights, selected, node, draw)
    ensures node in existing && node !in selected && |selected + {node}| == |selected| + 1
  {}

  /** The loop that draws m different targets among the existing nodes. */
  method SelectTargets(m: nat, existing: seq<nat>, degrees: seq<nat>, baselines: seq<real>, candidateDelays: seq<real>,
                       rng: Rand, ghost weights: seq<real>)
    returns (selected: set<nat>, ghost picks: seq<nat>, ghost draws: seq<real>)
    requires Distinct(existing) && m < |existing| && Nonnegative(weights)
    requires Weighs(existing, degrees, baselines, candidateDelays, weights)
    requires forall i :: 0 <= i < |existing| ==> weights[i] > 0.0
    ensures |selected| == m && selected == Elements(picks) && selected <= Elements(existing)
    ensures Drawn(existing, weights, picks, draws)
  {
    selected, picks, draws := {}, [], [];
    while |selected| < m
      invariant |selected| <= m && selected == Elements(picks) && selected <= Elements(existing)
      invariant Drawn(existing, weights, picks, draws)
      decreases m - |selected|
    {
      ghost var i := SomeCandidateLeft(existing, selected);
      PositiveTotal(existing, weights, selected, i);
      var choice, draw :=
        WeightedOpportunityChoice(existing, degrees, baselines, candidateDelays, selected, rng, weights);
      PickedFresh(existing, weights, selected, choice.node, draw);
      DrawnNext(existing, weights, picks, draws, choice.node, draw);
      ElementsNext(picks, choice.node);
      selected, picks, draws := selected + {choice.node}, picks + [choice.node], draws + [draw];
    }
  }

  lemma ElementsNext(s: seq<nat>, x: nat)
    ensures Elements(s + [x]) == Elements(s) + {x}
  {}

  lemma SomeCandidateLeft(existing: seq<nat>, selected: set<nat>) returns (i: nat)
    requires Distinct(existing) && |selected| < |existing|
    ensures i < |existing| && existing[i] !in selected
  {
    DistinctSize(existing);
    if Elements(existing) <= selected {
      SubsetSize(Elements(existing), selected);
    }
    var x :| x in Elements(existing) && x !in selected;
    i :| 0 <= i < |existing| && existing[i] == x;
  }

  lemma WeightsAgree(adjacency: seq<set<nat>>, degrees: seq<nat>, existing: seq<nat>, baselines: seq<real>,
                     known: Delays, node: nat, table: seq<real>)
    requires |degrees| == |adjacency| == |baselines| == |table| && Nonnegative(baselines) && Nonnegative(table)
    requires forall v: nat :: v < |degrees| ==> degrees[v] == |adjacency[v]|
    requires forall i :: 0 <= i < |existing| ==>
      existing[i] < |table| && table[existing[i]] == DelayOf(known, node, existing[i])
    ensures Weighs(existing, degrees, baselines, table, ArrivalWeights(adjacency, existing, baselines, known, node))
  {
    var w := ArrivalWeights(adjacency, existing, baselines, known, node);
    forall i | 0 <= i < |existing|
      ensures w[i] == WeightOf(degrees[existing[i]], baselines[existing[i]], table[existing[i]])
    {
      assert w[i] == TargetWeight(adjacency, baselines, known, node, existing[i]);
    }
  }

  /** The state between arrivals. */
  ghost predicate Growing(n: nat, m: nat, baselines: seq<real>, b: Builder, delays: PairDelays, existing: seq<nat>)
    reads b, delays
  {
    && b.n == n && b.Counted() && delays.Valid() && Labelled(b.edges, delays.known)
    && |baselines| == n && Nonnegative(baselines)
    && 0 < m < |existing| && Grown(m, existing, b.adjacency) && |b.edges| == Stubs(|existing|, m)
  }

  lemma ExistingDegrees(n: nat, m: nat, existing: seq<nat>, edges: seq<Edge>, adjacency: seq<set<nat>>,
                        degrees: seq<nat>)
    requires Consistent(n, edges, adjacency) && DegreesMatch(edges, adjacency, degrees)
    requires 0 < m < |existing| && Grown(m, existing, adjacency)
    ensures forall i :: 0 <= i < |existing| ==> existing[i] < n && degrees[existing[i]] >= m
  {
    forall i | 0 <= i < |existing| ensures existing[i] < n && degrees[existing[i]] >= m {
      GrownDegree(n, m, existing, edges, adjacency, i);
    }
  }

  method Arrive(n: nat, m: nat, baselines: seq<real>, b: Builder, delays: PairDelays, existing: seq<nat>, node: nat,
                rng: Rand)
    returns (ghost round: Round)
    requires Growing(n, m, baselines, b, delays, existing) && node < n && node !in existing
    modifies b, delays
    ensures Growing(n, m, baselines, b, delays, existing + [node]) && Extends(delays.known, old(delays.known))
    ensures round.node == node && Arrived(baselines, delays.known, existing, round, old(b.adjacency), b.adjacency)
    ensures delays.uses == old(delays.uses) + KeysTo(node, existing)
  {
    ExistingDegrees(n, m, existing, b.edges, b.adjacency, b.degrees);
    var candidateDelays := CandidateDelays(n, node, existing, delays);
    LabelsStay(b.edges, old(delays.known), delays.known);
    ghost var weights := ArrivalWeights(b.adjacency, existing, baselines, delays.known, node);
    WeightsAgree(b.adjacency, b.degrees, existing, baselines, delays.known, node, candidateDelays);
    var selected, picks, draws := SelectTargets(m, existing, b.degrees, baselines, candidateDelays, rng, weights);
    round := Round(node, picks, draws);
    TargetDelays(n, existing, selected, node, candidateDelays, delays.known);
    ghost var before := b.edges;
    StubsNext(existing, node, m);
    Attach(b, node, selected, Some(candidateDelays));
    JoinsAreLabelled(b.edges, before, node, selected, candidateDelays, delays.known);
    AttachKeepsGrown(m, existing, old(b.adjacency), b.adjacency, node, selected);
  }

  lemma StubsNext(existing: seq<nat>, node: nat, m: nat)
    requires m < |existing|
    ensures Stubs(|existing + [node]|, m) == Stubs(|existing|, m) + m
  {}

  lemma TargetDelays(n: nat, existing: seq<nat>, selected: set<nat>, node: nat, table: seq<real>, known: Delays)
    requires |table| == n && (forall i :: 0 <= i < |existing| ==> existing[i] < n) && AllKnown(known, node, existing)
    requires forall i :: 0 <= i < |existing| ==> table[existing[i]] == DelayOf(known, node, existing[i])
    requires selected <= Elements(existing)
    ensures forall t :: t in selected ==> t < n && Key(node, t) in known && table[t] == known[Key(node, t)]
  {
    forall t | t in selected ensures t < n && Key(node, t) in known && table[t] == known[Key(node, t)] {
      assert t in Elements(existing);
      var i :| 0 <= i < |existing| && existing[i] == t;
      assert Key(node, existing[i]) in known;
    }
  }

  lemma OthersCount(n: nat, initial: seq<nat>, order: seq<nat>)
    requires Distinct(order) && order == initial + Others(n, initial) && forall i :: 0 <= i < |order| ==> order[i] < n
    ensures |order| == n && forall v: nat :: v < n ==> v in order
  {
    forall v: nat | v < n ensures v in order {
      OthersMembers(n, initial, v);
    }
    DistinctBounded(n, order);
    DistinctSize(order);
    DistinctSize(Range(n));
    forall v | v in Elements(Range(n)) ensures v in Elements(order) {}
    SubsetSize(Elements(Range(n)), Elements(order));
  }

  /** The arrival and its place in the history. */
  method ArriveNext(n: nat, m: nat, baselines: seq<real>, b: Builder, delays: PairDelays, existing: seq<nat>,
                    node: nat, rng: Rand, ghost initial: seq<nat>, ghost rounds: seq<Round>,
                    ghost stages: seq<seq<set<nat>>>, ghost start: seq<(nat, nat)>)
    returns (ghost round: Round)
    requires Growing(n, m, baselines, b, delays, existing) && node < n && node !in existing
    requires Greedy(baselines, delays.known, initial)
    requires Grew(n, baselines, delays.known, initial, rounds, stages) && stages[|rounds|] == b.adjacency
    requires existing == initial + NodesOf(rounds) && node !in initial && NodesOf(rounds) == Others(node, initial)
    requires delays.uses == start + ArrivalUses(node, initial)
    modifies b, delays
    ensures Growing(n, m, baselines, b, delays, existing + [node]) && Greedy(baselines, delays.known, initial)
    ensures Grew(n, baselines, delays.known, initial, rounds + [round], stages + [b.adjacency])
    ensures NodesOf(rounds + [round]) == NodesOf(rounds) + [node]
    ensures delays.uses == start + ArrivalUses(node + 1, initial)
  {
    ArrivalUsesNext(start, node, initial, existing);
    round := Arrive(n, m, baselines, b, delays, existing, node, rng);
    GreedyStays(baselines, old(delays.known), delays.known, initial);
    GrewOn(n, baselines, old(delays.known), delays.known, initial, rounds, stages, round, b.adjacency);
  }

  /** Between two turns of the arrival loop: the nodes below the next one are in. */
  ghost predicate GrownTo(n: nat, m: nat, baselines: seq<real>, b: Builder, delays: PairDelays, initial: seq<nat>,
                          start: seq<(nat, nat)>, node: nat, existing: seq<nat>, rounds: seq<Round>,
                          stages: seq<seq<set<nat>>>)
    reads b, delays
  {
    && Growing(n, m, baselines, b, delays, existing) && Greedy(baselines, delays.known, initial)
    && existing == initial + Others(node, initial) && NodesOf(rounds) == Others(node, initial)
    && Grew(n, baselines, delays.known, initial, rounds, stages) && stages[|rounds|] == b.adjacency
    && delays.uses == start + ArrivalUses(node, initial)
  }

  /** One turn: a node of the clique is passed over, any other arrives. */
  method GrowTo(n: nat, m: nat, baselines: seq<real>, b: Builder, delays: PairDelays, initial: seq<nat>, rng: Rand,
                ghost start: seq<(nat, nat)>, node: nat, existing: seq<nat>, ghost rounds: seq<Round>,
                ghost stages: seq<seq<set<nat>>>)
    returns (existing': seq<nat>, ghost rounds': seq<Round>, ghost stages': seq<seq<set<nat>>>)
    requires GrownTo(n, m, baselines, b, delays, initial, start, node, existing, rounds, stages) && node < n
    modifies b, delays
    ensures GrownTo(n, m, baselines, b, delays, initial, start, node + 1, existing', rounds', stages')
  {
    existing', rounds', stages' := existing, rounds, stages;
    if node !in initial {
      OthersMembers(node, initial, node);
      ghost var round := ArriveNext(n, m, baselines, b, delays, existing, node, rng, initial, rounds, stages, start);
      OthersNext(node, initial);
      existing', rounds', stages' := existing + [node], rounds + [round], stages + [b.adjacency];
    } else {
      assert Others(node + 1, initial) == Others(node, initial);
      ArrivalUsesNext(start, node, initial, existing);
    }
  }

  /** All arrivals: the nodes outside the clique in index order. */
  method GrowAll(n: nat, m: nat, baselines: seq<real>, b: Builder, delays: PairDelays, initial: seq<nat>, rng: Rand)
    returns (existing: seq<nat>, ghost rounds: seq<Round>, ghost stages: seq<seq<set<nat>>>)
    requires Growing(n, m, baselines, b, delays, initial) && Greedy(baselines, delays.known, initial)
    requires FullClique(n, initial, b.adjacency)
    modifies b, delays
    ensures GrownTo(n, m, baselines, b, delays, initial, old(delays.uses), n, existing, rounds, stages)
  {
    GrewStart(n, baselines, delays.known, initial, b.adjacency);
    existing, rounds, stages := initial, [], [b.adjacency];
    ghost var start := delays.uses;
    assert start == start + ArrivalUses(0, initial);
    for node := 0 to n
      invariant GrownTo(n, m, baselines, b, delays, initial, start, node, existing, rounds, stages)
    {
      existing, rounds, stages :=
        GrowTo(n, m, baselines, b, delays, initial, rng, start, node, existing, rounds, stages);
    }
  }

  lemma GrewStart(n: nat, baselines: seq<real>, known: Delays, initial: seq<nat>, adjacency: seq<set<nat>>)
    requires FullClique(n, initial, adjacency)
    ensures Grew(n, baselines, known, initial, [], [adjacency])
    ensures initial + Others(0, initial) == initial
  {}

  lemma GrewOn(n: nat, baselines: seq<real>, known: Delays, more: Delays, initial: seq<nat>, rounds: seq<Round>,
               stages: seq<seq<set<nat>>>, round: Round, after: seq<set<nat>>)
    requires Grew(n, baselines, known, initial, rounds, stages) && Extends(more, known)
    requires Arrived(baselines, more, initial + NodesOf(rounds), round, stages[|rounds|], after)
    ensures Grew(n, baselines, more, initial, rounds + [round], stages + [after])
    ensures NodesOf(rounds + [round]) == NodesOf(rounds) + [round.node]
  {
    GrewStays(n, baselines, known, more, initial, rounds, stages);
    GrewNext(n, baselines, more, initial, rounds, stages, round, after);
    NodesOfNext(rounds, round);
  }

  lemma NodesOfNext(rounds: seq<Round>, round: Round)
    ensures NodesOf(rounds + [round]) == NodesOf(rounds) + [round.node]
  {
    assert (rounds + [round])[..|rounds|] == rounds;
  }

  lemma GrownSummary(n: nat, m: nat, initial: seq<nat>, existing: seq<nat>, edges: seq<Edge>, adjacency: seq<set<nat>>,
                     degrees: seq<nat>)
    requires Consistent(n, edges, adjacency) && DegreesMatch(edges, adjacency, degrees) && Grown(m, existing, adjacency)
    requires existing == initial + Others(n, initial) && 0 < m < n && |edges| == Stubs(|existing|, m)
    ensures |edges| == m * (m + 1) / 2 + (n - m - 1) * m
    ensures forall v: nat :: v < n ==> Degree(n, edges, v) == degrees[v] >= m
    ensures ConnectedOn(n, Pairs(edges))
  {
    OthersCount(n, initial, existing);
    StubsClosedForm(n, m);
    forall v: nat | v < n ensures Degree(n, edges, v) == degrees[v] >= m && Linked(Pairs(edges), existing[0], v) {
      assert v in existing;
      var i :| 0 <= i < |existing| && existing[i] == v;
      GrownDegree(n, m, existing, edges, adjacency, i);
      GrownLinked(n, m, existing, edges, adjacency, i);
      AdjacencyIsNeighbors(n, edges, adjacency, v);
    }
    RootedIsConnected(n, Pairs(edges), existing[0]);
  }

  /**
   * For every seed: a simple connected graph with the edge count and least degree of plain growth,
   * a greedy clique at its heart, and on every edge the single memoized delay of its pair.
   */
  method GenerateBAOpportunistic(n: nat, m: nat, baselines: seq<real>, edgeRng: Rand, rng: Rand)
    returns (edges: seq<Edge>, ghost known: Delays, ghost initial: seq<nat>, ghost rounds: seq<Round>,
             ghost stages: seq<seq<set<nat>>>, ghost order: seq<nat>, ghost degrees: seq<nat>, ghost samples: seq<real>)
    requires 0 < m < n == |baselines| && Nonnegative(baselines)
    ensures Outcome(n, m, baselines, known, initial, rounds, stages, edges) && Sampled(n, initial, known, samples)
    ensures order == initial + Others(n, initial) && Grown(m, order, stages[|rounds|])
    ensures DegreesMatch(edges, stages[|rounds|], degrees)
    ensures |edges| == m * (m + 1) / 2 + (n - m - 1) * m
    ensures forall v: nat :: v < n ==> Degree(n, edges, v) == degrees[v] >= m
    ensures ConnectedOn(n, Pairs(edges))
  {
    var delays := new PairDelays(edgeRng);
    var initialNodes := SelectOpportunisticInitialClique(n, m + 1, baselines, delays);
    initial := initialNodes;
    GreedyKnows(baselines, delays.known, initial);
    var b := InitialClique(n, m, initialNodes, delays);
    var existing: seq<nat>;
    existing, rounds, stages := GrowAll(n, m, baselines, b, delays, initialNodes, rng);
    edges, known, order, degrees, samples := b.edges, delays.known, existing, b.degrees, delays.samples;
    GrownSummary(n, m, initial, existing, edges, stages[|rounds|], degrees);
  }
}
