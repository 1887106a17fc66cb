/** No goroutine waits for ever: a run that cannot go on has come to rest. */
module FloodingProgress {
  import opened Wire
  import opened Graph
  import opened Sums
  import opened Flooding
  import opened FloodingInvariant
  import opened FloodingSteps
  import opened FloodingArrivals
  import opened FloodingTree
  import opened FloodingCoverage
  import HopWave
  import Sequences

  /** No step is possible but a further injection. */
  ghost predicate Standstill(c: Config, s: State) {
    forall step: Step :: !step.Inject? ==> !Enabled(c, s, step)
  }

  ghost predicate Moves(c: Config, s: State, step: Step) {
    !step.Inject? && Enabled(c, s, step)
  }

  lemma HandlerCanMove(c: Config, s: State, u: Node) returns (step: Step)
    requires c.Valid() && Inv(c, s) && u < |s.peers| && s.peers[u].handlers != []
    ensures Moves(c, s, step)
  {
    PeerOf(c, s, u);
    var h := s.peers[u].handlers[0];
    assert h in s.peers[u].handlers;
    if h.announce == [] {
      step := AdmitItem(u, 0);
    } else {
      NeighborLink(c, s, u, h.announce[0]);
      step := BroadcastNext(u, 0);
    }
  }

  lemma {:induction false} DistinctElements(s: seq<Node>)
    requires forall v :: multiset(s)[v] <= 1
    ensures |Sequences.Elements(s)| == |s|
  {
    if s != [] {
      HeadCount(s);
      DistinctElements(s[1..]);
      assert s[0] !in s[1..] by {
        assert multiset(s[1..])[s[0]] == 0;
      }
      assert s == [s[0]] + s[1..];
      assert Sequences.Elements(s) == Sequences.Elements(s[1..]) + {s[0]};
    }
  }

  lemma {:induction false} SubsetOfSize(a: set<Node>, k: nat) returns (b: set<Node>)
    requires k <= |a|
    ensures b <= a && |b| == k
  {
    if k == 0 {
      b := {};
    } else {
      var x :| x in a;
      b := SubsetOfSize(a - {x}, k - 1);
      b := b + {x};
    }
  }

  /** The eligible neighbours of a plan are pairwise distinct, so a trough can choose its share. */
  lemma ChoiceExists(c: Config, s: State, u: Node, w: nat) returns (chosen: set<Node>)
    requires c.Valid() && Inv(c, s) && WorkerAt(s, u, w) && s.peers[u].workers[w].Deciding?
    ensures TargetsAllowed(c.protocol, s.peers[u].workers[w].item, s.peers[u].workers[w].eligible, chosen)
  {
    var worker := s.peers[u].workers[w];
    var eligible := worker.eligible;
    if Relay(c.protocol, worker.item).crest {
      chosen := Sequences.Elements(eligible);
    } else {
      forall v ensures multiset(eligible)[v] <= 1 {
        EligibleOnce(c, s, u, w, v);
      }
      DistinctElements(eligible);
      chosen := SubsetOfSize(Sequences.Elements(eligible), HopWave.TargetCount(c.protocol.f, |eligible|));
    }
  }

  lemma EligibleOnce(c: Config, s: State, u: Node, w: nat, v: Node)
    requires c.Valid() && Inv(c, s) && WorkerAt(s, u, w) && s.peers[u].workers[w].Deciding?
    ensures multiset(s.peers[u].workers[w].eligible)[v] <= 1
  {
    var worker := s.peers[u].workers[w];
    WorkerOf(c, s, u, w);
    if v in worker.eligible {
      var id := worker.item.message.id;
      LinkLawOf(c, s, u, v, id);
      SumByAtLeast(s.peers[u].workers, w, OwedBy(v, id));
    }
  }

  lemma LinkLawOf(c: Config, s: State, u: Node, v: Node, id: MessageId)
    requires c.Valid() && Inv(c, s) && u < |c.neighbors| && v in c.neighbors[u]
    ensures u < |s.peers| && SumBy(s.peers[u].workers, OwedBy(v, id)) <= 1
  {
    NeighborLink(c, s, u, v);
    assert EdgeAt(c, s, u, v);
    assert SumBy(s.peers[u].workers, OwedBy(v, id)) + Tally(s.links[(u, v)], id) <= Owed(s.peers[u], v, id);
  }

  lemma WorkerCanMove(c: Config, s: State, u: Node, w: nat) returns (step: Step)
    requires c.Valid() && Inv(c, s) && WorkerAt(s, u, w) && !s.peers[u].workers[w].Idle?
    ensures Moves(c, s, step)
  {
    WorkerOf(c, s, u, w);
    match s.peers[u].workers[w] {
      case Delaying(_) =>
        step := BeginForwarding(u, w);
      case Deciding(_, _, todo, _) =>
        if todo == [] {
          var chosen := ChoiceExists(c, s, u, w);
          step := SelectTargets(u, w, chosen);
        } else {
          NeighborLink(c, s, u, todo[0]);
          step := DecideNext(u, w);
        }
      case Relaying(_, targets) =>
        if targets == [] {
          step := FinishItem(u, w);
        } else {
          NeighborLink(c, s, u, targets[0]);
          step := CheckTarget(u, w);
        }
      case Pushing(_, target, _) =>
        NeighborLink(c, s, u, target);
        step := PushTarget(u, w);
    }
  }

  /** A queued message is taken, or the worker that keeps it waiting goes on. */
  lemma QueueCanMove(c: Config, s: State, u: Node) returns (step: Step)
    requires c.Valid() && Inv(c, s) && u < |s.peers| && s.peers[u].queue != []
    ensures Moves(c, s, step)
  {
    PeerOf(c, s, u);
    assert |s.peers[u].workers| > 0;
    if s.peers[u].workers[0].Idle? {
      step := TakeItem(u, 0);
    } else {
      step := WorkerCanMove(c, s, u, 0);
    }
  }

  ghost predicate LinkIdle(l: Link) {
    l.queues.Empty() && l.hand.Empty? && l.wire == []
  }

  lemma HandCanMove(c: Config, s: State, u: Node, v: Node) returns (step: Step)
    requires c.Valid() && Inv(c, s) && LinkAt(s, u, v) && !s.links[(u, v)].hand.Empty?
    ensures Moves(c, s, step)
  {
    match s.links[(u, v)].hand {
      case Taken(_) => step := FirstCheck(u, v);
      case Drawing(_) => step := DrawLoss(u, v, false);
      case Sleeping(_) => step := SecondCheck(u, v);
      case Ready(_) => step := WriteFrame(u, v, false);
      case Written(_) => step := RecordWrite(u, v);
    }
  }

  lemma LinkCanMove(c: Config, s: State, u: Node, v: Node) returns (step: Step)
    requires c.Valid() && Inv(c, s) && LinkAt(s, u, v) && !LinkIdle(s.links[(u, v)])
    ensures Moves(c, s, step)
  {
    if !s.links[(u, v)].hand.Empty? {
      step := HandCanMove(c, s, u, v);
    } else {
      step := if s.links[(u, v)].queues.Empty() then Deliver(u, v) else DequeueFrame(u, v);
    }
  }

  /** A reachable state in which nothing but an injection can happen is quiescent for every message. */
  lemma StandstillIsQuiescent(c: Config, s: State, id: MessageId)
    requires c.Valid() && Reachable(c, s) && Standstill(c, s)
    ensures Quiescent(s, id)
  {
    ReachableInv(c, s);
    forall u: Node | u < |s.peers| ensures PeerQuiet(s.peers[u], id) {
      PeerAtRest(c, s, u, id);
    }
    forall e | e in s.links ensures LinkQuiet(s.links[e], id) {
      if !LinkIdle(s.links[e]) {
        var step := LinkCanMove(c, s, e.0, e.1);
      }
    }
  }

  lemma PeerAtRest(c: Config, s: State, u: Node, id: MessageId)
    requires c.Valid() && Inv(c, s) && Standstill(c, s) && u < |s.peers|
    ensures PeerQuiet(s.peers[u], id)
  {
    var p := s.peers[u];
    if p.handlers != [] {
      var step := HandlerCanMove(c, s, u);
    }
    if p.queue != [] {
      var step := QueueCanMove(c, s, u);
    }
    forall w | w in p.workers ensures WorkerQuiet(w, id) {
      var k :| 0 <= k < |p.workers| && p.workers[k] == w;
      if !w.Idle? {
        var step := WorkerCanMove(c, s, u, k);
      }
    }
  }

  /**
   * Delivery. Every run that is carried on until no step but an injection is left ends with each
   * injected message at exactly the peers connected to its origin, unless a copy of that message
   * was dropped on the way; and such a run does end, by Termination.
   */
  lemma Delivery(c: Config, s: State, steps: seq<Step>, t: State, id: MessageId)
    requires c.Valid() && Init(c, s) && Run(c, s, steps, t) && Standstill(c, t)
    requires FullRelay(c.protocol) && id in t.issued && NoDataDrop(t, id)
    ensures forall v: Node :: Seen(t, v, id) <==> Connected(c.neighbors, id.origin, v)
  {
    StandstillIsQuiescent(c, t, id);
    Coverage(c, t, id);
  }
}
