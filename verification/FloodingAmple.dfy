/**
 * What the capacities mean. Queues never hold more; and where they have room for all injected messages,
 * no link is lossy and no write fails, nothing is ever dropped, and so every message reaches the whole
 * component of its origin.
 */
module FloodingAmple {
  import opened Wire
  import opened Graph
  import opened Sums
  import opened Flooding
  import opened FloodingInvariant
  import opened FloodingSteps
  import opened FloodingArrivals
  import opened FloodingTree
  import opened FloodingCoverage
  import opened FloodingProgress
  import Sequences

  /** The queues hold k messages, and no frame is lost on purpose. */
  ghost predicate Ample(c: Config, k: nat) {
    && (forall u: Node :: u < |c.queueCapacity| ==> c.queueCapacity[u] >= k)
    && forall e :: e in c.edges ==> c.edges[e].capacity >= k && c.edges[e].lossRate <= 0.0
  }

  ghost predicate NoFailedWrite(steps: seq<Step>) {
    forall i :: 0 <= i < |steps| ==> !(steps[i].WriteFrame? && steps[i].failed)
  }

  /** What stands for each id at most once is no longer than the set of the ids. */
  lemma {:induction false} CountBound<T>(s: seq<T>, f: MessageId -> (T -> nat), key: T -> MessageId,
                                         ids: set<MessageId>)
    requires forall i :: 0 <= i < |s| ==> f(key(s[i]))(s[i]) >= 1
    requires forall id :: SumBy(s, f(id)) <= Bit(id in ids)
    ensures |s| <= |ids|
  {
    if s != [] {
      var first := key(s[0]);
      assert SumBy(s, f(first)) == f(first)(s[0]) + SumBy(s[1..], f(first));
      forall id ensures SumBy(s[1..], f(id)) <= Bit(id in ids - {first}) {
        assert SumBy(s, f(id)) == f(id)(s[0]) + SumBy(s[1..], f(id));
      }
      CountBound(s[1..], f, key, ids - {first});
    }
  }

  lemma {:induction false} SumByNone<T>(s: seq<T>, f: T -> nat)
    requires SumBy(s, f) > 0
    ensures exists i :: 0 <= i < |s| && f(s[i]) > 0
  {
    if forall i :: 0 <= i < |s| ==> f(s[i]) == 0 {
      SumByZero(s, f);
    }
  }

  /** A handler that is ready to hand over its message finds fewer messages queued than were issued. */
  lemma QueueRoom(c: Config, u: Node, p: PeerState, k: nat, issued: set<MessageId>)
    requires c.protocol.Valid() && u < |c.neighbors| == |c.workers| && PeerOk(c, u, p) && k < |p.handlers|
    requires p.arrival.Keys <= issued
    ensures |p.queue| < |issued|
  {
    var mine := p.handlers[k].item.message.id;
    SumByAtLeast(p.handlers, k, HandlerFor(mine));
    assert CopiesAt(p, mine) == Bit(mine in p.known.seen);
    forall id ensures SumBy(p.queue, ItemFor(id)) <= Bit(id in issued - {mine}) {
      assert CopiesAt(p, id) == Bit(id in p.known.seen);
    }
    CountBound(p.queue, ItemFor, (item: Item) => item.message.id, issued - {mine});
  }

  /** A worker with a copy for a neighbour finds fewer copies queued for it than messages were issued. */
  lemma DataRoom(c: Config, v: Node, p: PeerState, l: Link, w: nat, issued: set<MessageId>)
    requires c.protocol.Valid() && LinkContents(c, p, l) && LinkLaw(c, v, p, l)
    requires w < |p.workers| && p.workers[w].Pushing? && p.workers[w].target == v
    requires p.arrival.Keys <= issued && p.workers[w].outgoing.id in issued
    ensures |l.queues.data| < |issued|
  {
    var mine := p.workers[w].outgoing.id;
    SumByAtLeast(p.workers, w, OwedBy(v, mine));
    assert SumBy(p.workers, OwedBy(v, mine)) + Tally(l, mine) <= Owed(p, v, mine);
    forall id ensures SumBy(l.queues.data, DataFor(id)) <= Bit(id in issued - {mine}) {
      assert SumBy(p.workers, OwedBy(v, id)) + Tally(l, id) <= Owed(p, v, id);
      if SumBy(l.queues.data, DataFor(id)) > 0 {
        SumByNone(l.queues.data, DataFor(id));
        var i :| 0 <= i < |l.queues.data| && DataFor(id)(l.queues.data[i]) > 0;
        assert l.queues.data[i] in l.queues.data;
      }
    }
    forall i | 0 <= i < |l.queues.data| ensures DataFor(l.queues.data[i].Id())(l.queues.data[i]) >= 1 {
      assert l.queues.data[i] in l.queues.data;
    }
    CountBound(l.queues.data, DataFor, (f: Frame) => f.Id(), issued - {mine});
  }

  lemma IssuedHere(c: Config, s: State, u: Node)
    requires c.Valid() && Inv(c, s) && u < |s.peers|
    ensures s.peers[u].arrival.Keys <= s.issued
  {
    forall id | id in s.peers[u].arrival.Keys ensures id in s.issued {}
  }

  lemma AdmitHasRoom(c: Config, s: State, u: Node, k: nat)
    requires c.Valid() && Inv(c, s) && HandlerAt(s, u, k) && Ample(c, |s.issued|)
    ensures |s.peers[u].queue| < c.queueCapacity[u]
  {
    PeerOf(c, s, u);
    IssuedHere(c, s, u);
    QueueRoom(c, u, s.peers[u], k, s.issued);
  }

  lemma AdmitDropsNothing(c: Config, s: State, u: Node, k: nat, id: MessageId)
    requires c.Valid() && Inv(c, s) && Enabled(c, s, AdmitItem(u, k)) && NoDataDrop(s, id) && Ample(c, |s.issued|)
    ensures NoDataDrop(Apply(c, s, AdmitItem(u, k)), id)
  {
    AdmitHasRoom(c, s, u, k);
    assert Admit(s.peers[u], k, c.queueCapacity[u]).log == s.peers[u].log;
  }

  lemma PushHasRoom(c: Config, s: State, u: Node, w: nat)
    requires c.Valid() && Inv(c, s) && WorkerAt(s, u, w) && s.peers[u].workers[w].Pushing? && Ample(c, |s.issued|)
    ensures
      var v := s.peers[u].workers[w].target;
      LinkAt(s, u, v) && (u, v) in c.edges && |s.links[(u, v)].queues.data| < c.edges[(u, v)].capacity
  {
    var v := s.peers[u].workers[w].target;
    WorkerOf(c, s, u, w);
    NeighborLink(c, s, u, v);
    assert EdgeAt(c, s, u, v);
    IssuedHere(c, s, u);
    DataRoom(c, v, s.peers[u], s.links[(u, v)], w, s.issued);
  }

  lemma PushDropsNothing(c: Config, s: State, u: Node, w: nat, id: MessageId)
    requires c.Valid() && Inv(c, s) && Enabled(c, s, PushTarget(u, w)) && NoDataDrop(s, id) && Ample(c, |s.issued|)
    ensures NoDataDrop(Apply(c, s, PushTarget(u, w)), id)
  {
    PushHasRoom(c, s, u, w);
    var worker := s.peers[u].workers[w];
    var e := (u, worker.target);
    assert PushData(s.links[e], worker.outgoing, c.edges[e].capacity).log == s.links[e].log;
  }

  lemma SendDropsNothing(c: Config, s: State, step: Step, id: MessageId)
    requires Enabled(c, s, step) && NoDataDrop(s, id) && (forall e :: e in c.edges ==> c.edges[e].lossRate <= 0.0)
    requires step.DrawLoss? || (step.WriteFrame? && !step.failed) || step.DequeueFrame? || step.FirstCheck?
      || step.SecondCheck? || step.RecordWrite?
    ensures NoDataDrop(Apply(c, s, step), id)
  {}

  lemma OtherStepsDropNothing(c: Config, s: State, step: Step, id: MessageId)
    requires Enabled(c, s, step) && NoDataDrop(s, id)
    requires !step.AdmitItem? && !step.PushTarget? && !step.DrawLoss? && !step.WriteFrame?
    requires !step.DequeueFrame? && !step.FirstCheck? && !step.SecondCheck? && !step.RecordWrite?
    ensures NoDataDrop(Apply(c, s, step), id)
  {}

  lemma StepDropsNothing(c: Config, s: State, step: Step, id: MessageId)
    requires c.Valid() && Inv(c, s) && Enabled(c, s, step) && NoDataDrop(s, id) && Ample(c, |s.issued|)
    requires !(step.WriteFrame? && step.failed)
    ensures NoDataDrop(Apply(c, s, step), id)
  {
    if step.AdmitItem? {
      AdmitDropsNothing(c, s, step.u, step.k, id);
    } else if step.PushTarget? {
      PushDropsNothing(c, s, step.u, step.w, id);
    } else if step.DrawLoss? || step.WriteFrame? || step.DequeueFrame? || step.FirstCheck? || step.SecondCheck?
      || step.RecordWrite? {
      SendDropsNothing(c, s, step, id);
    } else {
      OtherStepsDropNothing(c, s, step, id);
    }
  }

  lemma StepIssues(c: Config, s: State, step: Step)
    requires Enabled(c, s, step)
    ensures s.issued <= Apply(c, s, step).issued
  {}

  lemma {:induction false} RunIssues(c: Config, s: State, steps: seq<Step>, t: State)
    requires Run(c, s, steps, t)
    ensures s.issued <= t.issued
    decreases |steps|
  {
    if steps != [] {
      StepIssues(c, s, steps[0]);
      RunIssues(c, Apply(c, s, steps[0]), steps[1..], t);
    }
  }

  lemma AmpleForFewer(c: Config, fewer: set<MessageId>, ids: set<MessageId>)
    requires Ample(c, |ids|) && fewer <= ids
    ensures Ample(c, |fewer|)
  {
    Sequences.SubsetSize(fewer, ids);
  }

  /** Nothing is dropped as long as the queues have room for all messages issued in the end. */
  lemma {:induction false} NothingIsDropped(c: Config, s: State, steps: seq<Step>, t: State, id: MessageId)
    requires c.Valid() && Inv(c, s) && Run(c, s, steps, t) && NoDataDrop(s, id)
    requires Ample(c, |t.issued|) && NoFailedWrite(steps)
    ensures NoDataDrop(t, id)
    decreases |steps|
  {
    if steps != [] {
      var next := Apply(c, s, steps[0]);
      RunIssues(c, s, steps, t);
      AmpleForFewer(c, s.issued, t.issued);
      assert !(steps[0].WriteFrame? && steps[0].failed);
      StepDropsNothing(c, s, steps[0], id);
      StepKeepsInv(c, s, steps[0]);
      assert forall i :: 0 <= i < |steps| - 1 ==> steps[1..][i] == steps[i + 1];
      NothingIsDropped(c, next, steps[1..], t, id);
    }
  }

  /**
   * Delivery without a proviso on the run: if every queue has room for as many messages as were injected,
   * no link is lossy and no write fails, then at a standstill each message is at exactly the peers
   * connected to its origin.
   */
  lemma AmpleDelivery(c: Config, s: State, steps: seq<Step>, t: State, id: MessageId)
    requires c.Valid() && Init(c, s) && Run(c, s, steps, t) && Standstill(c, t) && FullRelay(c.protocol)
    requires Ample(c, |t.issued|) && NoFailedWrite(steps) && id in t.issued
    ensures forall v: Node :: Seen(t, v, id) <==> Connected(c.neighbors, id.origin, v)
  {
    InitInv(c, s);
    NothingIsDropped(c, s, steps, t, id);
    Delivery(c, s, steps, t, id);
  }

  // And the queues never hold more than that

  ghost predicate QueueBounded(c: Config, s: State, u: Node) {
    u < |s.peers| == |c.queueCapacity| && |s.peers[u].queue| <= c.queueCapacity[u]
  }

  ghost predicate LinkBounded(c: Config, s: State, u: Node, v: Node) {
    LinkAt(s, u, v) && (u, v) in c.edges && s.links[(u, v)].queues.Within(c.edges[(u, v)].capacity)
  }

  lemma StepKeepsQueueBounded(c: Config, s: State, step: Step, u: Node)
    requires Enabled(c, s, step) && QueueBounded(c, s, u)
    ensures QueueBounded(c, Apply(c, s, step), u)
  {}

  lemma PushKeepsLinkBounded(c: Config, s: State, step: Step, u: Node, v: Node)
    requires Enabled(c, s, step) && LinkBounded(c, s, u, v) && (step.BroadcastNext? || step.PushTarget?)
    ensures LinkBounded(c, Apply(c, s, step), u, v)
  {}

  lemma StepKeepsLinkBounded(c: Config, s: State, step: Step, u: Node, v: Node)
    requires Enabled(c, s, step) && LinkBounded(c, s, u, v)
    ensures LinkBounded(c, Apply(c, s, step), u, v)
  {
    if step.BroadcastNext? || step.PushTarget? {
      PushKeepsLinkBounded(c, s, step, u, v);
    }
  }

  lemma {:induction false} RunKeepsBounded(c: Config, s: State, steps: seq<Step>, t: State, u: Node, v: Node)
    requires Run(c, s, steps, t) && QueueBounded(c, s, u) && LinkBounded(c, s, u, v)
    ensures QueueBounded(c, t, u) && LinkBounded(c, t, u, v)
    decreases |steps|
  {
    if steps != [] {
      StepKeepsQueueBounded(c, s, steps[0], u);
      StepKeepsLinkBounded(c, s, steps[0], u, v);
      RunKeepsBounded(c, Apply(c, s, steps[0]), steps[1..], t, u, v);
    }
  }

  lemma NewBounded(c: Config, s: State, u: Node, v: Node)
    requires c.Valid() && Init(c, s) && Adjacent(c.neighbors, u, v)
    ensures QueueBounded(c, s, u) && LinkBounded(c, s, u, v)
  {}

  /** In every reachable state each process queue and both queues of each link keep to their capacity. */
  lemma QueuesAreBounded(c: Config, s: State, u: Node, v: Node)
    requires c.Valid() && Reachable(c, s) && LinkAt(s, u, v)
    ensures u < |c.queueCapacity| && |s.peers[u].queue| <= c.queueCapacity[u]
    ensures (u, v) in c.edges && s.links[(u, v)].queues.Within(c.edges[(u, v)].capacity)
  {
    ReachableInv(c, s);
    var start, steps :| Init(c, start) && Run(c, start, steps, s);
    NewBounded(c, start, u, v);
    RunKeepsBounded(c, start, steps, s, u, v);
  }
}
